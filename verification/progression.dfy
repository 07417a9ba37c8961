/**
 * One solution attempt (bot.py:235-302): which challenge it solves, the
 * private messages that follow, and the kick from the solved channel.
 */
module Progression {
  import opened Wrappers
  import opened Registry
  import opened Irc

  /** Which private message of the success branch raises, if any
      (bot.py:268-290); the IRC client is otherwise best-effort. */
  datatype Delivery = AllSent | FirstFails | SecondFails

  const KickReason := "Challenge solved! Check your private messages for the next challenge."

  function SuccessText(solved: string): string {
    "\U{1F389} Congratulations! You've solved the challenge in " + solved + "!"
  }

  function NextText(next: string, preview: string): string {
    "\U{1F3AF} Your next challenge awaits in: " + next + "\n"
    + "\U{1F4A1} Type this command to join: /join " + next + "\n"
    + "\n\U{1F4DD} Here's a preview of your next challenge:\n"
    + preview
  }

  function FallbackText(next: string): string {
    "\U{1F389} Congratulations! Join " + next + " for your next challenge!"
  }

  function FinalText(nick: string): string {
    "\U{1F3C6} CONGRATULATIONS " + nick + "! \U{1F3C6}\n"
    + "You've completed all challenges in the CTF game!\n"
    + "Thank you for playing! \U{1F3AE}"
  }

  /** How an f-string renders an optional string. */
  function Show(s: Option<string>): string {
    s.GetOr("None")
  }

  /** `if next_channel:` — a next id exists and is not the empty string. */
  predicate HasNext(reg: Registry, solved: string) {
    var next := GetNextChannel(reg, solved);
    next.Some? && next.value != ""
  }

  /** `_send_success_messages`: every call made, in order, failed sends included. */
  function SendSuccessMessages(reg: Registry, nick: string, solved: string, delivery: Delivery): (actions: seq<Action>)
    ensures AllPrivateTo(actions, nick)
    ensures !HasNext(reg, solved) ==> actions == [PrivMsg(nick, FinalText(nick))]
    ensures HasNext(reg, solved) ==>
      var next := GetNextChannel(reg, solved).value;
      && |actions| >= 2
      && actions[0] == PrivMsg(nick, SuccessText(solved))
      && (delivery == AllSent <==> actions[|actions| - 1] != PrivMsg(nick, FallbackText(next)))
      && (delivery != FirstFails ==> actions[1] == PrivMsg(nick, NextText(next, Show(GetChallenge(reg, next).0))))
      && (delivery == AllSent ==> |actions| == 2)
      && (delivery == FirstFails ==> |actions| == 2)
      && (delivery == SecondFails ==> |actions| == 3)
  {
    var next := GetNextChannel(reg, solved);
    if next.Some? && next.value != "" then
      var congrats := PrivMsg(nick, SuccessText(solved));
      var (preview, _, _) := GetChallenge(reg, next.value);
      var details := PrivMsg(nick, NextText(next.value, Show(preview)));
      var fallback := PrivMsg(nick, FallbackText(next.value));
      NextTextIsNotFallback(next.value, Show(preview));
      match delivery
      case AllSent => [congrats, details]
      case FirstFails => [congrats, fallback]
      case SecondFails => [congrats, details, fallback]
    else
      [PrivMsg(nick, FinalText(nick))]
  }

  lemma NextTextIsNotFallback(next: string, preview: string)
    ensures NextText(next, preview) != FallbackText(next)
  {
    assert NextText(next, preview)[2] == 'Y';
    assert FallbackText(next)[2] == 'C';
  }

  /** In registry terms: after solving the channel at position `i`, the player
      is congratulated on it and pointed at position `i + 1` with its prompt,
      or, past the last position, receives the final congratulations. */
  lemma SuccessMessagesFollowRegistry(reg: Registry, i: nat, nick: string)
    requires DistinctIds(reg) && i < |reg|
    requires i + 1 < |reg| ==> reg[i + 1].0 != ""
    ensures var actions := SendSuccessMessages(reg, nick, reg[i].0, AllSent);
      if i + 1 < |reg| then
        actions == [PrivMsg(nick, SuccessText(reg[i].0)), PrivMsg(nick, NextText(reg[i + 1].0, reg[i + 1].1.challenge))]
      else
        actions == [PrivMsg(nick, FinalText(nick))]
  {
  }

  /** The calls after a verified answer: success messages, then the kick. */
  function SolvedActions(reg: Registry, nick: string, solved: string, delivery: Delivery): (actions: seq<Action>)
    ensures |actions| >= 2
    ensures actions[|actions| - 1] == Kick(solved, nick, KickReason)
    ensures AllPrivateTo(actions[..|actions| - 1], nick)
    ensures KickCount(actions) == 1
    ensures actions[..|actions| - 1] == SendSuccessMessages(reg, nick, solved, delivery)
  {
    var messages := SendSuccessMessages(reg, nick, solved, delivery);
    var actions := messages + [Kick(solved, nick, KickReason)];
    assert actions[..|actions| - 1] == messages;
    NoKickWhenAllPrivate(messages, nick);
    actions
  }

  /** Position `i` is the first, in key order, whose challenge accepts the answer. */
  predicate IsFirstMatch(reg: Registry, input: string, clock: Clock, i: nat) {
    && i < |reg|
    && Verify(reg, reg[i].0, input, clock)
    && forall j :: 0 <= j < i ==> !Verify(reg, reg[j].0, input, clock)
  }

  /** The `for channel in CHALLENGES.keys()` loop of bot.py:251-258, from `start` on. */
  function FirstMatchFrom(reg: Registry, input: string, clock: Clock, start: nat): (r: Option<nat>)
    requires start <= |reg|
    decreases |reg| - start
    ensures r.Some? ==> start <= r.value < |reg| && Verify(reg, reg[r.value].0, input, clock)
    ensures r.Some? ==> forall j :: start <= j < r.value ==> !Verify(reg, reg[j].0, input, clock)
    ensures r.None? ==> forall j :: start <= j < |reg| ==> !Verify(reg, reg[j].0, input, clock)
  {
    if start == |reg| then None
    else if Verify(reg, reg[start].0, input, clock) then Some(start)
    else FirstMatchFrom(reg, input, clock, start + 1)
  }

  /** `if current_channel` — `None` and the empty string both mean "no channel". */
  predicate Scoped(current: Option<string>) {
    current.Some? && current.value != ""
  }

  /** `handle_challenge_solution`. A scoped attempt checks only its own channel;
      an unscoped one acts on the first channel in key order that accepts the
      answer; all other attempts make no call. */
  function HandleChallengeSolution(reg: Registry, nick: string, solution: string, current: Option<string>,
                                   clock: Clock, delivery: Delivery): (actions: seq<Action>)
    ensures Scoped(current) ==> (actions != [] <==> Verify(reg, current.value, solution, clock))
    ensures Scoped(current) && actions != [] ==> actions == SolvedActions(reg, nick, current.value, delivery)
    ensures !Scoped(current) ==>
      (actions == [] <==> forall j :: 0 <= j < |reg| ==> !Verify(reg, reg[j].0, solution, clock))
    ensures !Scoped(current) && actions != [] ==>
      exists i: nat :: IsFirstMatch(reg, solution, clock, i) && actions == SolvedActions(reg, nick, reg[i].0, delivery)
  {
    if current.Some? && current.value != "" then
      if Contains(reg, current.value) && Verify(reg, current.value, solution, clock) then
        SolvedActions(reg, nick, current.value, delivery)
      else
        []
    else
      match FirstMatchFrom(reg, solution, clock, 0)
      case None => []
      case Some(i) =>
        assert IsFirstMatch(reg, solution, clock, i);
        SolvedActions(reg, nick, reg[i].0, delivery)
  }

  /** At most one position is the first match. */
  lemma FirstMatchUnique(reg: Registry, input: string, clock: Clock, i: nat, k: nat)
    requires IsFirstMatch(reg, input, clock, i) && IsFirstMatch(reg, input, clock, k)
    ensures i == k
  {
  }

  /** The only trace an unscoped attempt can yield is the solve of the first
      accepting channel, whatever channel the answer was meant for. */
  lemma UnscopedSolvesFirstMatch(reg: Registry, nick: string, solution: string, clock: Clock, delivery: Delivery, i: nat)
    requires IsFirstMatch(reg, solution, clock, i)
    ensures HandleChallengeSolution(reg, nick, solution, None, clock, delivery) == SolvedActions(reg, nick, reg[i].0, delivery)
  {
    var r := FirstMatchFrom(reg, solution, clock, 0);
    assert r.Some?;
    FirstMatchUnique(reg, solution, clock, i, r.value);
  }

  /** When several challenges accept the same answer, only the earliest is
      solved: the kick names it and no other channel. */
  lemma UnscopedEarliestWins(reg: Registry, nick: string, solution: string, clock: Clock, delivery: Delivery, i: nat, j: nat)
    requires DistinctIds(reg)
    requires i < j < |reg|
    requires Verify(reg, reg[i].0, solution, clock) && Verify(reg, reg[j].0, solution, clock)
    ensures var actions := HandleChallengeSolution(reg, nick, solution, None, clock, delivery);
      actions != [] && actions[|actions| - 1].channel != reg[j].0
  {
    var r := FirstMatchFrom(reg, solution, clock, 0);
    assert r.Some? && r.value <= i;
    UnscopedSolvesFirstMatch(reg, nick, solution, clock, delivery, r.value);
  }
}
