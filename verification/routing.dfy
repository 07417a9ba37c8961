/**
 * The event handlers of bot.py that only route: chat commands (bot.py:167-190),
 * channel messages (bot.py:192-217), private messages and notices
 * (bot.py:219-233) and member joins (bot.py:89-125).
 */
module Routing {
  import opened Wrappers
  import opened Ascii
  import opened Registry
  import opened Irc
  import opened Progression
  import opened Topics

  function StartAck(nick: string): string {
    "\U{1F3AF} " + nick + ", check your private messages for instructions!"
  }

  function StartText(nick: string): string {
    "\U{1F3AF} " + nick + ", your first challenge awaits!\n"
    + "\U{1F50D} Join #challenge-1-welcome to begin.\n"
    + "\U{1F4A1} Type: /join #challenge-1-welcome"
  }

  function HelpAck(nick: string): string {
    "\U{2753} " + nick + ", check your private messages for help!"
  }

  const HelpText :=
    "\U{1F3AE} IRC CTF Game Help:\n"
    + "!start - Begin your journey\n"
    + "!help - Show this help message\n"
    + "\U{1F4A1} Each challenge will lead you to the next channel\n"
    + "\U{1F3AF} Solve all challenges to win!"

  /** The command a `!`-prefixed message names, case folded and not stripped. */
  predicate IsCommand(data: string, name: string) {
    StartsWith(data, "!") && Lower(data[1..]) == name
  }

  /** `handle_command`: `!start` and `!help`, in any case, each answer in the
      channel and privately; everything else is ignored. */
  function HandleCommand(nick: string, target: string, data: string): (actions: seq<Action>)
    ensures actions != [] <==> IsCommand(data, "start") || IsCommand(data, "help")
    ensures IsCommand(data, "start") ==> actions == [PrivMsg(target, StartAck(nick)), PrivMsg(nick, StartText(nick))]
    ensures IsCommand(data, "help") ==> actions == [PrivMsg(target, HelpAck(nick)), PrivMsg(nick, HelpText)]
  {
    if StartsWith(data, "!") then
      var command := Lower(data[1..]);
      if command == "start" then
        [PrivMsg(target, StartAck(nick)), PrivMsg(nick, StartText(nick))]
      else if command == "help" then
        [PrivMsg(target, HelpAck(nick)), PrivMsg(nick, HelpText)]
      else
        []
    else
      []
  }

  /** Commands are case-insensitive. */
  lemma CommandIgnoresCase(nick: string, target: string, word: string)
    ensures HandleCommand(nick, target, "!" + Upper(word)) == HandleCommand(nick, target, "!" + word)
  {
    assert ("!" + Upper(word))[1..] == Upper(word);
    assert ("!" + word)[1..] == word;
    LowerIgnoresCase(word);
  }

  /** Commands are not stripped: trailing whitespace makes `!start` unknown. */
  lemma CommandNotStripped(nick: string, target: string, pad: string)
    requires |pad| > 0 && AllWhitespace(pad)
    ensures HandleCommand(nick, target, "!start" + pad) == []
  {
    var data := "!start" + pad;
    assert data[1..] == "start" + pad;
    assert |Lower(data[1..])| > 5;
    assert |Lower(data[1..])| != |"help"|;
  }

  function NotCorrectText(nick: string): string {
    "\U{274C} " + nick + ", that's not correct. Try again!"
  }

  function GuidanceText(nick: string): string {
    "\U{1F4A1} Hey " + nick + "!\n"
    + "To submit solutions, please send them to me privately.\n"
    + "This keeps the answers secret for other players.\n"
    + "Try sending your answer directly to me!"
  }

  /** `handle_channel_msg`. */
  function HandleChannelMsg(reg: Registry, botNick: string, nick: string, target: string, data: string): (actions: seq<Action>)
    ensures nick == botNick ==> actions == []
    ensures !StartsWith(target, "#") ==> actions == []
    ensures target == CommandChannel && nick != botNick ==> actions == HandleCommand(nick, target, data)
    ensures target != CommandChannel && StartsWith(target, "#") && Contains(reg, target) && nick != botNick ==>
      actions == [PrivMsg(target, NotCorrectText(nick)), PrivMsg(nick, GuidanceText(nick))]
    ensures target != CommandChannel && !Contains(reg, target) ==> actions == []
  {
    if nick == botNick then []
    else if StartsWith(target, "#") then
      if target == CommandChannel then HandleCommand(nick, target, data)
      else if Contains(reg, target) then
        [PrivMsg(target, NotCorrectText(nick)), PrivMsg(nick, GuidanceText(nick))]
      else []
    else []
  }

  /** An answer typed in a challenge channel is never accepted, however right
      it is: the reply does not depend on the text and nobody is kicked. */
  lemma ChannelAnswersNeverSolve(reg: Registry, botNick: string, nick: string, target: string, d1: string, d2: string)
    requires target != CommandChannel
    ensures HandleChannelMsg(reg, botNick, nick, target, d1) == HandleChannelMsg(reg, botNick, nick, target, d2)
    ensures KickCount(HandleChannelMsg(reg, botNick, nick, target, d1)) == 0
  {
    var a := HandleChannelMsg(reg, botNick, nick, target, d1);
    forall j | 0 <= j < |a| ensures !a[j].Kick? {
    }
    NoKickCounted(a);
  }

  /** `handle_privmsg`: a message addressed to the bot is an unscoped attempt. */
  function HandlePrivmsg(reg: Registry, botNick: string, nick: string, target: string, data: string,
                         clock: Clock, delivery: Delivery): (actions: seq<Action>)
    ensures target != botNick ==> actions == []
    ensures target == botNick ==>
      (actions == [] <==> forall j :: 0 <= j < |reg| ==> !Verify(reg, reg[j].0, data, clock))
    ensures target == botNick && actions != [] ==>
      exists i: nat :: IsFirstMatch(reg, data, clock, i) && actions == SolvedActions(reg, nick, reg[i].0, delivery)
  {
    if target == botNick then HandleChallengeSolution(reg, nick, data, None, clock, delivery) else []
  }

  /** `handle_notice`: handled exactly as a private message. */
  function HandleNotice(reg: Registry, botNick: string, nick: string, target: string, data: string,
                        clock: Clock, delivery: Delivery): (actions: seq<Action>)
    ensures actions == HandlePrivmsg(reg, botNick, nick, target, data, clock, delivery)
    ensures target != botNick ==> actions == []
  {
    if target == botNick then HandleChallengeSolution(reg, nick, data, None, clock, delivery) else []
  }

  /** A PRIVMSG reaches both handlers; as long as the bot's nick is not a
      channel name, at most one of them makes any call. */
  lemma PrivmsgHandlersDisjoint(reg: Registry, botNick: string, nick: string, target: string, data: string,
                                clock: Clock, delivery: Delivery)
    requires !StartsWith(botNick, "#")
    ensures HandleChannelMsg(reg, botNick, nick, target, data) == []
         || HandlePrivmsg(reg, botNick, nick, target, data, clock, delivery) == []
  {
  }

  const ChallengeTopic := "\U{1F3AE} CTF Challenge Channel | Solve the challenge to get the next channel!"
  const MainTopic := "\U{1F3AE} IRC CTF Game | Find hidden channels and solve challenges!"

  function ChallengeWelcome(nick: string, channel: string, prompt: string): string {
    "\U{1F44B} Welcome " + nick + " to " + channel + "!\n"
    + "\U{1F3AF} Here's your challenge:\n"
    + prompt + "\n"
    + "\U{1F4A1} Submit your answer in the channel or via private message."
  }

  function MainWelcome(nick: string): string {
    "\U{1F44B} Welcome " + nick + " to the IRC CTF Game!\n"
    + "\U{1F3AF} Find hidden channels and solve challenges to progress.\n"
    + "\U{1F4A1} Type !start to begin your journey!"
  }

  /** `handle_join`: in a challenge channel or the lobby, request the topic,
      then send the same welcome to the channel and to the joiner. */
  function HandleJoin(reg: Registry, retries: Retries, nick: string, channel: string): (s: Step)
    ensures !Contains(reg, channel) && channel != MainChannel ==> s == Step(retries, [])
    ensures Contains(reg, channel) || channel == MainChannel ==>
      && |s.actions| >= 2
      && s.actions[|s.actions| - 1].PrivMsg? && s.actions[|s.actions| - 1].target == nick
      && s.actions[|s.actions| - 2] == PrivMsg(channel, s.actions[|s.actions| - 1].text)
      && s.actions[..|s.actions| - 2] == SetChannelTopic(retries, channel, if Contains(reg, channel) then ChallengeTopic else MainTopic).actions
    ensures Contains(reg, channel) || channel == MainChannel ==>
      s.retries == SetChannelTopic(retries, channel, if Contains(reg, channel) then ChallengeTopic else MainTopic).retries
    ensures DistinctIds(reg) ==> forall i :: 0 <= i < |reg| && reg[i].0 == channel ==>
      s.actions[|s.actions| - 1] == PrivMsg(nick, ChallengeWelcome(nick, channel, reg[i].1.challenge))
    ensures channel == MainChannel && !Contains(reg, channel) ==>
      s.actions[|s.actions| - 1] == PrivMsg(nick, MainWelcome(nick))
  {
    if Contains(reg, channel) then
      var (prompt, _, _) := GetChallenge(reg, channel);
      var t := SetChannelTopic(retries, channel, ChallengeTopic);
      var welcome := ChallengeWelcome(nick, channel, Show(prompt));
      Step(t.retries, t.actions + [PrivMsg(channel, welcome), PrivMsg(nick, welcome)])
    else if channel == MainChannel then
      var t := SetChannelTopic(retries, channel, MainTopic);
      var welcome := MainWelcome(nick);
      Step(t.retries, t.actions + [PrivMsg(channel, welcome), PrivMsg(nick, welcome)])
    else
      Step(retries, [])
  }
}
