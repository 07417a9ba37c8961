/**
 * The challenge registry of challenges.py: an insertion-ordered map from
 * channel id to challenge record, with the lookups the bot performs on it
 * (challenges.py:141-182).
 */
module Registry {
  import opened Wrappers
  import opened Ascii

  /** One record of the registry. `timeCheck` is the optional `time_check`
      flag, absent meaning false. */
  datatype Challenge = Challenge(challenge: string, solution: string, hint: string, timeCheck: bool)

  /** A channel id and its record. */
  type Entry = (string, Challenge)

  /** The dictionary, as its items in insertion order. */
  type Registry = seq<Entry>

  /** The wall-clock reading `datetime.now()` would give. */
  datatype Clock = Clock(hour: int, minute: int)

  /** Dictionary keys are unique. */
  ghost predicate DistinctIds(reg: Registry) {
    forall i, j :: 0 <= i < j < |reg| ==> reg[i].0 != reg[j].0
  }

  /** `CHALLENGES.keys()` in order. */
  function Ids(reg: Registry): (ids: seq<string>)
    ensures |ids| == |reg|
    ensures forall i :: 0 <= i < |reg| ==> ids[i] == reg[i].0
  {
    seq(|reg|, i requires 0 <= i < |reg| => reg[i].0)
  }

  /** Position of `id` in key order (`list.index`), `None` for `ValueError`. */
  function IndexOf(reg: Registry, id: string): (r: Option<nat>)
    ensures r.Some? ==> r.value < |reg| && reg[r.value].0 == id
    ensures r.Some? ==> forall j :: 0 <= j < r.value ==> reg[j].0 != id
    ensures r.None? ==> forall j :: 0 <= j < |reg| ==> reg[j].0 != id
  {
    if |reg| == 0 then None
    else if reg[0].0 == id then Some(0)
    else
      match IndexOf(reg[1..], id)
      case None => None
      case Some(k) => Some(k + 1)
  }

  /** `channel in CHALLENGES`. */
  predicate Contains(reg: Registry, id: string) {
    IndexOf(reg, id).Some?
  }

  lemma ContainsIsMembership(reg: Registry, id: string)
    ensures Contains(reg, id) <==> id in Ids(reg)
  {
    if id in Ids(reg) {
      var i :| 0 <= i < |reg| && Ids(reg)[i] == id;
    }
  }

  /** `CHALLENGES[channel]`, `None` when the key is missing. */
  function Lookup(reg: Registry, id: string): (r: Option<Challenge>)
    ensures r.Some? <==> Contains(reg, id)
    ensures DistinctIds(reg) ==> forall i :: 0 <= i < |reg| && reg[i].0 == id ==> r == Some(reg[i].1)
  {
    match IndexOf(reg, id)
    case None => None
    case Some(i) => Some(reg[i].1)
  }

  /** `get_challenge`: the record's prompt, solution and hint, or three `None`s. */
  function GetChallenge(reg: Registry, id: string): (r: (Option<string>, Option<string>, Option<string>))
    ensures !Contains(reg, id) ==> r == (None, None, None)
    ensures DistinctIds(reg) ==> forall i :: 0 <= i < |reg| && reg[i].0 == id ==>
      r == (Some(reg[i].1.challenge), Some(reg[i].1.solution), Some(reg[i].1.hint))
  {
    match Lookup(reg, id)
    case None => (None, None, None)
    case Some(c) => (Some(c.challenge), Some(c.solution), Some(c.hint))
  }

  /** The 4:20 gate of a record carrying `time_check`. */
  predicate TimeAllows(c: Challenge, clock: Clock) {
    !c.timeCheck || (clock.hour == 4 && clock.minute == 20)
  }

  /** `verify_solution`: unknown ids fail closed, the time gate is applied,
      then the lowercased and stripped answer must equal the lowercased (but
      not stripped) expected solution. */
  function Verify(reg: Registry, id: string, input: string, clock: Clock): (ok: bool)
    ensures ok ==> Contains(reg, id)
    ensures DistinctIds(reg) ==> forall i :: 0 <= i < |reg| && reg[i].0 == id ==>
      (ok <==> TimeAllows(reg[i].1, clock) && Lower(Strip(input)) == Lower(reg[i].1.solution))
  {
    LowerCommutesWithStrip(input);
    match Lookup(reg, id)
    case None => false
    case Some(c) =>
      if !TimeAllows(c, clock) then false
      else Lower(c.solution) == Strip(Lower(input))
  }

  /** Fails closed on an id that is not a key. */
  lemma VerifyUnknownFails(reg: Registry, id: string, input: string, clock: Clock)
    requires id !in Ids(reg)
    ensures !Verify(reg, id, input, clock)
  {
    ContainsIsMembership(reg, id);
  }

  /** A time-gated challenge rejects every answer outside 4:20. */
  lemma TimeGateRejectsAll(reg: Registry, i: nat, input: string, clock: Clock)
    requires DistinctIds(reg) && i < |reg|
    requires reg[i].1.timeCheck && !(clock.hour == 4 && clock.minute == 20)
    ensures !Verify(reg, reg[i].0, input, clock)
  {
  }

  /** Surrounding whitespace and letter case of the answer never matter. */
  lemma VerifyIgnoresWhitespaceAndCase(reg: Registry, id: string, a: string, input: string, b: string, clock: Clock)
    requires AllWhitespace(a) && AllWhitespace(b)
    ensures Verify(reg, id, a + input + b, clock) == Verify(reg, id, input, clock)
    ensures Verify(reg, id, Upper(input), clock) == Verify(reg, id, input, clock)
  {
    StripIgnoresSurroundingWhitespace(a, input, b);
    LowerCommutesWithStrip(a + input + b);
    LowerCommutesWithStrip(input);
    LowerCommutesWithStrip(Upper(input));
    LowerIgnoresCase(input);
  }

  /** The stored solution itself, in any case and padded with whitespace, is
      accepted whenever the clock allows it, provided the stored solution has
      no surrounding whitespace of its own. */
  lemma VerifyAcceptsSolution(reg: Registry, i: nat, a: string, b: string, clock: Clock)
    requires DistinctIds(reg) && i < |reg|
    requires Strip(reg[i].1.solution) == reg[i].1.solution
    requires TimeAllows(reg[i].1, clock)
    requires AllWhitespace(a) && AllWhitespace(b)
    ensures Verify(reg, reg[i].0, reg[i].1.solution, clock)
    ensures Verify(reg, reg[i].0, a + Upper(reg[i].1.solution) + b, clock)
  {
    VerifyIgnoresWhitespaceAndCase(reg, reg[i].0, a, Upper(reg[i].1.solution), b, clock);
    VerifyIgnoresWhitespaceAndCase(reg, reg[i].0, [], reg[i].1.solution, [], clock);
  }

  /** The expected solution is not stripped: one that begins or ends with
      whitespace can never be matched, since the answer always is stripped. */
  lemma PaddedSolutionUnreachable(reg: Registry, i: nat, input: string, clock: Clock)
    requires DistinctIds(reg) && i < |reg|
    requires var s := reg[i].1.solution; |s| > 0 && (IsWhitespace(s[0]) || IsWhitespace(s[|s| - 1]))
    ensures !Verify(reg, reg[i].0, input, clock)
  {
    var s := reg[i].1.solution;
    var t := Strip(input);
    StripIsStrip(input);
    LowerWhitespace(s[0]);
    LowerWhitespace(s[|s| - 1]);
    if |t| > 0 {
      LowerWhitespace(t[0]);
      LowerWhitespace(t[|t| - 1]);
    }
  }

  /** `get_next_channel`: the id right after `id` in key order; `None` for the
      last id and for an id that is not a key. */
  function GetNextChannel(reg: Registry, id: string): (r: Option<string>)
    ensures (forall i :: 0 <= i < |reg| ==> reg[i].0 != id) ==> r == None
    ensures DistinctIds(reg) ==> forall i :: 0 <= i < |reg| && reg[i].0 == id ==>
      r == if i + 1 < |reg| then Some(reg[i + 1].0) else None
    ensures r.Some? ==> Contains(reg, r.value)
  {
    match IndexOf(reg, id)
    case None => None
    case Some(i) =>
      if i < |reg| - 1 then
        assert IndexOf(reg, reg[i + 1].0).Some?;
        Some(reg[i + 1].0)
      else None
  }

  /** The id reached from `id` after `k` calls of `get_next_channel`. */
  function Follow(reg: Registry, id: string, k: nat): Option<string>
  {
    if k == 0 then Some(id)
    else
      match Follow(reg, id, k - 1)
      case None => None
      case Some(c) => GetNextChannel(reg, c)
  }

  /** Walking from the first id visits every id in insertion order and then
      stops. */
  lemma {:induction false} WalkVisitsInOrder(reg: Registry, k: nat)
    requires DistinctIds(reg) && |reg| > 0
    requires k <= |reg|
    ensures Follow(reg, reg[0].0, k) == if k < |reg| then Some(reg[k].0) else None
  {
    if k > 0 {
      WalkVisitsInOrder(reg, k - 1);
    }
  }
}
