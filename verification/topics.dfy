/**
 * The per-channel topic retry counter of bot.py: `set_channel_topic`
 * (bot.py:73-87) makes at most three topic calls per channel, and the bot's
 * own join resets the count (bot.py:127-140).
 */
module Topics {
  import opened Irc

  const MaxTopicAttempts: nat := 3

  /** `self.topic_retries`. */
  type Retries = map<string, nat>

  /** The result of a handler: the counters afterwards and the calls made. */
  datatype Step = Step(retries: Retries, actions: seq<Action>)

  /** The attempts recorded for `channel`; a missing entry counts as zero. */
  function Attempts(retries: Retries, channel: string): nat {
    if channel in retries then retries[channel] else 0
  }

  /** `set_channel_topic`. The counter goes up whether `bot.topic` succeeds or
      raises, so a failed attempt is still a call in the trace. */
  function SetChannelTopic(retries: Retries, channel: string, topic: string): (s: Step)
    ensures Attempts(retries, channel) < MaxTopicAttempts ==>
      s.actions == [Topic(channel, topic)] && Attempts(s.retries, channel) == Attempts(retries, channel) + 1
    ensures Attempts(retries, channel) >= MaxTopicAttempts ==>
      s.actions == [] && Attempts(s.retries, channel) == Attempts(retries, channel)
    ensures forall c :: c != channel ==> Attempts(s.retries, c) == Attempts(retries, c)
  {
    var count := Attempts(retries, channel);
    if count < MaxTopicAttempts then
      Step(retries[channel := count + 1], [Topic(channel, topic)])
    else
      Step(retries[channel := count], [])
  }

  const BotGreeting :=
    "\U{1F3AE} Welcome to the IRC CTF Game!\n"
    + "\U{1F3AF} Your mission is to find hidden channels and solve challenges.\n"
    + "\U{1F4A1} Type !start to begin your journey!\n"
    + "\U{2753} Type !help for more information"

  /** `handle_bot_join`: on the bot's own join, greet the lobby and reset the
      channel's counter; other joins are ignored here. */
  function HandleBotJoin(retries: Retries, botNick: string, joiner: string, channel: string): (s: Step)
    ensures joiner != botNick ==> s == Step(retries, [])
    ensures joiner == botNick ==> Attempts(s.retries, channel) == 0
    ensures forall c :: c != channel ==> Attempts(s.retries, c) == Attempts(retries, c)
    ensures s.actions != [] <==> joiner == botNick && channel == MainChannel
    ensures joiner == botNick && channel == MainChannel ==> s.actions == [PrivMsg(MainChannel, BotGreeting)]
  {
    if joiner == botNick then
      Step(retries[channel := 0], if channel == MainChannel then [PrivMsg(channel, BotGreeting)] else [])
    else
      Step(retries, [])
  }

  /** The two things that touch the counter: a topic request and the bot's own join. */
  datatype TopicEvent = TopicRequest(channel: string, topic: string) | BotJoined(channel: string)

  function Apply(retries: Retries, botNick: string, e: TopicEvent): Step {
    match e
    case TopicRequest(c, t) => SetChannelTopic(retries, c, t)
    case BotJoined(c) => HandleBotJoin(retries, botNick, botNick, c)
  }

  /** Handles the events one after another, concatenating their calls. */
  function Run(retries: Retries, botNick: string, events: seq<TopicEvent>): Step
    decreases |events|
  {
    if |events| == 0 then Step(retries, [])
    else
      var first := Apply(retries, botNick, events[0]);
      var rest := Run(first.retries, botNick, events[1..]);
      Step(rest.retries, first.actions + rest.actions)
  }

  /** Topic calls on `channel` in a trace. */
  function TopicCalls(actions: seq<Action>, channel: string): nat {
    if |actions| == 0 then 0
    else (if actions[0].Topic? && actions[0].channel == channel then 1 else 0) + TopicCalls(actions[1..], channel)
  }

  /** Topic requests for `channel` among the events. */
  function Requests(events: seq<TopicEvent>, channel: string): nat {
    if |events| == 0 then 0
    else (if events[0].TopicRequest? && events[0].channel == channel then 1 else 0) + Requests(events[1..], channel)
  }

  predicate NoBotJoin(events: seq<TopicEvent>, channel: string) {
    forall j :: 0 <= j < |events| ==> events[j] != BotJoined(channel)
  }

  function Min(a: int, b: int): int {
    if a <= b then a else b
  }

  lemma {:induction false} TopicCallsAppend(a: seq<Action>, b: seq<Action>, channel: string)
    ensures TopicCalls(a + b, channel) == TopicCalls(a, channel) + TopicCalls(b, channel)
    decreases |a|
  {
    if |a| > 0 {
      assert (a + b)[1..] == a[1..] + b;
      TopicCallsAppend(a[1..], b, channel);
    } else {
      assert a + b == b;
    }
  }

  /** Between two joins of the bot, a channel gets exactly as many topic calls
      as were requested, but no more than the attempts it has left; each call
      is counted. */
  lemma {:induction false} TopicCallsCapped(retries: Retries, botNick: string, events: seq<TopicEvent>, channel: string)
    requires NoBotJoin(events, channel)
    ensures var s := Run(retries, botNick, events);
      var left := MaxTopicAttempts - Min(MaxTopicAttempts, Attempts(retries, channel));
      && TopicCalls(s.actions, channel) == Min(Requests(events, channel), left)
      && Attempts(s.retries, channel) == Attempts(retries, channel) + TopicCalls(s.actions, channel)
    decreases |events|
  {
    if |events| > 0 {
      var first := Apply(retries, botNick, events[0]);
      assert NoBotJoin(events[1..], channel) by {
        forall j | 0 <= j < |events[1..]| ensures events[1..][j] != BotJoined(channel) {
          assert events[1..][j] == events[j + 1];
        }
      }
      TopicCallsCapped(first.retries, botNick, events[1..], channel);
      var rest := Run(first.retries, botNick, events[1..]);
      TopicCallsAppend(first.actions, rest.actions, channel);
      assert events[0] != BotJoined(channel);
      match events[0]
      case TopicRequest(c, t) =>
        if c == channel && Attempts(retries, channel) < MaxTopicAttempts {
          assert TopicCalls(first.actions, channel) == 1;
        } else {
          assert TopicCalls(first.actions, channel) == 0;
        }
      case BotJoined(c) =>
        assert TopicCalls(first.actions, channel) == 0;
    }
  }

  /** Right after the bot joins a channel, whatever follows, that channel sees
      at most three topic calls until the bot's next join there. */
  lemma AtMostThreeTopicsPerJoin(retries: Retries, botNick: string, events: seq<TopicEvent>, channel: string)
    requires NoBotJoin(events, channel)
    ensures TopicCalls(Run(retries, botNick, [BotJoined(channel)] + events).actions, channel)
      == Min(Requests(events, channel), MaxTopicAttempts)
  {
    var all := [BotJoined(channel)] + events;
    assert all[1..] == events;
    var first := Apply(retries, botNick, all[0]);
    TopicCallsCapped(first.retries, botNick, events, channel);
    TopicCallsAppend(first.actions, Run(first.retries, botNick, events).actions, channel);
    assert TopicCalls(first.actions, channel) == 0;
  }
}
