/**
 * The calls the bot makes on its IRC client. The game logic is modelled as
 * pure functions that return the sequence of calls they would make.
 */
module Irc {

  /** The lobby the bot greets players in (bot.py:62, bot.py:113, bot.py:131). */
  const MainChannel := "#CypherCon"

  /** The only channel whose messages are read as commands (bot.py:204). */
  const CommandChannel := "#ctf-game"

  datatype Action =
    | PrivMsg(target: string, text: string)          // `bot.privmsg(target, text)`
    | Kick(channel: string, nick: string, reason: string)  // `bot.kick(channel, nick, reason)`
    | Topic(channel: string, text: string)           // `bot.topic(channel, text)`

  /** Every call is a private message to `nick`. */
  predicate AllPrivateTo(actions: seq<Action>, nick: string) {
    forall j :: 0 <= j < |actions| ==> actions[j].PrivMsg? && actions[j].target == nick
  }

  /** The number of kicks in a trace. */
  function KickCount(actions: seq<Action>): nat {
    if |actions| == 0 then 0
    else (if actions[|actions| - 1].Kick? then 1 else 0) + KickCount(actions[..|actions| - 1])
  }

  /** A trace with no kick in it counts no kicks. */
  lemma {:induction false} NoKickCounted(actions: seq<Action>)
    requires forall j :: 0 <= j < |actions| ==> !actions[j].Kick?
    ensures KickCount(actions) == 0
  {
    if |actions| > 0 {
      NoKickCounted(actions[..|actions| - 1]);
    }
  }

  lemma NoKickWhenAllPrivate(actions: seq<Action>, nick: string)
    requires AllPrivateTo(actions, nick)
    ensures KickCount(actions) == 0
  {
    NoKickCounted(actions);
  }
}
