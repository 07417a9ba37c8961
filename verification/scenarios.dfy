/**
 * End-to-end runs of the shipped game: a private answer goes through
 * `handle_privmsg` and `handle_challenge_solution` against the registry
 * `generate_challenges` builds, for every key draw.
 */
module Scenarios {
  import opened Ascii
  import opened Vigenere
  import opened Registry
  import opened Challenges
  import opened Irc
  import opened Progression
  import opened Routing

  lemma FireMatchesWelcome(draws: seq<nat>, clock: Clock)
    requires ValidDraws(draws)
    ensures IsFirstMatch(GenerateChallenges(draws), "FIRE", clock, 0)
  {
    var reg := GenerateChallenges(draws);
    ShippedIdsDistinct(draws);
    assert reg[0] == (Welcome, WelcomeChallenge);
    assert Strip("FIRE") == "FIRE";
    assert Lower("FIRE") == "fire" == Lower(WelcomeChallenge.solution);
  }

  /** `FIRE`, sent privately, solves the first challenge: congratulations, the
      second channel with its prompt, then the kick from the first. */
  lemma FireSolvesWelcome(draws: seq<nat>, botNick: string, nick: string, clock: Clock)
    requires ValidDraws(draws)
    ensures HandlePrivmsg(GenerateChallenges(draws), botNick, nick, botNick, "FIRE", clock, AllSent) == [
      PrivMsg(nick, SuccessText(Welcome)),
      PrivMsg(nick, NextText(Binary, BinaryChallenge.challenge)),
      Kick(Welcome, nick, KickReason)]
  {
    var reg := GenerateChallenges(draws);
    ShippedIdsDistinct(draws);
    FireMatchesWelcome(draws, clock);
    UnscopedSolvesFirstMatch(reg, nick, "FIRE", clock, AllSent, 0);
    assert reg[0].0 == Welcome;
    assert reg[1] == (Binary, BinaryChallenge);
    SuccessMessagesFollowRegistry(reg, 0, nick);
    var messages := SendSuccessMessages(reg, nick, Welcome, AllSent);
    assert messages == [PrivMsg(nick, SuccessText(Welcome)), PrivMsg(nick, NextText(Binary, BinaryChallenge.challenge))];
    assert SolvedActions(reg, nick, Welcome, AllSent) == messages + [Kick(Welcome, nick, KickReason)];
  }

  /** `paris`, sent privately, is matched against `#challenge-2-binary`
      whichever channel the player is in, since the first challenge rejects it. */
  lemma ParisSolvesBinary(draws: seq<nat>, botNick: string, nick: string, clock: Clock, delivery: Delivery)
    requires ValidDraws(draws)
    ensures HandlePrivmsg(GenerateChallenges(draws), botNick, nick, botNick, "paris", clock, delivery)
         == SolvedActions(GenerateChallenges(draws), nick, Binary, delivery)
  {
    var reg := GenerateChallenges(draws);
    ShippedIdsDistinct(draws);
    assert reg[0].0 == Welcome && reg[1].0 == Binary;
    assert Strip(Lower("paris")) == "paris";
    assert IsFirstMatch(reg, "paris", clock, 1);
    UnscopedSolvesFirstMatch(reg, nick, "paris", clock, delivery, 1);
  }

  /** Solving the last challenge sends only the final congratulations, then the kick. */
  lemma FinalSolveCongratulates(draws: seq<nat>, nick: string, delivery: Delivery)
    requires ValidDraws(draws)
    ensures SolvedActions(GenerateChallenges(draws), nick, Final, delivery)
         == [PrivMsg(nick, FinalText(nick)), Kick(Final, nick, KickReason)]
  {
    ShippedNextExpectations(draws);
  }

  /** An answer nobody's challenge accepts makes no call at all. */
  lemma WrongAnswerIsIgnored(draws: seq<nat>, botNick: string, nick: string, clock: Clock, delivery: Delivery)
    requires ValidDraws(draws)
    ensures HandlePrivmsg(GenerateChallenges(draws), botNick, nick, botNick, "wrong", clock, delivery) == []
  {
    var reg := GenerateChallenges(draws);
    ShippedIdsDistinct(draws);
    assert Strip(Lower("wrong")) == "wrong";
    forall j | 0 <= j < |reg| ensures !Verify(reg, reg[j].0, "wrong", clock) {
      assert reg[j].1.solution == Solutions[j];
      assert Lower(Solutions[j]) != "wrong" by {
        if j == 1 || j == 3 { assert Lower(Solutions[j])[0] != 'w'; }
        else { assert |Solutions[j]| != 5; }
      }
    }
  }
}
