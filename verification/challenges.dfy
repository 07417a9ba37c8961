/**
 * The seven shipped challenges (`generate_challenges`, challenges.py:53-134)
 * and the wholesale registry swap of `refresh_challenges`
 * (challenges.py:185-188). The only random input is the Vigenère key, drawn
 * by the caller and passed in.
 */
module Challenges {
  import opened Wrappers
  import opened Ascii
  import opened Vigenere
  import opened Registry

  const Welcome := "#challenge-1-welcome"
  const Binary := "#challenge-2-binary"
  const Crypto := "#challenge-3-crypto"
  const Timed := "#challenge-4-timed"
  const Cipher := "#challenge-5-vigenere"
  const Stego := "#challenge-6-stego"
  const Final := "#challenge-7-final"

  /** The channel ids, in the order the dictionary literal lists them. */
  const ChannelIds: seq<string> := [Welcome, Binary, Crypto, Timed, Cipher, Stego, Final]

  /** The plaintext of the cipher challenge, which is also its solution. */
  const Pangram := "the quick brown fox jumps over the lazy dog"

  /** The expected answers, in the same order. */
  const Solutions: seq<string> := [
    "fire",
    "paris",
    "What is the most secret point in the dlrow?",
    "blaze",
    Pangram,
    "hidden message",
    "ctf{1rc_ch4ll3ng3_m4st3r}"
  ]

  /** `create_steganography_text`. */
  const StegoText :=
    "Hello everyone, welcome to this challenge.\n"
    + "I hope you're enjoying the game so far.\n"
    + "Don't forget to check every detail carefully.\n"
    + "Each word might hold a secret, you never know.\n"
    + "Nobody said this would be easy, but it's fun!\n"
    + "Maybe you'll find something interesting here.\n"
    + "Always look for patterns in the text.\n"
    + "Some secrets are hidden in plain sight.\n"
    + "See if you can spot what's different.\n"
    + "Good luck finding the hidden message!\n"
    + "Everyone has their own way of solving puzzles."

  const CipherHeader := "\U{1F510} Cipher Challenge\n\U{1F50D} Decrypt this message:\n"
  const KeyLabel := "\U{1F4A1} The key is: "

  /** The shape of the cipher challenge's prompt: a ciphertext line, then a
      line meant to show the key. */
  function KeyedPrompt(cipherText: string, keyText: string): string {
    CipherHeader + cipherText + "\n" + KeyLabel + keyText + "\n"
  }

  /** The prompt lets a player decrypt the pangram: it shows a well-formed key
      and a ciphertext that this key turns back into the solution. */
  ghost predicate DisclosesKey(prompt: string) {
    exists cipherText, k :: IsKey(k) && prompt == KeyedPrompt(cipherText, k) && Decrypt(cipherText, k) == Pangram
  }

  /** The cipher prompt as challenges.py:102-107 builds it: the key line is not
      an f-string, so it shows the literal text `{vigenere_key}`. */
  function VigenerePromptAsWritten(key: string): string
    requires IsKey(key)
  {
    KeyedPrompt(Encrypt(Pangram, key).value, "{vigenere_key}")
  }

  /** The cipher prompt with the key interpolated, as evidently intended. */
  function VigenerePrompt(key: string): string
    requires IsKey(key)
  {
    KeyedPrompt(Encrypt(Pangram, key).value, key)
  }

  lemma KeyedPromptEndsWithKey(cipherText: string, keyText: string)
    requires |keyText| > 0
    ensures var p := KeyedPrompt(cipherText, keyText); |p| >= 2 && p[|p| - 2] == keyText[|keyText| - 1]
  {
    var p := KeyedPrompt(cipherText, keyText);
    assert p == (CipherHeader + cipherText + "\n" + KeyLabel) + keyText + "\n";
  }

  /** As written, no draw of the key yields a prompt that discloses a key: the
      second-last character of the prompt is the `}` of the placeholder, which
      no key ends with. */
  lemma AsWrittenPromptHidesKey(key: string)
    requires IsKey(key)
    ensures !DisclosesKey(VigenerePromptAsWritten(key))
  {
    var p := VigenerePromptAsWritten(key);
    KeyedPromptEndsWithKey(Encrypt(Pangram, key).value, "{vigenere_key}");
    forall c, k | IsKey(k) ensures p != KeyedPrompt(c, k) {
      KeyedPromptEndsWithKey(c, k);
    }
  }

  lemma PangramIsLower()
    ensures Lower(Pangram) == Pangram
  {
    forall i | 0 <= i < |Pangram| ensures !IsUpper(Pangram[i]) {
    }
  }

  /** With the key interpolated, the prompt discloses the key and decrypting
      its ciphertext gives back the expected solution. */
  lemma VigenerePromptDisclosesKey(key: string)
    requires IsKey(key)
    ensures DisclosesKey(VigenerePrompt(key))
  {
    DecryptEncrypt(Pangram, key);
    PangramIsLower();
    var c := Encrypt(Pangram, key).value;
    assert IsKey(key) && VigenerePrompt(key) == KeyedPrompt(c, key) && Decrypt(c, key) == Pangram;
  }

  /** The records whose content does not depend on the key. */
  const WelcomeChallenge := Challenge(
    "\U{1F3AF} Welcome to the IRC CTF Challenge!\n"
    + "\U{1F50D} Your first challenge is a simple one:\n"
    + "What is the opposite of water?\n"
    + "\U{1F4A1} By your powers combined I am Captain Planet!",
    Solutions[0],
    "By your powers combined I am Captain Planet!",
    false)

  const BinaryChallenge := Challenge(
    "\U{1F3AF} Decoding Challenge\n"
    + "\U{1F50D} Decode:\n"
    + "01110000 01100001 01110010 01101001 01110011\n"
    + "\U{1F4A1} The city of lights holds many secrets...\n",
    Solutions[1],
    "The city of lights holds many secrets...",
    false)

  const CryptoChallenge := Challenge(
    "\U{1F3AF} Cryptographic Challenge\n"
    + "\U{1F50D} Decode this message:\n"
    + "V2hhdCBpcyB0aGUgbW9zdCBzZWNyZXQgcG9pbnQgaW4gdGhlIHdvcmxkPw==\n"
    + "\U{1F4A1} Sometimes the spoken point is hidden in plain thgis....\n",
    Solutions[2],
    "Sometimes the truth is hidden in plain thgis....",
    false)

  const TimedChallenge := Challenge(
    "\U{23F0} Time-Based Challenge\n"
    + "\U{1F50D} This challenge can only be solved at a specific time.\n"
    + "\U{1F4A1} The time is encoded in this riddle:\n"
    + "When the clock strikes 4:20,\n"
    + "The answer will be clear to see.\n"
    + "\U{1F3AE} Hint: The answer is a single word related to the time.",
    Solutions[3],
    "The answer lies in the smoke...",
    false)

  const StegoChallenge := Challenge(
    "\U{1F50D} Steganography Challenge\n"
    + "\U{1F50D} There's a hidden message in this text:\n\n"
    + StegoText + "\n\n"
    + "\U{1F4A1} Look for patterns in the text\n",
    Solutions[5],
    "In the beginning their was truth...",
    false)

  const FinalChallenge := Challenge(
    "\U{1F3AF} Final Challenge - The Ultimate Puzzle\n"
    + "\U{1F50D} Solve this puzzle:\n"
    + "1. Take the MD5 hash of 'irc_challenge_master'\n"
    + "2. Convert it to base64\n"
    + "3. Take the first 8 characters\n"
    + "4. Add 'ctf{' at the start and '}' at the end\n"
    + "5. Replace all 'a' with '4', 'e' with '3', 'i' with '1', 'o' with '0'\n",
    Solutions[6],
    "\U{1F4A1} The format should be: ctf{...}",
    false)

  /** The dictionary literal of `generate_challenges` around a given prompt for
      the cipher challenge; every other record is fixed. */
  function Assemble(cipherPrompt: string): (reg: Registry)
    ensures Ids(reg) == ChannelIds
    ensures forall i :: 0 <= i < |reg| ==> reg[i].1.solution == Solutions[i]
    ensures reg[4].1.challenge == cipherPrompt
  {
    [
      (Welcome, WelcomeChallenge),
      (Binary, BinaryChallenge),
      (Crypto, CryptoChallenge),
      (Timed, TimedChallenge),
      (Cipher, Challenge(cipherPrompt, Solutions[4], "The key to understanding is in the pattern...", false)),
      (Stego, StegoChallenge),
      (Final, FinalChallenge)
    ]
  }

  /** `generate_challenges` as written, given the random draws of its Vigenère
      key: seven fixed ids and solutions, and a cipher prompt that never shows
      the key it was built with. */
  function GenerateChallenges(draws: seq<nat>): (reg: Registry)
    requires ValidDraws(draws)
    ensures Ids(reg) == ChannelIds
    ensures forall i :: 0 <= i < |reg| ==> reg[i].1.solution == Solutions[i]
    ensures !DisclosesKey(reg[4].1.challenge)
  {
    var key := GenerateKey(draws);
    AsWrittenPromptHidesKey(key);
    Assemble(VigenerePromptAsWritten(key))
  }

  /** `generate_challenges` with the key interpolated into the cipher prompt, as
      evidently intended: the same registry except that this prompt discloses a
      key that decrypts its ciphertext to the solution. */
  function GenerateChallengesIntended(draws: seq<nat>): (reg: Registry)
    requires ValidDraws(draws)
    ensures Ids(reg) == ChannelIds
    ensures forall i :: 0 <= i < |reg| ==> reg[i].1.solution == Solutions[i]
    ensures forall i :: 0 <= i < |reg| && i != 4 ==> reg[i] == GenerateChallenges(draws)[i]
    ensures DisclosesKey(reg[4].1.challenge)
  {
    var key := GenerateKey(draws);
    VigenerePromptDisclosesKey(key);
    Assemble(VigenerePrompt(key))
  }

  /** The seven channel ids differ pairwise: each has its own digit. */
  lemma ChannelIdsDistinct()
    ensures forall i, j :: 0 <= i < j < |ChannelIds| ==> ChannelIds[i] != ChannelIds[j]
  {
    forall i, j | 0 <= i < j < |ChannelIds| ensures ChannelIds[i] != ChannelIds[j] {
      assert ChannelIds[i][11] != ChannelIds[j][11];
    }
  }

  /** The shipped ids are unique, so the registry is a well-formed dictionary. */
  lemma ShippedIdsDistinct(draws: seq<nat>)
    requires ValidDraws(draws)
    ensures DistinctIds(GenerateChallenges(draws))
  {
    var reg := GenerateChallenges(draws);
    ChannelIdsDistinct();
    forall i, j | 0 <= i < j < |reg| ensures reg[i].0 != reg[j].0 {
      assert Ids(reg)[i] == ChannelIds[i] && Ids(reg)[j] == ChannelIds[j];
    }
  }

  /** Two draws of the key give registries that differ at most in the prompt of
      the cipher challenge: same ids, order, solutions, hints and flags. */
  lemma KeyOnlyAffectsCipherPrompt(d1: seq<nat>, d2: seq<nat>)
    requires ValidDraws(d1) && ValidDraws(d2)
    ensures var r1, r2 := GenerateChallenges(d1), GenerateChallenges(d2);
      && |r1| == |r2|
      && forall i :: 0 <= i < |r1| ==>
        && r1[i].0 == r2[i].0
        && r1[i].1.solution == r2[i].1.solution
        && r1[i].1.hint == r2[i].1.hint
        && r1[i].1.timeCheck == r2[i].1.timeCheck
        && (r1[i].0 != Cipher ==> r1[i].1 == r2[i].1)
  {
  }

  /** The cipher challenge's solution is the plaintext whatever the key, in
      both registries; as written its prompt hides the key, as intended it
      discloses one that decrypts to the solution. */
  lemma CipherSolutionIsPlaintext(draws: seq<nat>)
    requires ValidDraws(draws)
    ensures var reg, fixed := GenerateChallenges(draws), GenerateChallengesIntended(draws);
      && reg[4].0 == Cipher && reg[4].1.solution == Pangram && !DisclosesKey(reg[4].1.challenge)
      && fixed[4].0 == Cipher && fixed[4].1.solution == Pangram && DisclosesKey(fixed[4].1.challenge)
  {
    var reg, fixed := GenerateChallenges(draws), GenerateChallengesIntended(draws);
    assert Ids(reg)[4] == Cipher && Ids(fixed)[4] == Cipher;
  }

  /** No shipped challenge sets `time_check`, so verification never depends on
      the clock — `#challenge-4-timed` included. */
  lemma ShippedVerifyIgnoresClock(draws: seq<nat>, id: string, input: string, c1: Clock, c2: Clock)
    requires ValidDraws(draws)
    ensures Verify(GenerateChallenges(draws), id, input, c1) == Verify(GenerateChallenges(draws), id, input, c2)
  {
    ShippedIdsDistinct(draws);
    var reg := GenerateChallenges(draws);
    if i :| 0 <= i < |reg| && reg[i].0 == id {
    } else {
      VerifyUnknownFails(reg, id, input, c1);
      VerifyUnknownFails(reg, id, input, c2);
    }
  }

  /** The process-wide registry that `refresh_challenges` rebinds. */
  datatype Game = Game(challenges: Registry)

  /** `refresh_challenges`: a new registry from fresh draws replaces the old
      one wholesale. */
  function RefreshChallenges(g: Game, draws: seq<nat>): (g': Game)
    requires ValidDraws(draws)
    ensures Ids(g'.challenges) == ChannelIds
  {
    Game(GenerateChallenges(draws))
  }

  /** Nothing of the previous registry survives a refresh, and refreshing from
      any shipped registry keeps every id, its position and its solution. */
  lemma RefreshIsWholesale(g: Game, d0: seq<nat>, draws: seq<nat>)
    requires ValidDraws(d0) && ValidDraws(draws)
    ensures var g1 := Game(GenerateChallenges(d0));
      && RefreshChallenges(g1, draws) == RefreshChallenges(g, draws)
      && Ids(RefreshChallenges(g1, draws).challenges) == Ids(g1.challenges)
      && forall i :: 0 <= i < |g1.challenges| ==>
        RefreshChallenges(g1, draws).challenges[i].1.solution == g1.challenges[i].1.solution
  {
    KeyOnlyAffectsCipherPrompt(d0, draws);
  }

  /** Verification expectations of tests/test_challenges.py, for every key
      draw and every clock reading. */
  lemma ShippedVerifyExpectations(draws: seq<nat>, clock: Clock)
    requires ValidDraws(draws)
    ensures var reg := GenerateChallenges(draws);
      && Verify(reg, Welcome, "fire", clock) && !Verify(reg, Welcome, "wrong", clock)
      && Verify(reg, Binary, "paris", clock) && !Verify(reg, Binary, "wrong", clock)
      && Verify(reg, Crypto, Solutions[2], clock) && !Verify(reg, Crypto, "wrong", clock)
  {
    var reg := GenerateChallenges(draws);
    ShippedIdsDistinct(draws);
    assert reg[0].0 == Welcome && reg[1].0 == Binary && reg[2].0 == Crypto;
    VerifyAcceptsSolution(reg, 0, [], [], clock);
    VerifyAcceptsSolution(reg, 1, [], [], clock);
    assert TrimStart(Solutions[2]) == Solutions[2];
    assert TrimEnd(Solutions[2]) == Solutions[2];
    VerifyAcceptsSolution(reg, 2, [], [], clock);
    assert |Strip(Lower("wrong"))| == 5;
  }

  /** Progression expectations of tests/test_challenges.py. */
  lemma ShippedNextExpectations(draws: seq<nat>)
    requires ValidDraws(draws)
    ensures var reg := GenerateChallenges(draws);
      && GetNextChannel(reg, Welcome) == Some(Binary)
      && GetNextChannel(reg, Binary) == Some(Crypto)
      && GetNextChannel(reg, Crypto) == Some(Timed)
      && GetNextChannel(reg, Timed) == Some(Cipher)
      && GetNextChannel(reg, Cipher) == Some(Stego)
      && GetNextChannel(reg, Stego) == Some(Final)
      && GetNextChannel(reg, Final) == None
  {
    var reg := GenerateChallenges(draws);
    ShippedIdsDistinct(draws);
    assert reg[0].0 == Welcome && reg[1].0 == Binary && reg[2].0 == Crypto && reg[3].0 == Timed;
    assert reg[4].0 == Cipher && reg[5].0 == Stego && reg[6].0 == Final;
  }

  /** Content expectation of tests/test_challenges.py: the first channel's
      prompt, solution and hint are all present. */
  lemma ShippedContentExpectation(draws: seq<nat>)
    requires ValidDraws(draws)
    ensures var r := GetChallenge(GenerateChallenges(draws), Welcome);
      r.0.Some? && r.1.Some? && r.2.Some?
  {
    ShippedIdsDistinct(draws);
    assert GenerateChallenges(draws)[0].0 == Welcome;
  }

  /** A correct answer to the timed challenge is accepted at 14:05: the shipped
      registry never sets the flag, despite the prompt's promise. */
  lemma TimedChallengeOpenAtAnyTime(draws: seq<nat>)
    requires ValidDraws(draws)
    ensures Verify(GenerateChallenges(draws), Timed, "blaze", Clock(14, 5))
  {
    var reg := GenerateChallenges(draws);
    ShippedIdsDistinct(draws);
    assert reg[3].0 == Timed;
    assert Strip(Lower("blaze")) == "blaze";
  }
}
