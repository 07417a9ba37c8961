# cypherctf-bot game logic in Dafny

A model of the game core of an IRC capture-the-flag bot. The bot keeps an
ordered registry of seven challenge channels, each holding a prompt, an
expected solution, a hint and an optional 4:20 time gate. A player answers
by private message or notice; the bot checks the answer against the
channels in registry order and acts on the first channel that accepts it.
It congratulates the player privately, points them at the next channel (or
sends the final congratulations) and kicks them from the solved channel.
Messages typed in a challenge channel are always told they are wrong.
Messages in the command channel `#ctf-game` answer `!start` and `!help`.
Topic setting is attempted at most three times per channel between the bot's
own joins.

Everything is pure. A handler is a function from its inputs to the list of
IRC client calls it makes (`Irc.Action`: private message, kick, topic),
together with the new topic counters where it changes them. The clock
(hour and minute) and the random draws for the Vigenère key are
parameters. So is which private message of the success branch raises,
since that branch catches the error and sends a fallback. `str.lower`, `str.strip` and
`str.isalpha` are modelled on ASCII only.

Modules, one file each: `Wrappers` (Option), `Ascii`, `Vigenere`,
`Registry` (the lookups of `challenges.py`), `Challenges` (the shipped
registry and its refresh), `Irc` (actions), `Progression` (one solution
attempt), `Topics` (the retry counter), `Routing` (command, channel-message,
private-message, notice and join handlers) and `Scenarios` (end-to-end runs).

The model follows the code as written, including where it surprises:
- the expected solution is lowercased but not stripped;
- an empty `current_channel` counts as no channel;
- a correct answer typed in a challenge channel is still rejected;
- the lobby `#CypherCon` tells players to type `!start`, but only
  `#ctf-game` messages are read as commands;
- the cipher prompt shows the literal text `{vigenere_key}` instead of the
  key (see Findings);
- no shipped challenge sets `time_check`, so `#challenge-4-timed` accepts
  `blaze` at any time (`Challenges.TimedChallengeOpenAtAnyTime`).

bot.py:7 imports the `CHALLENGES` dictionary by name. After
`refresh_challenges` rebinds it, the bot's own membership tests and key
loop (bot.py:95, 208, 240, 251) still read the old dictionary, while
`verify_solution` and the `get_*` lookups read the new one. The model gives
every handler one registry. This loses nothing, because every draw yields
the same ids in the same order (`Challenges.KeyOnlyAffectsCipherPrompt`).

## Model

| member | source | states |
|---|---|---|
| Ascii.Lower | challenges.py:164 | lowercasing keeps the length and folds each character on its own |
| Ascii.StripIsStrip | challenges.py:164 | `Strip` removes exactly a whitespace prefix and a whitespace suffix, and the result neither starts nor ends with whitespace |
| Ascii.StripIgnoresSurroundingWhitespace | challenges.py:164 | whitespace added around a string does not change what stripping returns |
| Ascii.LowerCommutesWithStrip | challenges.py:163-164 | lowering then stripping gives the same string as stripping then lowering |
| Vigenere.GenerateKey | challenges.py:10-12 | the generated key is exactly eight lowercase ASCII letters |
| Vigenere.EveryKeyIsDrawable | challenges.py:10-12 | every eight-letter lowercase key is produced by some random draw |
| Vigenere.Rotate | challenges.py:23-27 | the shifted character is a lowercase letter congruent, modulo 26, to the letter plus the shift |
| Vigenere.EncryptFrom | challenges.py:19-29 | the cipher loop from a position on: fails exactly when the key is empty and a letter remains; otherwise one output character per input character, each computed from its own absolute position |
| Vigenere.Encrypt | challenges.py:15-30 | fails (division by zero) exactly when the key is empty and the text has a letter; otherwise output length equals input length, non-letters pass through unchanged, and the letter at position i is shifted by key[i mod key length] modulo 26, counting every character |
| Vigenere.DecryptEncrypt | challenges.py:15-30 | with a non-empty key, decryption with the same key recovers the lowercased plaintext |
| Vigenere.EncryptKeepsLetterPositions | challenges.py:20-29 | output letters sit exactly where input letters were |
| Vigenere.EncryptIgnoresTextCase | challenges.py:20 | the plaintext's case does not affect the ciphertext |
| Vigenere.EncryptIgnoresKeyCase | challenges.py:18 | the key's case does not affect the ciphertext |
| Registry.Ids | challenges.py:175 | the key list has one entry per registry item, in insertion order |
| Registry.IndexOf | challenges.py:175-177 | returns the first position holding the id, and None exactly when no position holds it |
| Registry.ContainsIsMembership | challenges.py:143 | dictionary membership is membership of the key list |
| Registry.Lookup | challenges.py:143-146 | a record is found exactly for a known id, and it is the record stored under that id |
| Registry.GetChallenge | challenges.py:141-148 | a known id yields its stored prompt, solution and hint; an unknown id yields three Nones |
| Registry.Verify | challenges.py:151-170 | true only for a known id; for the record stored under the id, true exactly when its time gate allows the clock and its lowercased solution equals the stripped, lowercased answer |
| Registry.VerifyUnknownFails | challenges.py:151-170 | an id outside the registry is rejected whatever the answer |
| Registry.TimeGateRejectsAll | challenges.py:155-161 | a time-gated challenge rejects every answer unless the clock reads 4:20 |
| Registry.VerifyIgnoresWhitespaceAndCase | challenges.py:163-169 | surrounding whitespace and letter case in the answer never change the verdict |
| Registry.VerifyAcceptsSolution | challenges.py:163-169 | a stored solution with no surrounding whitespace, sent in any case and padded with whitespace, is accepted when the clock allows it |
| Registry.PaddedSolutionUnreachable | challenges.py:163-164 | a stored solution that starts or ends with whitespace can never be matched, since it is not stripped |
| Registry.GetNextChannel | challenges.py:173-182 | the id right after the given one in registry order; None for the last id and for an unknown id |
| Registry.WalkVisitsInOrder | challenges.py:173-182 | following the next channel from the first id visits every id in order, then stops |
| Challenges.AsWrittenPromptHidesKey | challenges.py:101-108 | as written, the cipher prompt never shows a usable key |
| Challenges.VigenerePromptDisclosesKey | challenges.py:101-108 | with the key shown, the prompt contains a key and a ciphertext that decrypts to the solution |
| Challenges.GenerateChallenges | challenges.py:53-134 | the registry as written has the seven channel ids in their fixed order, with the fixed solutions, and its cipher prompt never shows a usable key |
| Challenges.GenerateChallengesIntended | challenges.py:101-108 | with the key interpolated, the registry matches the as-written one on every record except the cipher prompt, and that prompt shows a key that decrypts its ciphertext to the solution |
| Challenges.ShippedIdsDistinct | challenges.py:58-134 | the seven ids are pairwise different |
| Challenges.KeyOnlyAffectsCipherPrompt | challenges.py:53-134 | two key draws give registries that agree on ids, order, solutions, hints and flags, and on every record except the cipher prompt |
| Challenges.CipherSolutionIsPlaintext | challenges.py:101-108 | whatever the key, the cipher challenge's solution is the plaintext; as written its prompt hides the key, and with the key interpolated it shows one that decrypts to the solution |
| Challenges.ShippedVerifyIgnoresClock | challenges.py:89-100 | with no `time_check` anywhere, the verdict on the shipped registry never depends on the clock |
| Challenges.TimedChallengeOpenAtAnyTime | challenges.py:89-100 | `blaze` solves `#challenge-4-timed` at 14:05 |
| Challenges.RefreshChallenges | challenges.py:185-188 | the refreshed registry carries the seven fixed ids in order |
| Challenges.RefreshIsWholesale | challenges.py:185-188 | the refreshed registry does not depend on the old one, and keeps every id, its position and its solution |
| Challenges.ShippedVerifyExpectations | tests/test_challenges.py:7-22 | the exact answers to the first three challenges pass and `wrong` fails, for every key and clock |
| Challenges.ShippedNextExpectations | tests/test_challenges.py:24-32 | the next channel of each id is the following one, and the last has none |
| Challenges.ShippedContentExpectation | tests/test_challenges.py:34-39 | the first channel's prompt, solution and hint are all present |
| Progression.SendSuccessMessages | bot.py:260-302 | every call is a private message to the solver; with a next channel, a congratulation comes first; the next channel's details follow unless the congratulation raised; a single fallback naming the next channel comes last exactly when a send raised; without one, only the final congratulations are sent |
| Progression.SuccessMessagesFollowRegistry | bot.py:263-283 | after solving the channel at position i, the player is pointed at position i+1 with its stored prompt, or gets the final message past the last position |
| Progression.SolvedActions | bot.py:244-257 | a solve emits exactly the success messages, each private to the solver, then exactly one kick, last, naming the solved channel and the solver |
| Progression.FirstMatchFrom | bot.py:251-258 | returns the first position whose challenge accepts the answer, or None when none does |
| Progression.HandleChallengeSolution | bot.py:235-258 | scoped: emits something exactly when its own channel accepts the answer, with no fallback to other channels; unscoped: emits nothing exactly when no channel accepts, otherwise the solve of the first accepting channel in registry order |
| Progression.UnscopedSolvesFirstMatch | bot.py:250-258 | an unscoped attempt yields exactly the solve of the first accepting channel |
| Progression.UnscopedEarliestWins | bot.py:251-258 | when two channels accept the same answer, the later one is not the one kicked from |
| Topics.SetChannelTopic | bot.py:73-87 | below three attempts, one topic call is made and the counter goes up by one; at three or more, no call and no change; other channels are untouched |
| Topics.HandleBotJoin | bot.py:127-140 | the bot's own join resets that channel's counter to zero; in the lobby it sends exactly one message, the greeting to `#CypherCon`, and elsewhere none; other joins change nothing |
| Topics.TopicCallsCapped | bot.py:75-87 | without a bot join, a channel gets as many topic calls as requested, capped by the attempts it has left, and its counter records each one |
| Topics.AtMostThreeTopicsPerJoin | bot.py:127-140 | after the bot joins a channel, that channel gets min(requests, 3) topic calls until the next join |
| Routing.HandleCommand | bot.py:167-190 | only `!start` or `!help` (any case) answer, each with a channel message then a private one; anything else makes no call |
| Routing.CommandIgnoresCase | bot.py:170 | a command in upper case acts like the lowercase command |
| Routing.CommandNotStripped | bot.py:170-181 | `!start` followed by whitespace is not a command |
| Routing.HandleChannelMsg | bot.py:192-217 | the bot's own messages and non-channel targets are ignored; the command channel routes to commands; a challenge channel always gets "not correct" plus private guidance; any other channel nothing |
| Routing.ChannelAnswersNeverSolve | bot.py:207-217 | outside the command channel, the reply does not depend on the text and never kicks |
| Routing.HandlePrivmsg | bot.py:219-225 | only messages addressed to the bot are attempts, and they are unscoped: no call when nothing matches, otherwise the solve of the first match |
| Routing.HandleNotice | bot.py:227-233 | a notice is handled exactly like a private message |
| Routing.PrivmsgHandlersDisjoint | bot.py:192-225 | when the bot's nick is not a channel name, at most one of the channel and private handlers acts on a message |
| Routing.HandleJoin | bot.py:89-125 | in a challenge channel or the lobby, the topic request comes first and advances that channel's topic counter as a topic request does; then the same welcome goes to the channel and to the joiner, carrying the channel's stored prompt or, in the lobby, the lobby welcome; elsewhere nothing happens and no counter moves |
| Scenarios.FireSolvesWelcome | bot.py:219-290 | `FIRE` sent privately yields a congratulation, the second channel's details with its prompt, and a kick from the first channel |
| Scenarios.ParisSolvesBinary | bot.py:250-258 | `paris` sent privately solves `#challenge-2-binary` |
| Scenarios.FinalSolveCongratulates | bot.py:291-302 | solving the last challenge sends only the final congratulations, then the kick |
| Scenarios.WrongAnswerIsIgnored | bot.py:250-258 | an answer no challenge accepts makes no call |

## Left out

- The irc3 connection, its event decorators and `main`'s configuration (bot.py:1-22, bot.py:304-329): library plumbing.
- `join_channels`, `rejoin_channel`, `handle_kick` and `handle_part` (bot.py:57-71, bot.py:142-165): they only schedule joins after delays.
- The NickServ handshake, `server_ready` and `handle_nickserv` (bot.py:24-55): free-text reactions to an external service.
- Logging and `print`: no effect on the calls made.
- The relative order of `handle_join` and `handle_bot_join` on the same JOIN event: irc3 decides it. Each is modelled on its own.
- Exceptions from `bot.kick`: the kick is the last call of an attempt, so the trace is unchanged.
- Exceptions from sending the fallback or final message: bot.py:289 and bot.py:301 catch them and the kick still follows, so the attempted send stays in the trace and nothing changes.
- Routing.HandleCommand, Routing.HandleChannelMsg and Routing.HandleJoin: always emit both private messages. If the first `privmsg` raises (bot.py:175-176, bot.py:183-184, bot.py:210-212, bot.py:108-110, bot.py:123-125), nothing catches it, so the second is never sent. The model treats these sends as always succeeding.
- `test_bot.py`: it names channels and message texts that do not exist in the code.
- `setup.py`: packaging metadata.
- The emoji at the head of the prompt lines in challenges.py are stored mis-encoded, so their code points cannot be read back exactly. The prompts here use the evident emoji. No contract depends on them.
- Ascii.Lower: folds ASCII letters only. Python's `str.lower` also folds non-ASCII letters and can change a string's length.
- Ascii.StripIsStrip: strips ASCII whitespace only. Python's `str.strip` also strips non-ASCII whitespace.
- Vigenere.Encrypt: treats non-ASCII characters as non-letters. Python's `isalpha` accepts non-ASCII letters and would shift them by their code point.
- Topics.HandleBotJoin: always resets the counter. In bot.py:133-140 the lobby greeting is sent before the reset and nothing catches a raise from it, so a failed greeting leaves `#CypherCon`'s counter where it was. The model treats this send as always succeeding.
- Progression.HandleChallengeSolution: reads the clock once per attempt. `verify_solution` calls `datetime.now()` once per time-gated channel tried. Because no shipped challenge is time-gated, the two cannot differ on the shipped registry.

## Findings

| source | as written | input that shows it | evidently intended | confidence | as-written member | corrected member |
|---|---|---|---|---|---|---|
| challenges.py:106 | the key line is a plain string, not an f-string, so the prompt shows the literal text `{vigenere_key}` and never the key | any key draw, e.g. eight zero draws (key `aaaaaaaa`): the prompt ends in `{vigenere_key}` and a newline | the drawn key interpolated into the line, as on line 105 | high; not executed | Challenges.GenerateChallenges | Challenges.GenerateChallengesIntended |

`Challenges.GenerateChallenges` follows the code: it builds the cipher record
from `Challenges.VigenerePromptAsWritten`, and `Challenges.AsWrittenPromptHidesKey`
shows that no key draw makes this prompt disclose a key. The rest of the model
(lookups, success messages, welcomes, scenarios) runs on this registry.
`Challenges.GenerateChallengesIntended` is the same registry built from the
corrected `Challenges.VigenerePrompt`, and `Challenges.VigenerePromptDisclosesKey`
proves that its prompt shows a key that decrypts the ciphertext to the solution.
