# TulipGardener game round, in Dafny

A model of the game round of TulipGardener, a browser quiz in which a
signed-in player is shown a "heart" arithmetic puzzle, types the puzzle's
numeric solution, and earns a point for a correct answer, optionally against a
countdown. The model covers:

- `GameController` (`js/controllers/GameController.js`) as the class
  `Game.GameController`: the mode and its default, the time budget `init`
  sets, loading the puzzle (its outcome is an input), the countdown's
  interval callback (one `Tick` per period), and `checkAnswer` with its
  classification of the input and its score call. The interval handle
  `timerInterval` is two booleans: `timerSet` (a handle was stored; the code
  never resets it) and `timerRunning` (the interval has not been cleared).
  Browser effects (alerts, `clearInterval`, the call to `incrementScore`,
  the celebration) are appended to a ghost log `effects`, so that their
  order can be stated: the puzzle is loaded before the countdown starts, and
  the countdown is cleared before the score is incremented.
- JavaScript's `parseInt` with no radix, as `checkAnswer` calls it, in
  module `JsParseInt`: ECMAScript white space is skipped, one `+` or `-` is
  read, a `0x`/`0X` prefix selects base 16, the longest run of digits is
  read and the rest ignored; no digit is `NaN` (`None`).
- `UserService.incrementScore` (`js/services/UserService.js`) as the pure
  function `UserService.IncrementScore`: what `getProfile` produced and
  whether the row update succeeded are inputs; the result is the row update
  it sends and what it resolves or rejects with. The row `signUp` inserts is
  `UserService.NewProfile`. Stored rows keep `bestRecord >= score`.
- Module `Scenarios` drives whole rounds through the controller's contracts.

Behaviours of the code that the model keeps:

- Modes are arbitrary strings. A mode other than `beginner`,
  `intermediate` and `pro` keeps `timeLeft` at 0 but still starts the
  countdown (`mode !== 'beginner'`), which runs out on its first tick.
- The countdown ends when the decremented time is `<= 0`, not only when it
  reaches 0.
- A puzzle response without a numeric `solution` is not an error: the
  `undefined` solution is stored and every answer is then wrong
  (`Puzzle.solution` is `None`). A failed load alerts and leaves the old
  solution in place; the countdown still starts.
- `incrementScore` has three failure paths, not two: no signed-in user
  ("No profile found"), a failed profile query (for example no row), and a
  failed update.
- Nothing guards against a second correct submission; each one calls
  `incrementScore` again.
- `-0` from `parseInt("-0")` is the integer 0 here, which is faithful
  because `-0 === 0` in JavaScript.

## Model

| member | source | states |
|---|---|---|
| `Game.DefaultMode` | js/controllers/GameController.js:14 | a missing or empty mode becomes `beginner`; any other mode string is kept |
| `Game.ModeTime` | js/controllers/GameController.js:25-29 | `intermediate` gives 30 seconds, `pro` gives 10; every other mode leaves `timeLeft` untouched |
| `Game.StartsTimer` | js/controllers/GameController.js:35 | the countdown is started for every mode except `beginner` (`mode !== 'beginner'`); `Init`'s contract states the consequence |
| `Game.Run` | js/controllers/GameController.js:61-69 | the interval firing `k` times, counting expiries; its contract is carried by `CountdownFrom`, `ExpiresOnFirstTick` and `StoppedClockIsFrozen` |
| `Game.TickOnce` | js/controllers/GameController.js:61-68 | a live interval decrements `timeLeft` by exactly 1 and is cleared exactly when the result is `<= 0`; a cleared interval does nothing |
| `Game.StoppedClockIsFrozen` | js/controllers/GameController.js:61-68 | any number of periods of a cleared or never-started interval change nothing and expire nothing |
| `Game.CountdownFrom` | js/controllers/GameController.js:61-68 | from `t >= 1` seconds, fewer than `t` ticks leave `t - k` running with no expiry; `t` or more ticks give exactly one expiry and a cleared interval at 0 |
| `Game.ExpiresOnFirstTick` | js/controllers/GameController.js:26-36 | a countdown started at 0 or below (an unknown mode) expires on its first tick, exactly once |
| `Game.Classify` | js/controllers/GameController.js:88-96 | `null` or empty input is ignored; input whose parseInt is NaN is invalid; a number is correct iff it equals the current solution, so never when no solution is loaded |
| `Game.CelebrationScore` | js/controllers/GameController.js:102-106 | the celebrated number: `result.score` when the increment resolves, 0 when it rejects; its contract is carried by `CelebratedScore` |
| `Game.CelebratedScore` | js/controllers/GameController.js:101-107 | the celebration shows the old score plus one when the profile was read and written, and 0 on every failure |
| `Game.RenderedSolutionWins` | js/controllers/GameController.js:90-96 | the decimal text of the solution, padded by white space and followed by non-digit text, is classified correct |
| `Game.RenderedOtherLoses` | js/controllers/GameController.js:96-111 | the decimal text of any number other than the solution, or any number when no solution is loaded, is classified wrong |
| `Game.DigitlessIsInvalid` | js/controllers/GameController.js:90-94 | non-empty input without a decimal digit is invalid |
| `Game.GameController.constructor` | js/controllers/GameController.js:13-18 | mode defaulted, no solution, `timeLeft` 0, no interval, nothing logged |
| `Game.GameController.LoadPuzzle` | js/controllers/GameController.js:43-54 | a fetched puzzle replaces the solution and is shown; a failed fetch alerts and leaves the solution unchanged; nothing else changes |
| `Game.GameController.StartTimer` | js/controllers/GameController.js:59-61 | the interval is armed and its handle stored |
| `Game.GameController.Init` | js/controllers/GameController.js:23-38 | the time budget of the mode, then the load effects, then the countdown start iff the mode is not beginner, even after a failed load |
| `Game.GameController.Tick` | js/controllers/GameController.js:61-69 | the fields follow `TickOnce`; expiry clears the interval and alerts; a beginner round never ticks |
| `Game.GameController.CheckAnswer` | js/controllers/GameController.js:87-112 | the verdict is `Classify` of the input and the current solution; a win clears the interval before the one score call and then celebrates with the returned score or 0; other verdicts leave the countdown and score alone and raise their alert |
| `JsParseInt.ParseInt` | js/controllers/GameController.js:90-91 | `parseInt(userAnswer)` with no radix: white space, sign, `0x` prefix, longest digit run, NaN without digits; its contract is carried by `LeadingWhiteSpaceIgnored`, `MinusNegates`, `PlusIgnored`, `HexPrefixRead`, `DecimalRunRead`, `NaNWithoutLeadingDigit`, `NaNWithoutDigits` and `ParseRendered` |
| `JsParseInt.LeadingSpacesExact` | js/controllers/GameController.js:90 | parseInt's leading white space: the skipped prefix is all white space and the next character, if any, is not |
| `JsParseInt.DigitRunExact` | js/controllers/GameController.js:90 | the digit run parseInt reads holds only digits of the base and ends at a non-digit or at the end of the text |
| `JsParseInt.LeadingSpacesOf` | js/controllers/GameController.js:90 | white space before text that starts with a non-space is skipped exactly |
| `JsParseInt.LeadingSpacesPadded` | js/controllers/GameController.js:90 | extra leading white space is skipped together with the text's own |
| `JsParseInt.DigitRunStops` | js/controllers/GameController.js:90 | a digit run stops exactly at the first non-digit |
| `JsParseInt.DecimalDigitsValue` | js/controllers/GameController.js:90 | the digits of a natural number, read back in base 10, give that number |
| `JsParseInt.ParseDecimalDigits` | js/controllers/GameController.js:90 | the unsigned digits of a number followed by non-digit text parse back to that number |
| `JsParseInt.ParseSignedRendered` | js/controllers/GameController.js:90 | the signed decimal text of an integer followed by non-digit text parses back to that integer |
| `JsParseInt.ParseRendered` | js/controllers/GameController.js:90 | round trip: white space, then the decimal text of any integer, then text that does not continue it, parses to that integer |
| `JsParseInt.ParseRenderedExactly` | js/controllers/GameController.js:90 | the decimal text of any integer parses to that integer |
| `JsParseInt.NaNWithoutDigits` | js/controllers/GameController.js:90-91 | text with no decimal digit is NaN |
| `JsParseInt.LeadingWhiteSpaceIgnored` | js/controllers/GameController.js:90 | leading white space never changes the value |
| `JsParseInt.MinusNegates` | js/controllers/GameController.js:90 | a `-` in front of unpadded, unsigned text negates its value and keeps NaN as NaN |
| `JsParseInt.PlusIgnored` | js/controllers/GameController.js:90 | a `+` in front of unpadded, unsigned text is skipped: `"+7"` reads as `"7"` |
| `JsParseInt.DecimalRunRead` | js/controllers/GameController.js:90 | any decimal digit run, leading zeros included (`"007"`, `"0012abc"`), reads as the number it denotes up to the first non-digit |
| `JsParseInt.NaNWithoutLeadingDigit` | js/controllers/GameController.js:90-91 | unpadded text whose sign, if any, is not followed by a decimal digit is NaN (`".5"`, `"a5"`, `"- 5"`, `"+-5"`) |
| `JsParseInt.HexPrefixRead` | js/controllers/GameController.js:90 | a `0x`/`0X` prefix reads the hex digits after it up to the first non-hex character; with none it is NaN |
| `JsParseInt.ParseIntCutsTail` | js/controllers/GameController.js:90 | `" -12abc"` parses to -12 |
| `JsParseInt.ParseIntCutsFraction` | js/controllers/GameController.js:90 | `"3.9"` parses to 3 |
| `JsParseInt.ParseIntNaNAndHex` | js/controllers/GameController.js:90-91 | `"+"` and `"0x"` are NaN and `"0x1A"` is 26 |
| `UserService.NewProfile` | js/services/UserService.js:30-38 | a new row starts with score 0 and best record 0, which is consistent |
| `UserService.Bumped` | js/services/UserService.js:86-87 | the new score is the old plus one; the new best is at least the new score and the old best, and equals one of them |
| `UserService.IncrementScore` | js/services/UserService.js:82-96 | no signed-in user rejects with "No profile found" and a failed read rejects, both without writing; otherwise the bumped row is sent; it resolves iff the write succeeds, with exactly the values written |
| `UserService.IncrementKeepsInvariant` | js/services/UserService.js:86-95 | every written row and every resolved record has best record at least the score, and the best record never drops |
| `UserService.RepeatedIncrements` | js/services/UserService.js:86-87 | `k` increments of a consistent row add `k` to the score, keep the invariant, and give best record max(old best, new score) |
| `UserService.NewUserAfterIncrements` | js/services/UserService.js:36-37 | a new user after `k` increments has score and best record both `k` |
| `UserService.IncrementExamples` | js/services/UserService.js:86-95 | {4, 4} becomes {5, 5}; {2, 9} becomes {3, 9} |
| `Scenarios.ProRound` | js/controllers/GameController.js:23-112 | a pro round: "seven" invalid, "3" wrong, six ticks leave 4 seconds, "7" wins with score 5, and a later tick does nothing |
| `Scenarios.UnknownModeRound` | js/controllers/GameController.js:25-37 | an unknown mode has budget 0, expires on the first tick, and is silent after |
| `Scenarios.FailedBeginnerRound` | js/controllers/GameController.js:32-53 | a beginner round with a failed load: one tick does nothing, and "0" is wrong with no celebration |
| `Scenarios.RepeatedWin` | js/controllers/GameController.js:96-107 | repeated correct submissions each increment the score, and a failed update celebrates with 0 |

## Left out

- DOM, navigation and console logging: `console.error` on a failed load
  and on a failed score update, `updateTimerDisplay`, the image `src`, clearing the
  input field, the celebration overlay, the 4-second redirect and
  `location.reload` after expiry are not modelled beyond the effect log.
- Real time and the event loop: the interval is a stream of `Tick` calls;
  interleavings at the `await` points (an answer submitted while the puzzle
  is still loading or while the score call is pending) are not modelled.
- Game.GameController.Init: calling `init` twice would arm a second
  interval in the browser; the model has a single countdown.
- JsParseInt.ParseInt: values are unbounded integers; JavaScript rounds
  parsed numbers above 2^53 to the nearest double, which is not modelled.
- `HeartApiService.getPuzzle` (a `fetch` and a field rename) is not part of
  this model: its outcome is the `fetched` input of `LoadPuzzle` and `Init`.
- `getProfile`, the row update, `signUp`, `signIn`, `signOut`,
  `getCurrentUser` and the avatar URL are Supabase and library calls; only
  their outcomes (`ProfileRead`, `writeSucceeds`) and the initial row values
  are modelled.
- `AuthController` and `supabaseClient` are not part of this model: they
  only forward to Supabase and redirect.
