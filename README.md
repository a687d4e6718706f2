# Typing test session, modelled in Dafny

A model of the timed typing-speed test in `src/components/typing.tsx`: a prompt of random
words that grows while the user types, a 60-second countdown, and the words-per-minute and
accuracy scores computed when the countdown ends. The React component is modelled as a
state machine over its six pieces of state (`text`, `userInput`, `startTime`, `timeLeft`,
`isActive`, `results`), each handler one atomic transition.

Modules, one per concern of the component:

- `Wrappers` (`wrappers.dfy`): the `Option` type for the nullable start timestamp.
- `TextGenerator` (`text_generator.dfy`): `generateText` — draws of `Math.random()` turned
  into word indices, the chosen words joined by single spaces, and `split(" ")` as its inverse.
- `Scoring` (`scoring.dfy`): `calculateAccuracy` (a loop with a counter, proved against the
  counting function `CountBelow`), `Math.round`, and the words-per-minute formula of `endTest`.
- `Render` (`render.dfy`): the colour class given to each prompt character.
- `Session` (`session.dfy`): the transitions as functions on a `Snapshot` of the state
  (`AfterStart`, `AfterAutoStart`, `AfterInput`, `AfterKey`, `AfterTick`, `AfterEnd`), the
  invariant `Consistent` and the phase `PhaseOf` (not started, active, ended), lemmas about
  them, and the class `TypingTest`, whose methods update its fields in place and are proved
  to do exactly what the transition functions say.

Abstractions:

- Randomness: every handler that calls `generateText` takes the values `Math.random()` would
  return, as reals in [0, 1); the word list is a constructor argument that must be non-empty.
- Time: `Date.now()` is an integer millisecond parameter (`now`) of the handlers that read it.
- Numbers: scores are `Metric = Finite(int) | NotFinite`, where `NotFinite` stands for the
  NaN or Infinity that a division by zero produces. `Math.round(n / d)` with `d > 0` is
  `(2n + d) / (2d)` in integer arithmetic (round half up, also for negative quotients).
  Quotients are exact; the floating-point error of the original is not modelled.
- Truthiness: `endTest` tests `if (startTime)`, so a start time of 0 counts as unset (`Started`).

## Model

| member | source | states |
|---|---|---|
| `TextGenerator.PickIndex` | src/components/typing.tsx:11 | the index `Math.floor(draw * words.length)` lies in `[0, words.length)` for every draw in [0, 1) |
| `TextGenerator.ScaleBelow` | src/components/typing.tsx:11 | a draw in [0, 1) times a positive word count lies in [0, count) |
| `TextGenerator.Chosen` | src/components/typing.tsx:9-11 | one word per draw, every one of them an entry of the word list |
| `TextGenerator.Join` | src/components/typing.tsx:12 | `join(" ")` is empty for no words and otherwise has the words' characters plus exactly one separator between neighbours |
| `TextGenerator.GenerateText` | src/components/typing.tsx:8-13 | a prompt of n words is empty for n = 0 and has at least n - 1 characters (the separators) |
| `TextGenerator.SplitJoin` | src/components/typing.tsx:12 | splitting on spaces undoes the join of a non-empty list of space-free words |
| `TextGenerator.GeneratedWords` | src/components/typing.tsx:8-13 | a generated prompt over space-free words splits back into exactly the chosen words: n of them, each from the list, in draw order |
| `Scoring.RoundHalfUp` | src/components/typing.tsx:97 | `Math.round(num / den)` is the nearest integer, an exact half rounded up |
| `Scoring.RoundHalfUpBounds` | src/components/typing.tsx:97 | rounding keeps a quotient at or below k at or below k, and at or above k at or above k |
| `Scoring.CountBelow` | src/components/typing.tsx:91-96 | the correct-keystroke count over positions below n is at most n and at most the input length |
| `Scoring.CountBelowIsCardinality` | src/components/typing.tsx:92-95 | that count is the size of the set of positions below n where input and prompt agree |
| `Scoring.MatchCountCountsPositions` | src/components/typing.tsx:90-96 | the count over the whole input is exactly the number of positions i < input length with `typed[i] == original[i]`, positions past the prompt never counting, hence at most the input length |
| `Scoring.CountBelowSaturates` | src/components/typing.tsx:93 | positions past the end of the input or of the prompt add nothing to the count |
| `Scoring.Accuracy` | src/components/typing.tsx:97 | the accuracy is a finite number exactly when something was typed (NaN otherwise) and then lies in [0, 100] |
| `Scoring.CalculateAccuracy` | src/components/typing.tsx:90-98 | the counting loop returns exactly `Accuracy(original, typed)` |
| `Scoring.PerfectTypingScoresFull` | src/components/typing.tsx:90-98 | an input that copies the start of the prompt has every keystroke correct and scores 100 |
| `Scoring.AllMatchBelow` | src/components/typing.tsx:93-94 | where input and prompt agree on the first n characters, all n keystrokes count |
| `Scoring.Wpm` | src/components/typing.tsx:38-40 | words per minute is finite exactly when time has elapsed, and is then the nearest integer to characters × 12000 / elapsed milliseconds (non-negative for a forward clock) |
| `Scoring.ScoringExample` | src/components/typing.tsx:37-43 | prompt "the quick brown fox", input "the quick broen", 30 s: 14 correct keystrokes, accuracy 93, 6 words per minute |
| `Render.Colours` | src/components/typing.tsx:121-133 | one colour per prompt character: green exactly where the input has the same character, red where it has another, grey past the end of the input |
| `Render.GreenCountIsMatchCount` | src/components/typing.tsx:124-127 | the number of green characters equals the correct-keystroke count of the accuracy score, for any prompt and input lengths |
| `Render.GreenBelow` | src/components/typing.tsx:124-126 | below any n within the prompt, green characters and correct keystrokes agree in number |
| `Render.GrayBelow` | src/components/typing.tsx:124-128 | the grey characters are exactly the prompt characters past the end of the input |
| `Session.StartResets` | src/components/typing.tsx:26-33 | `startTest` leaves a not-started, consistent session with empty input, full clock and zero results, whose prompt splits into exactly the 10 drawn words |
| `Session.AutoStartOnce` | src/components/typing.tsx:64-69 | the auto-start effect starts a not-started session at `now`, leaves any other state unchanged, and is idempotent |
| `Session.InputExtendsPrompt` | src/components/typing.tsx:70-82 | input handling keeps the invariant, sets the input to the new value on an enabled field and changes nothing on a disabled one; the prompt never shrinks and grows (by at least 5 characters) exactly when the value's length reaches the prompt length minus 20 |
| `Session.FirstKeystrokeStarts` | src/components/typing.tsx:72-75 | a not-started session becomes active on an input exactly when the field is enabled and the value has one character, with the start time of that keystroke; a started session keeps its phase and start time |
| `Session.StartTimeCapturedOnce` | src/components/typing.tsx:64-75 | auto-start and first keystroke in either order leave an active session whose start time is the one captured first |
| `Session.KeystrokesNeverDelete` | src/components/typing.tsx:84-88 | with Backspace's default prevented, a key pressed at the end of the input never removes a character, and Backspace changes nothing |
| `Session.EndScores` | src/components/typing.tsx:35-45 | `endTest` deactivates and changes nothing but `isActive` and `results`; an unstarted session keeps its results; a started one gets the elapsed-time words per minute and an accuracy that is NaN for empty input and in [0, 100] otherwise; a repeat at the same time is a no-op |
| `Session.TickCountsDown` | src/components/typing.tsx:50-59 | a tick keeps the invariant (clock in [0, 60]), takes exactly one second off an active session and does nothing otherwise; the session ends, and is scored, exactly at the tick that takes the clock from 1 to 0 |
| `Session.IdleTicks` | src/components/typing.tsx:50 | ticks change nothing in a session that is not active |
| `Session.CountdownEndsOnce` | src/components/typing.tsx:47-63 | an active session with k seconds left stays active for k - 1 ticks, losing one second each, ends at the k-th tick scored at that tick's time, and stays unchanged afterwards |
| `Session.TypingTest.constructor` | src/components/typing.tsx:17-22 | the component's initial state: empty prompt and input, no start time, 60 s, inactive, zero results |
| `Session.TypingTest.StartTest` | src/components/typing.tsx:26-33 | the fields become exactly `AfterStart(words, draws)` and the invariant holds |
| `Session.TypingTest.AutoStart` | src/components/typing.tsx:64-69 | the fields become `AfterAutoStart` of the old state |
| `Session.TypingTest.HandleInputChange` | src/components/typing.tsx:70-82 | the fields become `AfterInput` of the old state; the result says whether the field was enabled |
| `Session.TypingTest.KeyPress` | src/components/typing.tsx:84-88 | prevents the default exactly for "Backspace", the fields become `AfterKey` of the old state, and the old input is a prefix of the new |
| `Session.TypingTest.EndTest` | src/components/typing.tsx:35-45 | called, as the timer effect calls it, on a started session whose clock is at 0: the fields become `AfterEnd` of the old state, accuracy computed by the counting loop, and the invariant holds afterwards |
| `Session.TypingTest.Tick` | src/components/typing.tsx:50-59 | the fields become `AfterTick` of the old state, the invariant holds, and the result says whether this tick ended the session |

## Left out

- React machinery: `useState` batching, effect scheduling and dependency arrays, stale closures.
  Each handler is one atomic transition. On mount the auto-start effect and the `startTest`
  effect run in the same batch and `startTest`'s updates win, so the session in practice
  waits for the first keystroke; the model offers both transitions and does not fix their order.
- The timer effect also runs again when `endTest` switches `isActive` off with the clock at 0,
  so `endTest` runs a second time at a slightly later clock. The model has one end per
  countdown; `Session.EndScores` shows that a repeat at the same time changes nothing, and a
  repeat at a later time only recomputes words per minute.
- `setInterval` / `clearInterval` and real timing: a tick is an explicit `Tick` call.
- The SVG progress value (`strokeDashoffset`), input focusing, the JSX markup, styling, the
  background image and the retry link (retry is `StartTest`).
- `Math.random` and the contents of `@/lib/wordsDB`, which is not part of this model: replaced
  by draws passed in and a word list given to the constructor.
- Floating-point arithmetic of the scores: quotients are exact rationals here. Where the exact
  percentage is a half, the program's double product can fall just below it and round down: for
  23 correct keystrokes out of 40, `(23 / 40) * 100` is 57.49999999999999 in doubles, so the
  program shows 57 where `Scoring.Accuracy` gives 58.
- Strings are sequences of Unicode characters, not UTF-16 code units.
- Browser editing other than a key pressed with the caret at the end of the input (moving the
  caret, Delete before the end, selecting, cutting, pasting): `HandleInputChange` accepts any
  new value, and the code prevents only "Backspace", so such edits can shorten the input.

## Notes on the code

- Empty input at the end: `calculateAccuracy` divides the count by `typed.length`
  (src/components/typing.tsx:97), so a session ended with nothing typed shows NaN accuracy.
  `Scoring.Accuracy` is `NotFinite` then.
- Deletion: `handleKeyDown` prevents the default action of the Backspace key only
  (src/components/typing.tsx:84-88). Input typed at the end of the field therefore only grows
  (`Session.KeystrokesNeverDelete`), but other edits, such as selecting, cutting or pasting over
  text, reach `handleInputChange` with a shorter value, which it accepts.
- Prompt growth: each change event whose value is within 20 characters of the prompt's end adds
  five words, that is at least 5 characters (src/components/typing.tsx:79-80,
  `Session.InputExtendsPrompt`). A single change event that adds more than that, such as a long
  paste, can leave the input longer than the prompt.
