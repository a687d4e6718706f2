/**
 * The typing-test session: prompt, input, start timestamp, seconds left, activity flag
 * and results, changed by the component's handlers.
 *
 * Each handler is one atomic transition. The transitions are stated as functions on a
 * Snapshot of the six fields (AfterStart, AfterAutoStart, AfterInput, AfterKey, AfterTick,
 * AfterEnd); the lemmas below prove what the session promises about them, and the class
 * TypingTest updates its fields in place exactly as those functions say.
 *
 * Timestamps are integer milliseconds (the value of Date.now()), passed in by the caller;
 * the random draws a handler makes are passed in as well.
 */
module Session {
  import opened Wrappers
  import opened Scoring
  import opened TextGenerator

  /** Length of a session in seconds. */
  const Duration: int := 60
  /** The prompt is extended once the input comes within this many characters of its end. */
  const Lookahead: int := 20
  /** Words in a fresh prompt. */
  const PromptWords: nat := 10
  /** Words added by one extension of the prompt. */
  const ExtensionWords: nat := 5

  datatype Results = Results(wpm: Metric, accuracy: Metric)

  const NoResults := Results(Finite(0), Finite(0))

  datatype Snapshot = Snapshot(
    text: string,
    userInput: string,
    startTime: Option<int>,
    timeLeft: int,
    isActive: bool,
    results: Results)

  datatype Phase = NotStarted | Active | Ended

  function PhaseOf(s: Snapshot): Phase
  {
    if s.isActive then Active
    else if s.startTime.None? then NotStarted
    else Ended
  }

  /**
   * The states the handlers can reach: the clock stays within [0, Duration]; a session
   * that has not started has a full clock; an active one has time left; an inactive
   * one that has started has run out of time; results stay zero until the clock hits 0.
   */
  predicate Consistent(s: Snapshot)
  {
    && 0 <= s.timeLeft <= Duration
    && (s.startTime.None? ==> !s.isActive && s.timeLeft == Duration)
    && (s.isActive ==> s.timeLeft > 0)
    && (!s.isActive && s.startTime.Some? ==> s.timeLeft == 0)
    && (s.timeLeft > 0 ==> s.results == NoResults)
  }

  /** The state before any handler has run: the initial values of the component's state. */
  const Initial := Snapshot([], [], None, Duration, false, NoResults)

  /** JavaScript truthiness of the start timestamp: null and 0 are both false. */
  predicate Started(startTime: Option<int>)
  {
    startTime.Some? && startTime.value != 0
  }

  /** startTest: a fresh prompt of PromptWords words, everything else reset. */
  function AfterStart(words: seq<string>, draws: seq<real>): Snapshot
    requires |words| > 0 && |draws| == PromptWords && DrawsValid(draws)
  {
    Snapshot(GenerateText(words, draws), [], None, Duration, false, NoResults)
  }

  /** The auto-start effect: starts the clock if the session is neither active nor started. */
  function AfterAutoStart(s: Snapshot, now: int): Snapshot
  {
    if !s.isActive && s.startTime.None? then s.(startTime := Some(now), isActive := true)
    else s
  }

  /** The input field is enabled only while there is a prompt and time is left. */
  predicate InputAccepted(s: Snapshot)
  {
    s.text != [] && s.timeLeft != 0
  }

  /**
   * handleInputChange: the first character starts an inactive session, the input takes
   * the new value, and the prompt grows by ExtensionWords words when the input has come
   * within Lookahead characters of its end.
   */
  function AfterInput(words: seq<string>, s: Snapshot, value: string, now: int, draws: seq<real>): Snapshot
    requires |words| > 0 && |draws| == ExtensionWords && DrawsValid(draws)
  {
    if !InputAccepted(s) then s
    else
      var activated :=
        if !s.isActive && |value| == 1 then s.(isActive := true, startTime := Some(now)) else s;
      var typed := activated.(userInput := value);
      if |value| >= |s.text| - Lookahead then typed.(text := s.text + " " + GenerateText(words, draws))
      else typed
  }

  /** handleKeyDown: the default action of "Backspace" is prevented, every other key keeps it. */
  predicate DefaultPrevented(key: string)
  {
    key == "Backspace"
  }

  /**
   * The default action of the text field for a key pressed with the caret at the end of
   * the input: a one-character key is appended, "Backspace" removes the last character,
   * other keys (Enter, Delete, Shift, ...) leave the value as it is.
   */
  function DefaultEdit(value: string, key: string): string
  {
    if |key| == 1 then value + key
    else if key == "Backspace" && value != [] then value[..|value| - 1]
    else value
  }

  /** A key press: handleKeyDown, then the default action, then the change event if the value changed. */
  function AfterKey(words: seq<string>, s: Snapshot, key: string, now: int, draws: seq<real>): Snapshot
    requires |words| > 0 && |draws| == ExtensionWords && DrawsValid(draws)
  {
    if DefaultPrevented(key) then s
    else
      var value := DefaultEdit(s.userInput, key);
      if value == s.userInput then s else AfterInput(words, s, value, now, draws)
  }

  /**
   * endTest: the session stops; if it was started, the results are the words per minute
   * over the time since the start and the accuracy of the input against the prompt.
   */
  function AfterEnd(s: Snapshot, now: int): Snapshot
  {
    var results :=
      if Started(s.startTime) then
        Results(Wpm(|s.userInput|, now - s.startTime.value), Accuracy(s.text, s.userInput))
      else s.results;
    s.(isActive := false, results := results)
  }

  /**
   * One second of the timer: while the session is active with time left, the clock goes
   * down by one, and the timer effect ends the session when it has reached 0.
   */
  function AfterTick(s: Snapshot, now: int): Snapshot
  {
    if s.isActive && s.timeLeft > 0 then
      var t := s.(timeLeft := s.timeLeft - 1);
      if t.timeLeft == 0 then AfterEnd(t, now) else t
    else s
  }

  /** A run of timer ticks, one per timestamp. */
  function RunTicks(s: Snapshot, nows: seq<int>): Snapshot
    decreases |nows|
  {
    if nows == [] then s else RunTicks(AfterTick(s, nows[0]), nows[1..])
  }

  /**
   * startTest resets the session whatever its state was: empty input, no start time, a
   * full clock, inactive, zero results, and a prompt that is PromptWords words of the list.
   */
  lemma StartResets(words: seq<string>, draws: seq<real>)
    requires |words| > 0 && |draws| == PromptWords && DrawsValid(draws)
    requires forall i :: 0 <= i < |words| ==> ' ' !in words[i]
    ensures Consistent(AfterStart(words, draws))
    ensures PhaseOf(AfterStart(words, draws)) == NotStarted
    ensures AfterStart(words, draws).userInput == []
    ensures AfterStart(words, draws).timeLeft == Duration
    ensures AfterStart(words, draws).results == NoResults
    ensures Split(AfterStart(words, draws).text) == Chosen(words, draws)
    ensures |Split(AfterStart(words, draws).text)| == PromptWords
  {
    GeneratedWords(words, draws);
  }

  /**
   * The auto-start effect starts a session that has not started, at the given time,
   * and changes nothing in any other state; so running it again is a no-op.
   */
  lemma AutoStartOnce(s: Snapshot, now: int, later: int)
    requires Consistent(s)
    ensures Consistent(AfterAutoStart(s, now))
    ensures PhaseOf(s) == NotStarted ==>
              PhaseOf(AfterAutoStart(s, now)) == Active && AfterAutoStart(s, now).startTime == Some(now)
    ensures PhaseOf(s) != NotStarted ==> AfterAutoStart(s, now) == s
    ensures AfterAutoStart(AfterAutoStart(s, now), later) == AfterAutoStart(s, now)
  {
  }

  /**
   * Input handling: the input becomes the new value, the prompt only grows, and it grows
   * exactly when the new value reaches within Lookahead characters of the prompt's end;
   * a disabled field changes nothing.
   */
  lemma InputExtendsPrompt(words: seq<string>, s: Snapshot, value: string, now: int, draws: seq<real>)
    requires |words| > 0 && |draws| == ExtensionWords && DrawsValid(draws)
    requires Consistent(s)
    ensures Consistent(AfterInput(words, s, value, now, draws))
    ensures !InputAccepted(s) ==> AfterInput(words, s, value, now, draws) == s
    ensures InputAccepted(s) ==> AfterInput(words, s, value, now, draws).userInput == value
    ensures s.text <= AfterInput(words, s, value, now, draws).text
    ensures |AfterInput(words, s, value, now, draws).text| > |s.text| <==>
              InputAccepted(s) && |value| >= |s.text| - Lookahead
    ensures |AfterInput(words, s, value, now, draws).text| > |s.text| ==>
              |AfterInput(words, s, value, now, draws).text| >= |s.text| + ExtensionWords
  {
  }

  /**
   * The first keystroke starts a session that has not started, at the time of the
   * keystroke; no other input starts it and no input changes the phase of a started one.
   */
  lemma FirstKeystrokeStarts(words: seq<string>, s: Snapshot, value: string, now: int, draws: seq<real>)
    requires |words| > 0 && |draws| == ExtensionWords && DrawsValid(draws)
    requires Consistent(s)
    ensures PhaseOf(s) == NotStarted ==>
              (PhaseOf(AfterInput(words, s, value, now, draws)) == Active <==> InputAccepted(s) && |value| == 1)
    ensures PhaseOf(AfterInput(words, s, value, now, draws)) != PhaseOf(s) ==>
              AfterInput(words, s, value, now, draws).startTime == Some(now)
    ensures PhaseOf(s) != NotStarted ==>
              PhaseOf(AfterInput(words, s, value, now, draws)) == PhaseOf(s) &&
              AfterInput(words, s, value, now, draws).startTime == s.startTime
  {
  }

  /**
   * Both ways of starting a session, the auto-start effect and the first keystroke,
   * capture the start time once: whichever runs first sets it and the other keeps it.
   */
  lemma StartTimeCapturedOnce(words: seq<string>, s: Snapshot, value: string, t1: int, t2: int, draws: seq<real>)
    requires |words| > 0 && |draws| == ExtensionWords && DrawsValid(draws)
    requires Consistent(s) && PhaseOf(s) == NotStarted && |value| == 1
    ensures AfterInput(words, AfterAutoStart(s, t1), value, t2, draws).startTime == Some(t1)
    ensures AfterAutoStart(AfterInput(words, s, value, t2, draws), t1).startTime ==
              if InputAccepted(s) then Some(t2) else Some(t1)
    ensures PhaseOf(AfterInput(words, AfterAutoStart(s, t1), value, t2, draws)) == Active
    ensures PhaseOf(AfterAutoStart(AfterInput(words, s, value, t2, draws), t1)) == Active
  {
  }

  /**
   * With Backspace suppressed, no key pressed at the end of the input removes a character:
   * the old input is a prefix of the new one, and Backspace changes nothing at all.
   */
  lemma KeystrokesNeverDelete(words: seq<string>, s: Snapshot, key: string, now: int, draws: seq<real>)
    requires |words| > 0 && |draws| == ExtensionWords && DrawsValid(draws)
    ensures s.userInput <= AfterKey(words, s, key, now, draws).userInput
    ensures AfterKey(words, s, "Backspace", now, draws) == s
  {
  }

  /**
   * endTest stops the session; a started session is scored from its input, its prompt and
   * the elapsed time, with an accuracy in [0, 100] when something was typed and NaN when
   * nothing was; an unstarted one keeps its results. Running it again at the same time
   * changes nothing.
   */
  lemma EndScores(s: Snapshot, now: int)
    ensures !AfterEnd(s, now).isActive
    ensures AfterEnd(s, now).(isActive := s.isActive, results := s.results) == s
    ensures !Started(s.startTime) ==> AfterEnd(s, now).results == s.results
    ensures Started(s.startTime) ==>
              AfterEnd(s, now).results.wpm == Wpm(|s.userInput|, now - s.startTime.value)
    ensures Started(s.startTime) ==> AfterEnd(s, now).results.accuracy.Finite? == (|s.userInput| > 0)
    ensures Started(s.startTime) && |s.userInput| > 0 ==>
              0 <= AfterEnd(s, now).results.accuracy.value <= 100 &&
              AfterEnd(s, now).results.accuracy == Accuracy(s.text, s.userInput)
    ensures AfterEnd(AfterEnd(s, now), now) == AfterEnd(s, now)
  {
  }

  /**
   * A tick takes exactly one second off the clock of an active session and changes no
   * other state; the session ends at the tick that takes the clock to 0, and is scored there.
   */
  lemma TickCountsDown(s: Snapshot, now: int)
    requires Consistent(s)
    ensures Consistent(AfterTick(s, now))
    ensures PhaseOf(s) != Active ==> AfterTick(s, now) == s
    ensures PhaseOf(s) == Active ==> AfterTick(s, now).timeLeft == s.timeLeft - 1
    ensures PhaseOf(s) == Active ==> (PhaseOf(AfterTick(s, now)) == Ended <==> s.timeLeft == 1)
    ensures PhaseOf(s) == Active && s.timeLeft == 1 ==> AfterTick(s, now) == AfterEnd(s.(timeLeft := 0), now)
    ensures PhaseOf(s) == Active && s.timeLeft > 1 ==> AfterTick(s, now) == s.(timeLeft := s.timeLeft - 1)
  {
  }

  /** Ticks do nothing to a session that is not active. */
  lemma {:induction false} IdleTicks(s: Snapshot, nows: seq<int>)
    requires Consistent(s) && PhaseOf(s) != Active
    ensures RunTicks(s, nows) == s
    decreases |nows|
  {
    if nows != [] {
      IdleTicks(AfterTick(s, nows[0]), nows[1..]);
    }
  }

  /**
   * An active session with k seconds left is still active after fewer than k ticks, with
   * that many seconds fewer, and is over after k ticks, scored at the time of the k-th
   * tick; further ticks change nothing, so the session ends exactly once.
   */
  lemma {:induction false} CountdownEndsOnce(s: Snapshot, nows: seq<int>)
    requires Consistent(s) && PhaseOf(s) == Active
    ensures |nows| < s.timeLeft ==>
              RunTicks(s, nows) == s.(timeLeft := s.timeLeft - |nows|) &&
              PhaseOf(RunTicks(s, nows)) == Active
    ensures |nows| >= s.timeLeft ==>
              RunTicks(s, nows) == AfterEnd(s.(timeLeft := 0), nows[s.timeLeft - 1]) &&
              PhaseOf(RunTicks(s, nows)) == Ended
    decreases |nows|
  {
    if nows != [] {
      var next := AfterTick(s, nows[0]);
      TickCountsDown(s, nows[0]);
      if s.timeLeft == 1 {
        IdleTicks(next, nows[1..]);
      } else {
        CountdownEndsOnce(next, nows[1..]);
      }
    }
  }

  /** The component's state, updated in place by its handlers. */
  class TypingTest {
    /** The word list prompts are drawn from. */
    const words: seq<string>
    var text: string
    var userInput: string
    var startTime: Option<int>
    var timeLeft: int
    var isActive: bool
    var results: Results

    function State(): Snapshot
      reads this
    {
      Snapshot(text, userInput, startTime, timeLeft, isActive, results)
    }

    ghost predicate Valid()
      reads this
    {
      |words| > 0 && Consistent(State())
    }

    /** The component before its effects have run; an empty word list is refused. */
    constructor (words: seq<string>)
      requires |words| > 0
      ensures Valid() && this.words == words
      ensures State() == Initial && PhaseOf(State()) == NotStarted
    {
      this.words := words;
      text, userInput, startTime := [], [], None;
      timeLeft, isActive, results := Duration, false, NoResults;
    }

    /** startTest, run on mount and on retry. */
    method StartTest(draws: seq<real>)
      requires Valid() && |draws| == PromptWords && DrawsValid(draws)
      modifies this
      ensures Valid() && State() == AfterStart(words, draws)
    {
      text := GenerateText(words, draws);
      userInput := [];
      startTime := None;
      timeLeft := Duration;
      isActive := false;
      results := NoResults;
    }

    /** The auto-start effect. */
    method AutoStart(now: int)
      requires Valid()
      modifies this
      ensures Valid() && State() == AfterAutoStart(old(State()), now)
    {
      if !isActive && startTime.None? {
        startTime := Some(now);
        isActive := true;
      }
    }

    /** handleInputChange, for a change event carrying value; returns false on a disabled field. */
    method HandleInputChange(value: string, now: int, draws: seq<real>) returns (accepted: bool)
      requires Valid() && |draws| == ExtensionWords && DrawsValid(draws)
      modifies this
      ensures Valid() && State() == AfterInput(words, old(State()), value, now, draws)
      ensures accepted == InputAccepted(old(State()))
    {
      accepted := text != [] && timeLeft != 0;
      if !accepted {
        return;
      }
      if !isActive && |value| == 1 {
        isActive := true;
        startTime := Some(now);
      }
      userInput := value;
      if |value| >= |text| - Lookahead {
        text := text + " " + GenerateText(words, draws);
      }
      InputExtendsPrompt(words, old(State()), value, now, draws);
    }

    /** A key press: handleKeyDown, the field's default action at the caret end, and the change event. */
    method KeyPress(key: string, now: int, draws: seq<real>) returns (prevented: bool)
      requires Valid() && |draws| == ExtensionWords && DrawsValid(draws)
      modifies this
      ensures Valid() && State() == AfterKey(words, old(State()), key, now, draws)
      ensures prevented <==> key == "Backspace"
      ensures old(userInput) <= userInput
    {
      prevented := key == "Backspace";
      if prevented {
        return;
      }
      var value := DefaultEdit(userInput, key);
      if value != userInput {
        var _ := HandleInputChange(value, now, draws);
      }
      KeystrokesNeverDelete(words, old(State()), key, now, draws);
    }

    /** endTest, at the time now; the timer effect runs it once the clock of a started session is at 0. */
    method EndTest(now: int)
      requires |words| > 0 && timeLeft == 0 && startTime.Some?
      modifies this
      ensures Valid() && State() == AfterEnd(old(State()), now)
    {
      isActive := false;
      if startTime.Some? && startTime.value != 0 {
        var wpm := Wpm(|userInput|, now - startTime.value);
        var accuracy := CalculateAccuracy(text, userInput);
        results := Results(wpm, accuracy);
      }
    }

    /** One firing of the one-second interval, and the timer effect that follows it. */
    method Tick(now: int) returns (ended: bool)
      requires Valid()
      modifies this
      ensures Valid() && State() == AfterTick(old(State()), now)
      ensures ended <==> old(isActive) && old(timeLeft) == 1
    {
      ended := false;
      if isActive && timeLeft > 0 {
        timeLeft := timeLeft - 1;
        if timeLeft == 0 {
          EndTest(now);
          ended := true;
        }
      }
      TickCountsDown(old(State()), now);
    }
  }
}
