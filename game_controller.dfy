/**
 * The round state machine of `GameController`: the mode and its time
 * budget, loading the puzzle, the countdown's interval callback and the
 * classification of a submitted answer. Browser effects (alerts, clearing
 * the interval, the score call, the celebration overlay) are recorded in
 * the ghost log `effects`, so that their order can be stated.
 */
module Game {
  import opened Wrappers
  import opened JsParseInt
  import opened UserService

  // ---------------------------------------------------------------------
  // Modes

  /** `mode || 'beginner'`: a missing or empty mode string is beginner. */
  function DefaultMode(mode: Option<string>): (m: string)
    ensures m != ""
    ensures mode.Some? && mode.value != "" ==> m == mode.value
    ensures mode.None? || mode.value == "" ==> m == "beginner"
  {
    if mode.None? || mode.value == "" then "beginner" else mode.value
  }

  /** The seconds `init` sets for a mode; `None` leaves `timeLeft` as it
      was (beginner, and any mode name the game does not know). */
  function ModeTime(mode: string): (t: Option<nat>)
    ensures t.Some? ==> t.value > 0
    ensures t == Some(30) <==> mode == "intermediate"
    ensures t == Some(10) <==> mode == "pro"
    ensures t.None? <==> mode != "intermediate" && mode != "pro"
  {
    if mode == "intermediate" then Some(30)
    else if mode == "pro" then Some(10)
    else None
  }

  /** `init` starts the countdown for every mode except beginner. */
  predicate StartsTimer(mode: string) {
    mode != "beginner"
  }

  // ---------------------------------------------------------------------
  // The countdown

  /** The countdown: seconds left and whether the interval is still live. */
  datatype Clock = Clock(timeLeft: int, running: bool)

  /** What one period of the interval did: nothing (the interval is cleared
      or was never started), a second counted, or the time ran out. */
  datatype TickEvent = NoTick | Counted | TimeUp

  /** The interval callback: decrement, and clear the interval when the
      time left is no longer positive. A cleared interval does not fire. */
  function TickOnce(c: Clock): (r: (Clock, TickEvent))
    ensures !c.running ==> r == (c, NoTick)
    ensures c.running ==> r.0.timeLeft == c.timeLeft - 1
    ensures c.running ==> (r.1 == TimeUp <==> r.0.timeLeft <= 0)
    ensures c.running ==> (r.0.running <==> r.1 == Counted)
  {
    if !c.running then (c, NoTick)
    else if c.timeLeft - 1 <= 0 then (Clock(c.timeLeft - 1, false), TimeUp)
    else (Clock(c.timeLeft - 1, true), Counted)
  }

  /** The clock after `k` periods, with the number of expiries seen. */
  function Run(c: Clock, k: nat): (Clock, nat)
    decreases k
  {
    if k == 0 then (c, 0)
    else
      var (c1, e) := TickOnce(c);
      var (c2, n) := Run(c1, k - 1);
      (c2, n + if e == TimeUp then 1 else 0)
  }

  /** A cleared or never-started interval stays silent: this is why a
      beginner round and a round already won can never expire. */
  lemma {:induction false} StoppedClockIsFrozen(c: Clock, k: nat)
    requires !c.running
    ensures Run(c, k) == (c, 0)
  {
    if k > 0 {
      StoppedClockIsFrozen(c, k - 1);
    }
  }

  /** From `t >= 1` seconds the countdown counts `t - 1` seconds, expires
      exactly once on tick `t`, and is silent afterwards. */
  lemma {:induction false} CountdownFrom(t: int, k: nat)
    requires t >= 1
    ensures k < t ==> Run(Clock(t, true), k) == (Clock(t - k, true), 0)
    ensures k >= t ==> Run(Clock(t, true), k) == (Clock(0, false), 1)
  {
    if k > 0 {
      if t == 1 {
        StoppedClockIsFrozen(Clock(0, false), k - 1);
      } else {
        CountdownFrom(t - 1, k - 1);
      }
    }
  }

  /** A countdown started with no time left (an unknown mode keeps the
      initial 0) expires on its first tick. */
  lemma ExpiresOnFirstTick(t: int, k: nat)
    requires t <= 0 && k >= 1
    ensures Run(Clock(t, true), k) == (Clock(t - 1, false), 1)
  {
    StoppedClockIsFrozen(Clock(t - 1, false), k - 1);
  }

  // ---------------------------------------------------------------------
  // Answers

  /** How `checkAnswer` treats a submission: `null` or empty text is
      ignored, text whose parseInt is NaN is invalid, and a number is
      correct exactly when it equals the current solution. */
  datatype Verdict = Ignored | Invalid | Correct(answer: int) | Wrong(answer: int)

  function Classify(input: Option<string>, solution: Option<int>): (v: Verdict)
    ensures v == Ignored <==> input == None || input == Some("")
    ensures v == Invalid <==> input.Some? && input.value != "" && ParseInt(input.value) == None
    ensures v.Correct? || v.Wrong? ==> input.Some? && ParseInt(input.value) == Some(v.answer)
    ensures v.Correct? <==> v != Ignored && v != Invalid && solution == ParseInt(input.value)
    ensures solution.None? ==> !v.Correct?
  {
    if input.None? || input.value == "" then Ignored
    else match ParseInt(input.value)
      case None => Invalid
      case Some(n) => if solution == Some(n) then Correct(n) else Wrong(n)
  }

  /** The number the celebration shows: the new score, or 0 when the
      increment failed. */
  function CelebrationScore(result: Result<ScoreRecord, ScoreError>): int {
    match result
    case Success(rec) => rec.score
    case Failure(_) => 0
  }

  /** The celebration shows the old score plus one when the profile was
      read and written, and 0 on every failure. */
  lemma CelebratedScore(read: ProfileRead, writeSucceeds: bool)
    ensures CelebrationScore(IncrementScore(read, writeSucceeds).result) ==
      if read.Row? && writeSucceeds then read.profile.score + 1 else 0
  {
  }

  /** The decimal text of the solution wins, whatever white space precedes
      it and whatever non-digit text follows it. */
  lemma RenderedSolutionWins(n: int, ws: string, tail: string)
    requires AllWhiteSpace(ws)
    requires tail != [] ==> !IsDecimalDigit(tail[0]) && (n == 0 ==> tail[0] != 'x' && tail[0] != 'X')
    ensures Classify(Some(ws + Render(n) + tail), Some(n)) == Correct(n)
  {
    ParseRendered(n, ws, tail);
  }

  /** The decimal text of any other number loses, and so does every number
      when no puzzle solution was loaded. */
  lemma RenderedOtherLoses(n: int, solution: Option<int>)
    requires solution != Some(n)
    ensures Classify(Some(Render(n)), solution) == Wrong(n)
  {
    ParseRenderedExactly(n);
  }

  /** Non-empty text without a decimal digit is invalid, whatever the
      solution. */
  lemma DigitlessIsInvalid(s: string, solution: Option<int>)
    requires s != []
    requires forall i :: 0 <= i < |s| ==> !IsDecimalDigit(s[i])
    ensures Classify(Some(s), solution) == Invalid
  {
    NaNWithoutDigits(s);
  }

  // ---------------------------------------------------------------------
  // The controller

  /** What `getPuzzle` resolved with; `solution` is `None` when the
      response carried no integer solution. */
  datatype Puzzle = Puzzle(imageUrl: string, solution: Option<int>)

  /** The browser-side effects of the controller, in order. */
  datatype Effect =
    | PuzzleShown(imageUrl: string)
    | LoadFailedAlert
    | TimerStarted
    | TimerCleared
    | TimeUpAlert
    | InvalidNumberAlert
    | IncorrectAlert
    | ScoreIncrementCalled
    | Celebrated(score: int)

  /** The effects of `loadPuzzle` for a fetch outcome (`None`: it threw). */
  function LoadEffects(fetched: Option<Puzzle>): seq<Effect> {
    match fetched
    case Some(p) => [PuzzleShown(p.imageUrl)]
    case None => [LoadFailedAlert]
  }

  /** The alert `checkAnswer` raises for a verdict that is not a win. */
  function Notice(v: Verdict): seq<Effect> {
    match v
    case Invalid => [InvalidNumberAlert]
    case Wrong(_) => [IncorrectAlert]
    case _ => []
  }

  class GameController {
    var mode: string
    var currentSolution: Option<int>
    var timeLeft: int
    /** `timerInterval` holds a handle: set by `startTimer`, never reset. */
    var timerSet: bool
    /** The interval behind that handle has not been cleared. */
    var timerRunning: bool
    ghost var effects: seq<Effect>

    ghost predicate Valid()
      reads this
    {
      mode != "" &&
      (timerRunning ==> timerSet) &&
      (timerSet ==> StartsTimer(mode))
    }

    function ClockState(): Clock
      reads this
    {
      Clock(timeLeft, timerRunning)
    }

    constructor(mode: Option<string>)
      ensures Valid()
      ensures this.mode == DefaultMode(mode)
      ensures currentSolution == None && timeLeft == 0
      ensures !timerSet && !timerRunning && effects == []
    {
      this.mode := DefaultMode(mode);
      currentSolution := None;
      timeLeft := 0;
      timerSet, timerRunning := false, false;
      effects := [];
    }

    /** `loadPuzzle`, with the outcome of `getPuzzle` as input. */
    method LoadPuzzle(fetched: Option<Puzzle>)
      requires Valid()
      modifies this
      ensures Valid()
      ensures currentSolution == if fetched.Some? then fetched.value.solution else old(currentSolution)
      ensures effects == old(effects) + LoadEffects(fetched)
      ensures mode == old(mode) && timeLeft == old(timeLeft)
      ensures timerSet == old(timerSet) && timerRunning == old(timerRunning)
    {
      if fetched.Some? {
        currentSolution := fetched.value.solution;
      }
      effects := effects + LoadEffects(fetched);
    }

    /** `startTimer`: arm the interval. */
    method StartTimer()
      requires Valid() && StartsTimer(mode)
      modifies this
      ensures Valid()
      ensures timerSet && timerRunning
      ensures effects == old(effects) + [TimerStarted]
      ensures mode == old(mode) && timeLeft == old(timeLeft) && currentSolution == old(currentSolution)
    {
      timerSet, timerRunning := true, true;
      effects := effects + [TimerStarted];
    }

    /** `init`: set the time budget, load the puzzle, and only then start
        the countdown unless the mode is beginner. */
    method Init(fetched: Option<Puzzle>)
      requires Valid()
      modifies this
      ensures Valid()
      ensures timeLeft == match ModeTime(mode) case Some(t) => t case None => old(timeLeft)
      ensures currentSolution == if fetched.Some? then fetched.value.solution else old(currentSolution)
      ensures timerSet == timerRunning == StartsTimer(mode)
      ensures effects == old(effects) + LoadEffects(fetched) + (if StartsTimer(mode) then [TimerStarted] else [])
      ensures mode == old(mode)
    {
      match ModeTime(mode) {
        case Some(t) => timeLeft := t;
        case None =>
      }
      LoadPuzzle(fetched);
      if StartsTimer(mode) {
        StartTimer();
      }
    }

    /** One period of the interval set by `startTimer`. */
    method Tick() returns (e: TickEvent)
      requires Valid()
      modifies this
      ensures Valid()
      ensures (ClockState(), e) == TickOnce(old(ClockState()))
      ensures effects == old(effects) + (if e == TimeUp then [TimerCleared, TimeUpAlert] else [])
      ensures mode == "beginner" ==> e == NoTick
      ensures mode == old(mode) && currentSolution == old(currentSolution) && timerSet == old(timerSet)
    {
      if !timerRunning {
        return NoTick;
      }
      timeLeft := timeLeft - 1;
      if timeLeft <= 0 {
        timerRunning := false;
        effects := effects + [TimerCleared, TimeUpAlert];
        e := TimeUp;
      } else {
        e := Counted;
      }
    }

    /** `checkAnswer`, with what `getProfile` would produce and whether the
        row update succeeds as inputs. `shown` is the score the celebration
        displays, when there is one. */
    method CheckAnswer(input: Option<string>, read: ProfileRead, writeSucceeds: bool)
      returns (v: Verdict, shown: Option<int>)
      requires Valid()
      modifies this
      ensures Valid()
      ensures v == Classify(input, currentSolution)
      ensures v.Correct? ==>
        !timerRunning &&
        shown == Some(CelebrationScore(IncrementScore(read, writeSucceeds).result)) &&
        effects == old(effects) + (if old(timerSet) then [TimerCleared] else [])
                                + [ScoreIncrementCalled, Celebrated(shown.value)]
      ensures !v.Correct? ==>
        timerRunning == old(timerRunning) && shown == None && effects == old(effects) + Notice(v)
      ensures mode == old(mode) && currentSolution == old(currentSolution)
      ensures timeLeft == old(timeLeft) && timerSet == old(timerSet)
    {
      v := Classify(input, currentSolution);
      shown := None;
      if v.Correct? {
        if timerSet {
          timerRunning := false;
          effects := effects + [TimerCleared];
        }
        var outcome := IncrementScore(read, writeSucceeds);
        effects := effects + [ScoreIncrementCalled];
        var score := CelebrationScore(outcome.result);
        effects := effects + [Celebrated(score)];
        shown := Some(score);
      } else {
        effects := effects + Notice(v);
      }
    }
  }
}
