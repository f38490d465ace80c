/**
 * Whole rounds driven through the controller's methods, stated only from
 * their contracts: what a page that calls `init`, receives interval ticks
 * and submits answers can rely on.
 */
module Scenarios {
  import opened Wrappers
  import opened JsParseInt
  import opened UserService
  import opened Game

  /** A pro round with solution 7: "seven" is invalid, "3" is wrong, "7"
      submitted with 4 seconds left wins and shows the incremented score,
      and a later tick does nothing (for any number of ticks see
      `StoppedClockIsFrozen`). */
  method ProRound() returns (first: Verdict, second: Verdict, left: int, third: Verdict,
                             shown: Option<int>, late: TickEvent)
    ensures first == Invalid && second == Wrong(3) && left == 4
    ensures third == Correct(7) && shown == Some(5) && late == NoTick
  {
    var g := new GameController(Some("pro"));
    g.Init(Some(Puzzle("heart.png", Some(7))));
    assert g.timeLeft == 10 && g.timerRunning;
    DigitlessIsInvalid("seven", Some(7));
    var ignored;
    first, ignored := g.CheckAnswer(Some("seven"), Row(Profile("player", 4, 4)), true);
    assert Render(3) == "3";
    RenderedOtherLoses(3, Some(7));
    second, ignored := g.CheckAnswer(Some("3"), Row(Profile("player", 4, 4)), true);
    var e := g.Tick();
    e := g.Tick();
    e := g.Tick();
    e := g.Tick();
    e := g.Tick();
    e := g.Tick();
    left := g.timeLeft;
    assert Render(7) == "7";
    RenderedSolutionWins(7, [], []);
    assert [] + "7" + [] == "7";
    third, shown := g.CheckAnswer(Some("7"), Row(Profile("player", 4, 4)), true);
    late := g.Tick();
  }

  /** A mode name the game does not know keeps `timeLeft` at 0 yet starts
      the countdown, which runs out on its first tick. */
  method UnknownModeRound() returns (budget: int, first: TickEvent, second: TickEvent)
    ensures budget == 0 && first == TimeUp && second == NoTick
  {
    var g := new GameController(Some("expert"));
    g.Init(Some(Puzzle("heart.png", Some(2))));
    budget := g.timeLeft;
    first := g.Tick();
    second := g.Tick();
  }

  /** A beginner round whose puzzle failed to load has no countdown and no
      solution: one tick does nothing and "0" is wrong (for every tick and
      every number see `StoppedClockIsFrozen` and `RenderedOtherLoses`). */
  method FailedBeginnerRound() returns (tick: TickEvent, answer: Verdict, shown: Option<int>)
    ensures tick == NoTick && answer == Wrong(0) && shown == None
  {
    var g := new GameController(None);
    g.Init(None);
    tick := g.Tick();
    assert Render(0) == "0";
    RenderedOtherLoses(0, None);
    answer, shown := g.CheckAnswer(Some("0"), Row(Profile("player", 0, 0)), true);
  }

  /** Nothing stops a second correct submission: both call the score
      increment, and when the row update fails the celebration shows 0. */
  method RepeatedWin() returns (first: Option<int>, second: Option<int>, third: Option<int>)
    ensures first == Some(1) && second == Some(2) && third == Some(0)
  {
    var g := new GameController(Some("beginner"));
    g.Init(Some(Puzzle("heart.png", Some(1))));
    assert Render(1) == "1";
    RenderedSolutionWins(1, [], []);
    assert [] + "1" + [] == "1";
    var v;
    v, first := g.CheckAnswer(Some("1"), Row(NewProfile("player")), true);
    v, second := g.CheckAnswer(Some("1"), Row(Profile("player", 1, 1)), true);
    v, third := g.CheckAnswer(Some("1"), Row(Profile("player", 2, 2)), false);
  }
}
