/** Whole rounds played through the loop on concrete frames. */
module Scenarios {
  import opened Options
  import opened Numeric
  import opened Landmarks
  import opened Gestures
  import opened Emotions
  import opened Resolver
  import opened Reactions
  import opened Game

  /** The key code read when no key was pressed (-1). */
  const NoKey: int := -1

  /** A closed fist: every finger tip below its joint, the thumb tip right of its joint. */
  function Fist(): (hand: seq<Point>)
    ensures |hand| == HandSize
    ensures GetHandGesture([hand]) == Some(Rock)
  {
    EveryPatternRealisable(RockPattern);
    HandWithPattern(RockPattern)
  }

  /** The loop over a single frame with no key pressed is that frame's step. */
  lemma RunOneQuietFrame(s: GameState, f: Frame)
    requires ValidFrame(f)
    ensures Run(s, [Event(f, NoKey)]) == RunResult(Step(s, f).state, Step(s, f).beeps, false)
  {
    assert KeyCommand(NoKey) == NoCommand;
    assert [Event(f, NoKey)][1..] == [];
  }

  /** A round whose countdown started at time 0. */
  const Waiting: GameState := Initial.(countdownStarted := true, countdownStartTime := 0.0)

  /** The first face frame of a fresh game starts the countdown at time 0. */
  lemma FirstFaceFrame()
    ensures Step(Initial, Frame(true, [], 0.0, [], [])) == StepResult(Waiting, 2)
  {
    assert Trunc(0.0 - 0.0) == 0;
  }

  /** At 3.1 s the fist is captured against scissors. */
  lemma FistCaptured()
    ensures Step(Waiting, Frame(true, [], 3.1, [Fist()], [Scissors])) ==
      StepResult(ResolveRound(Waiting, Rock, Scissors), 0)
  {
    assert Trunc(3.1 - 0.0) == 3;
    assert [Fist()][1..] == [];
  }

  /** A fist against scissors ends the waiting round as a player win. */
  lemma FistBeatsScissorsResult()
    ensures var r := ResolveRound(Waiting, Rock, Scissors);
      && r.board == ScoreBoard(1, 0)
      && r.playerMove == "rock" && r.computerMove == "scissors"
      && r.resultText == "Nice win!"
  {
    assert Judge(Rock, Scissors) == PlayerWins;
    KnownKeysUseTable(Neutral, PlayerWins);
  }

  /** A face appears at time 0 with no hand; at 3.1 s a fist is shown and the
      computer draws scissors. The round ends as a player win scored once,
      with the neutral reaction, after the two beeps of the first frame. */
  lemma FistBeatsScissorsRound()
    ensures var r := Run(Initial, [
        Event(Frame(true, [], 0.0, [], []), NoKey),
        Event(Frame(true, [], 3.1, [Fist()], [Scissors]), NoKey)]);
      && PhaseAt(r.state, 3.1) == Resolved
      && r.state.board == ScoreBoard(1, 0)
      && r.state.playerMove == "rock" && r.state.computerMove == "scissors"
      && r.state.resultText == "Nice win!"
      && r.beeps == 2 && !r.quit
  {
    var f0 := Frame(true, [], 0.0, [], []);
    var f1 := Frame(true, [], 3.1, [Fist()], [Scissors]);
    var events := [Event(f0, NoKey), Event(f1, NoKey)];
    FirstFaceFrame();
    FistCaptured();
    FistBeatsScissorsResult();
    assert KeyCommand(NoKey) == NoCommand;
    assert events[1..] == [Event(f1, NoKey)];
    RunOneQuietFrame(Waiting, f1);
  }

  /** A capture frame of the waiting round is the capture loop over its hands. */
  lemma WaitingCaptureFrame(now: real, hands: seq<seq<Point>>, picks: seq<Gesture>)
    requires ValidHands(hands, picks)
    requires now >= 3.0
    ensures Step(Waiting, Frame(true, [], now, hands, picks)) ==
      StepResult(CaptureHands(Waiting, hands, picks), 0)
  {
    assert Trunc(now - 0.0) >= 3;
  }

  /** Two fists, outcome by outcome: against the given draws, the hands win
      and lose as counted, and the second hand is the last one recognised. */
  lemma TwoFistsCounted(c0: Gesture, c1: Gesture)
    ensures ValidHands([Fist(), Fist()], [c0, c1])
    ensures LastRecognised([Fist(), Fist()], [c0, c1]) == Some((Rock, c1))
    ensures CountOutcome([Fist(), Fist()], [c0, c1], PlayerWins)
      == (if c0 == Scissors then 1 else 0) + (if c1 == Scissors then 1 else 0)
    ensures CountOutcome([Fist(), Fist()], [c0, c1], ComputerWins)
      == (if c0 == Paper then 1 else 0) + (if c1 == Paper then 1 else 0)
  {
    var hands := [Fist(), Fist()];
    var picks := [c0, c1];
    assert hands[1..] == [Fist()] && picks[1..] == [c1];
    assert hands[1..][1..] == [] && picks[1..][1..] == [];
  }

  /** Two fists in one capture frame, both against scissors: the loop has no
      early exit, so one round scores two points. */
  lemma TwoHandsScoreTwice()
    ensures Step(Waiting, Frame(true, [], 3.0, [Fist(), Fist()], [Scissors, Scissors])).state.board
      == ScoreBoard(2, 0)
  {
    TwoFistsCounted(Scissors, Scissors);
    WaitingCaptureFrame(3.0, [Fist(), Fist()], [Scissors, Scissors]);
  }

  /** Two fists against scissors and then paper: the shown result is the
      second hand's loss, yet the first hand's win was also scored. */
  lemma TwoHandsShowLastResult()
    ensures var r := Step(Waiting, Frame(true, [], 3.0, [Fist(), Fist()], [Scissors, Paper])).state;
      r.board == ScoreBoard(1, 1) && r.resultText == "Better luck next time!"
  {
    var hands := [Fist(), Fist()];
    var picks := [Scissors, Paper];
    TwoFistsCounted(Scissors, Paper);
    WaitingCaptureFrame(3.0, hands, picks);
    CaptureShowsLastResult(Waiting, hands, picks);
    assert Judge(Rock, Paper) == ComputerWins;
    assert Waiting.emotion.emotion == Neutral;
    KnownKeysUseTable(Neutral, ComputerWins);
  }
}
