/** The per-frame round state machine of the live game, written as a pure
    step function over an immutable game state. The camera, the detectors,
    the clock and the random choice of the computer are inputs of the step. */
module Game {
  import opened Options
  import opened Numeric
  import opened Landmarks
  import opened Gestures
  import opened Emotions
  import opened Resolver
  import opened Reactions

  /** Length of the countdown, in whole seconds. */
  const CountdownDuration: int := 3

  /** Everything the main loop keeps between frames that affects the game.
      `roundActive` and `countdownStarted` are the only stored round flags;
      whether the countdown is still running is derived from the clock. */
  datatype GameState = GameState(
    resultText: string,
    playerMove: string,
    computerMove: string,
    board: ScoreBoard,
    roundActive: bool,
    countdownStarted: bool,
    countdownStartTime: real,
    emotion: Reading)

  /** The state before the first frame. */
  const Initial: GameState :=
    GameState("", "", "", ScoreBoard(0, 0), true, false, 0.0, Reading(Neutral, 0.0))

  /** What one frame delivers: whether the face detector saw a face, the face
      meshes found, the clock reading, the hands found, and for each hand the
      gesture the computer would draw if that hand is recognised. */
  datatype Frame = Frame(
    faceDetected: bool,
    faceMeshes: seq<seq<Point>>,
    now: real,
    hands: seq<seq<Point>>,
    computerPicks: seq<Gesture>)

  /** Detector output of the documented shape. */
  predicate ValidMeshes(meshes: seq<seq<Point>>)
  {
    forall i :: 0 <= i < |meshes| ==> |meshes[i]| > MaxFaceIndex
  }

  predicate ValidHands(hands: seq<seq<Point>>, picks: seq<Gesture>)
  {
    && |picks| == |hands|
    && forall i :: 0 <= i < |hands| ==> |hands[i]| >= HandSize
  }

  predicate ValidFrame(f: Frame)
  {
    ValidMeshes(f.faceMeshes) && ValidHands(f.hands, f.computerPicks)
  }

  /** The invariant of the running game: a result, and the two moves behind
      it, are on show exactly when the round is over; a finished round has no
      countdown pending and its moves are gesture names; the confidence lies
      in [0, 1]. */
  ghost predicate Inv(s: GameState)
  {
    && (s.roundActive <==> s.resultText == "")
    && (s.roundActive <==> s.playerMove == "")
    && (s.roundActive <==> s.computerMove == "")
    && (!s.roundActive ==> !s.countdownStarted)
    && (!s.roundActive ==> ParseGesture(s.playerMove).Some? && ParseGesture(s.computerMove).Some?)
    && 0.0 <= s.emotion.confidence <= 1.0
  }

  lemma InitialSatisfiesInv()
    ensures Inv(Initial)
  {
  }

  /** The round phase a state is in at a given clock reading. */
  datatype Phase = Idle | CountingDown | Capturing | Resolved

  function PhaseAt(s: GameState, now: real): (p: Phase)
    ensures p == Resolved <==> !s.roundActive
    ensures p == Idle <==> s.roundActive && !s.countdownStarted
    ensures p == CountingDown ==> s.countdownStarted && now - s.countdownStartTime < CountdownDuration as real
    ensures p == Capturing ==> s.countdownStarted && now - s.countdownStartTime >= CountdownDuration as real
  {
    if !s.roundActive then Resolved
    else if !s.countdownStarted then Idle
    else if Trunc(now - s.countdownStartTime) < CountdownDuration then CountingDown
    else Capturing
  }

  function PhaseRank(p: Phase): nat
  {
    match p
    case Idle => 0
    case CountingDown => 1
    case Capturing => 2
    case Resolved => 3
  }

  /** The round fields and scores of two states agree; only the emotion may differ. */
  ghost predicate SameRound(s: GameState, t: GameState)
  {
    s == t.(emotion := s.emotion)
  }

  /** Each face mesh of the frame is classified in turn, so the last one
      decides the stored emotion; with no mesh the emotion is kept. */
  function UpdateEmotion(s: GameState, meshes: seq<seq<Point>>): (r: GameState)
    requires ValidMeshes(meshes)
    ensures SameRound(s, r)
    ensures |meshes| == 0 ==> r == s
    ensures |meshes| > 0 ==> r.emotion == DetectEmotion(Some(meshes[|meshes| - 1]))
    ensures 0.0 <= s.emotion.confidence <= 1.0 ==> 0.0 <= r.emotion.confidence <= 1.0
    decreases |meshes|
  {
    if |meshes| == 0 then s
    else UpdateEmotion(s.(emotion := DetectEmotion(Some(meshes[0]))), meshes[1..])
  }

  /** A recognised hand ends the round: the moves, scores and reaction message
      are stored and both round flags are cleared. */
  function ResolveRound(s: GameState, player: Gesture, computer: Gesture): (r: GameState)
    ensures r.emotion == s.emotion && r.countdownStartTime == s.countdownStartTime
    ensures !r.roundActive && !r.countdownStarted
    ensures ParseGesture(r.playerMove) == Some(player) && ParseGesture(r.computerMove) == Some(computer)
    ensures r.resultText != ""
    ensures var o := Judge(player, computer);
      && r.resultText == EmotionReaction(s.emotion.emotion.Name(), o.Text())
      && r.board.player == s.board.player + (if o == PlayerWins then 1 else 0)
      && r.board.computer == s.board.computer + (if o == ComputerWins then 1 else 0)
  {
    var decided := DecideWinner(player, computer, s.board);
    NameRoundTrip(player);
    NameRoundTrip(computer);
    KnownResultNeverEchoed(s.emotion.emotion.Name(), decided.0);
    s.(playerMove := player.Name(),
       computerMove := computer.Name(),
       board := decided.1,
       resultText := EmotionReaction(s.emotion.emotion.Name(), decided.0.Text()),
       roundActive := false,
       countdownStarted := false)
  }

  /** The gesture of one detected hand, classified on its own. */
  function HandGesture(hand: seq<Point>): Option<Gesture>
    requires |hand| >= HandSize
  {
    GetHandGesture([hand])
  }

  /** The last recognised hand of the frame with the computer's draw for it. */
  function LastRecognised(hands: seq<seq<Point>>, picks: seq<Gesture>): Option<(Gesture, Gesture)>
    requires ValidHands(hands, picks)
    decreases |hands|
  {
    if |hands| == 0 then None
    else match LastRecognised(hands[1..], picks[1..])
      case Some(later) => Some(later)
      case None =>
        match HandGesture(hands[0])
        case Some(g) => Some((g, picks[0]))
        case None => None
  }

  /** How many recognised hands of the frame end with the given outcome. */
  function CountOutcome(hands: seq<seq<Point>>, picks: seq<Gesture>, o: Outcome): nat
    requires ValidHands(hands, picks)
    decreases |hands|
  {
    if |hands| == 0 then 0
    else
      var here :=
        match HandGesture(hands[0])
        case Some(g) => if Judge(g, picks[0]) == o then 1 else 0
        case None => 0;
      here + CountOutcome(hands[1..], picks[1..], o)
  }

  /** The capture loop: every detected hand is classified, and every recognised
      one resolves the round; there is no early exit, so a second recognised
      hand resolves the same round again. The message shown is stated by
      CaptureShowsLastResult. */
  function CaptureHands(s: GameState, hands: seq<seq<Point>>, picks: seq<Gesture>): (r: GameState)
    requires ValidHands(hands, picks)
    ensures r.emotion == s.emotion && r.countdownStartTime == s.countdownStartTime
    ensures LastRecognised(hands, picks) == None ==> r == s
    ensures match LastRecognised(hands, picks)
      case None => true
      case Some(last) =>
        && !r.roundActive && !r.countdownStarted
        && ParseGesture(r.playerMove) == Some(last.0)
        && ParseGesture(r.computerMove) == Some(last.1)
    ensures r.board.player == s.board.player + CountOutcome(hands, picks, PlayerWins)
    ensures r.board.computer == s.board.computer + CountOutcome(hands, picks, ComputerWins)
    decreases |hands|
  {
    if |hands| == 0 then s
    else
      var s' :=
        match HandGesture(hands[0])
        case Some(g) => ResolveRound(s, g, picks[0])
        case None => s;
      CaptureHands(s', hands[1..], picks[1..])
  }

  /** The message left on show is the reaction to the last recognised hand's
      outcome, for the emotion held during the frame. */
  lemma {:induction false} CaptureShowsLastResult(s: GameState, hands: seq<seq<Point>>, picks: seq<Gesture>)
    requires ValidHands(hands, picks)
    requires LastRecognised(hands, picks).Some?
    ensures var last := LastRecognised(hands, picks).value;
      CaptureHands(s, hands, picks).resultText
        == EmotionReaction(s.emotion.emotion.Name(), Judge(last.0, last.1).Text())
    decreases |hands|
  {
    var s' :=
      match HandGesture(hands[0])
      case Some(g) => ResolveRound(s, g, picks[0])
      case None => s;
    assert CaptureHands(s, hands, picks) == CaptureHands(s', hands[1..], picks[1..]);
    if LastRecognised(hands[1..], picks[1..]).Some? {
      CaptureShowsLastResult(s', hands[1..], picks[1..]);
    }
  }

  /** What one frame produces: the next state and how many beeps it sounded. */
  datatype StepResult = StepResult(state: GameState, beeps: nat)

  /** One frame of the main loop's game logic. The emotion is refreshed from
      the face meshes first. The round advances only while the face detector
      sees a face and the round is active: the first such frame records the
      start time and beeps; during the countdown every frame whose remaining
      count is at most three beeps; once the countdown has run out the hands
      are captured. */
  function Step(s: GameState, f: Frame): (r: StepResult)
    requires ValidFrame(f)
    ensures !f.faceDetected || !s.roundActive ==> SameRound(s, r.state) && r.beeps == 0
    ensures r.beeps <= 2
    ensures r.state.board.player >= s.board.player && r.state.board.computer >= s.board.computer
    ensures r.state.emotion == UpdateEmotion(s, f.faceMeshes).emotion
  {
    var s1 := UpdateEmotion(s, f.faceMeshes);
    if !(f.faceDetected && s1.roundActive) then
      StepResult(s1, 0)
    else
      var starting := !s1.countdownStarted;
      var s2 := if starting then s1.(countdownStartTime := f.now, countdownStarted := true) else s1;
      var startBeeps := if starting then 1 else 0;
      var elapsed := Trunc(f.now - s2.countdownStartTime);
      if elapsed < CountdownDuration then
        StepResult(s2, startBeeps + (if CountdownDuration - elapsed <= 3 then 1 else 0))
      else
        StepResult(CaptureHands(s2, f.hands, f.computerPicks), startBeeps)
  }

  /** Every frame keeps the game invariant. */
  lemma StepPreservesInv(s: GameState, f: Frame)
    requires ValidFrame(f)
    requires Inv(s)
    ensures Inv(Step(s, f).state)
  {
    var s1 := UpdateEmotion(s, f.faceMeshes);
    assert Inv(s1);
    if f.faceDetected && s1.roundActive {
      var s2 := if !s1.countdownStarted then s1.(countdownStartTime := f.now, countdownStarted := true) else s1;
      assert Inv(s2);
      if Trunc(f.now - s2.countdownStartTime) >= CountdownDuration {
        var r := CaptureHands(s2, f.hands, f.computerPicks);
        assert Step(s, f).state == r;
        match LastRecognised(f.hands, f.computerPicks)
        case None =>
        case Some(last) =>
          CaptureShowsLastResult(s2, f.hands, f.computerPicks);
          KnownResultNeverEchoed(s2.emotion.emotion.Name(), Judge(last.0, last.1));
      }
    }
  }

  /** The frame that sees the first face of a round starts the countdown at
      the frame's clock reading and beeps twice: once for the start and once
      as the first tick. */
  lemma StepStartsCountdown(s: GameState, f: Frame)
    requires ValidFrame(f)
    requires f.faceDetected && s.roundActive && !s.countdownStarted
    ensures var r := Step(s, f);
      && r.state.roundActive && r.state.countdownStarted
      && r.state.countdownStartTime == f.now
      && r.beeps == 2
      && r.state.board == s.board && r.state.resultText == s.resultText
      && PhaseAt(r.state, f.now) == CountingDown
  {
  }

  /** While the countdown runs on a clock that has not gone back, every frame
      beeps once and changes nothing else but the emotion. */
  lemma StepTicksDuringCountdown(s: GameState, f: Frame)
    requires ValidFrame(f)
    requires f.faceDetected && s.roundActive && s.countdownStarted
    requires 0 <= Trunc(f.now - s.countdownStartTime) < CountdownDuration
    ensures SameRound(s, Step(s, f).state) && Step(s, f).beeps == 1
  {
  }

  /** A clock read a whole second or more before the start time gives a
      negative elapsed count: the countdown goes on, but silently. */
  lemma StepSilentWhenClockGoesBack(s: GameState, f: Frame)
    requires ValidFrame(f)
    requires f.faceDetected && s.roundActive && s.countdownStarted
    requires f.now - s.countdownStartTime <= -1.0
    ensures SameRound(s, Step(s, f).state) && Step(s, f).beeps == 0
    ensures PhaseAt(Step(s, f).state, f.now) == CountingDown
  {
  }

  /** After the countdown, the frame's hands are captured without a beep, with
      the emotion just read from this frame's face meshes; with no recognised
      hand the round keeps waiting, with one it is resolved. */
  lemma StepCaptures(s: GameState, f: Frame)
    requires ValidFrame(f)
    requires f.faceDetected && s.roundActive && s.countdownStarted
    requires f.now - s.countdownStartTime >= CountdownDuration as real
    ensures var r := Step(s, f);
      && r.beeps == 0
      && (LastRecognised(f.hands, f.computerPicks) == None ==> SameRound(s, r.state))
      && (LastRecognised(f.hands, f.computerPicks).Some? ==> PhaseAt(r.state, f.now) == Resolved)
      && r.state == CaptureHands(UpdateEmotion(s, f.faceMeshes), f.hands, f.computerPicks)
  {
  }

  /** Phases only move forward within a frame: idle, counting down, capturing,
      resolved. A resolved round stays resolved. */
  lemma StepMovesForward(s: GameState, f: Frame)
    requires ValidFrame(f)
    ensures PhaseRank(PhaseAt(Step(s, f).state, f.now)) >= PhaseRank(PhaseAt(s, f.now))
    ensures PhaseAt(s, f.now) == Resolved ==> PhaseAt(Step(s, f).state, f.now) == Resolved
  {
  }

  /** The `r` key: a fresh round is armed, moves and result are cleared, the
      scores, the emotion and the old start time are kept. */
  function Restart(s: GameState): (r: GameState)
    ensures r.board == s.board && r.emotion == s.emotion
    ensures forall now :: PhaseAt(r, now) == Idle
    ensures r.resultText == "" && r.playerMove == "" && r.computerMove == ""
    ensures Inv(s) ==> Inv(r)
  {
    s.(playerMove := "", computerMove := "", resultText := "", roundActive := true, countdownStarted := false)
  }

  /** The keyboard commands the loop reacts to. */
  datatype Command = Quit | RestartRound | ToggleLandmarks | NoCommand

  /** The key code is masked to its low byte: `q` quits, `r` restarts,
      `l` or `L` toggles the landmark overlay. */
  function KeyCommand(key: int): (c: Command)
    ensures c == Quit <==> key % 256 == 'q' as int
    ensures c == RestartRound <==> key % 256 == 'r' as int
    ensures c == ToggleLandmarks <==> key % 256 == 'l' as int || key % 256 == 'L' as int
  {
    var k := key % 256;
    if k == 'q' as int then Quit
    else if k == 'r' as int then RestartRound
    else if k == 'l' as int || k == 'L' as int then ToggleLandmarks
    else NoCommand
  }

  /** One pass of the main loop: a frame and the key read after it. */
  datatype Event = Event(frame: Frame, key: int)

  datatype RunResult = RunResult(state: GameState, beeps: nat, quit: bool)

  predicate ValidEvents(events: seq<Event>)
  {
    forall i :: 0 <= i < |events| ==> ValidFrame(events[i].frame)
  }

  /** The main loop over a sequence of frames, stopping at `q`. Toggling the
      landmark overlay changes only what is drawn. */
  function Run(s: GameState, events: seq<Event>): (r: RunResult)
    requires ValidEvents(events)
    ensures r.state.board.player >= s.board.player && r.state.board.computer >= s.board.computer
    ensures r.beeps <= 2 * |events|
    ensures r.quit <==> exists i :: 0 <= i < |events| && KeyCommand(events[i].key) == Quit
    decreases |events|
  {
    if |events| == 0 then RunResult(s, 0, false)
    else
      var stepped := Step(s, events[0].frame);
      match KeyCommand(events[0].key)
      case Quit => RunResult(stepped.state, stepped.beeps, true)
      case RestartRound =>
        var rest := Run(Restart(stepped.state), events[1..]);
        RunResult(rest.state, stepped.beeps + rest.beeps, rest.quit)
      case _ =>
        var rest := Run(stepped.state, events[1..]);
        RunResult(rest.state, stepped.beeps + rest.beeps, rest.quit)
  }

  /** A `q` on the first event ends the loop after that event's frame. */
  lemma RunQuitsAtOnce(s: GameState, events: seq<Event>)
    requires ValidEvents(events)
    requires |events| > 0 && KeyCommand(events[0].key) == Quit
    ensures Run(s, events) == RunResult(Step(s, events[0].frame).state, Step(s, events[0].frame).beeps, true)
  {
  }

  /** One pass of the loop that does not quit hands on to the rest of the run. */
  lemma RunContinues(s: GameState, events: seq<Event>)
    requires ValidEvents(events)
    requires |events| > 0 && KeyCommand(events[0].key) != Quit
    ensures ValidEvents(events[1..])
    ensures var stepped := Step(s, events[0].frame);
      var next := if KeyCommand(events[0].key) == RestartRound then Restart(stepped.state) else stepped.state;
      var rest := Run(next, events[1..]);
      Run(s, events) == RunResult(rest.state, stepped.beeps + rest.beeps, rest.quit)
  {
    assert ValidEvents(events[1..]) by {
      forall i | 0 <= i < |events[1..]| ensures ValidFrame(events[1..][i].frame) {
        assert events[1..][i] == events[i + 1];
      }
    }
  }

  /** A prefix of valid events is valid, and a `q`-free stretch stays
      `q`-free after dropping the first event. */
  lemma PrefixFacts(events: seq<Event>, i: nat)
    requires ValidEvents(events)
    requires 0 < i < |events|
    requires forall j :: 0 <= j < i ==> KeyCommand(events[j].key) != Quit
    ensures ValidEvents(events[..i + 1])
    ensures events[..i + 1][0] == events[0]
    ensures events[..i + 1][1..] == events[1..][..i]
    ensures forall j :: 0 <= j < i - 1 ==> KeyCommand(events[1..][j].key) != Quit
  {
    var prefix := events[..i + 1];
    forall j | 0 <= j < |prefix| ensures ValidFrame(prefix[j].frame) {
      assert prefix[j] == events[j];
    }
    forall j | 0 <= j < i - 1 ensures KeyCommand(events[1..][j].key) != Quit {
      assert events[1..][j] == events[j + 1];
    }
  }

  /** Events after the first `q` have no effect: the loop has ended. */
  lemma {:induction false} RunStopsAtQuit(s: GameState, events: seq<Event>, i: nat)
    requires ValidEvents(events)
    requires i < |events| && KeyCommand(events[i].key) == Quit
    requires forall j :: 0 <= j < i ==> KeyCommand(events[j].key) != Quit
    ensures Run(s, events) == Run(s, events[..i + 1])
    decreases i
  {
    if i == 0 {
      assert events[..1] == [events[0]];
      RunQuitsAtOnce(s, events);
      RunQuitsAtOnce(s, events[..1]);
    } else {
      var stepped := Step(s, events[0].frame);
      var next := if KeyCommand(events[0].key) == RestartRound then Restart(stepped.state) else stepped.state;
      PrefixFacts(events, i);
      RunStopsAtQuit(next, events[1..], i - 1);
      RunPrefixStep(s, events, i);
    }
  }

  /** The inductive step of RunStopsAtQuit: if the rest of the run after the
      first event already ignores what follows the `q`, so does the whole run. */
  lemma RunPrefixStep(s: GameState, events: seq<Event>, i: nat)
    requires ValidEvents(events)
    requires 0 < i < |events|
    requires forall j :: 0 <= j < i ==> KeyCommand(events[j].key) != Quit
    requires ValidEvents(events[1..])
    requires var stepped := Step(s, events[0].frame);
      var next := if KeyCommand(events[0].key) == RestartRound then Restart(stepped.state) else stepped.state;
      Run(next, events[1..]) == Run(next, events[1..][..i])
    ensures Run(s, events) == Run(s, events[..i + 1])
  {
    PrefixFacts(events, i);
    RunContinues(s, events);
    RunContinues(s, events[..i + 1]);
  }

  /** A run whose last key is `r`, with no `q` before it, ends with a fresh
      idle round: no moves, no result, whatever the frames did. */
  lemma {:induction false} RunEndingInRestart(s: GameState, events: seq<Event>)
    requires ValidEvents(events)
    requires |events| > 0 && KeyCommand(events[|events| - 1].key) == RestartRound
    requires forall j :: 0 <= j < |events| ==> KeyCommand(events[j].key) != Quit
    ensures var r := Run(s, events);
      && !r.quit
      && (forall now :: PhaseAt(r.state, now) == Idle)
      && r.state.playerMove == "" && r.state.computerMove == "" && r.state.resultText == ""
    decreases |events|
  {
    var stepped := Step(s, events[0].frame);
    if |events| == 1 {
      assert events[1..] == [];
    } else {
      var next := if KeyCommand(events[0].key) == RestartRound then Restart(stepped.state) else stepped.state;
      assert events[1..][|events[1..]| - 1] == events[|events| - 1];
      RunEndingInRestart(next, events[1..]);
    }
  }

  /** The invariant holds through any run of the loop, restarts included. */
  lemma {:induction false} RunPreservesInv(s: GameState, events: seq<Event>)
    requires ValidEvents(events)
    requires Inv(s)
    ensures Inv(Run(s, events).state)
    decreases |events|
  {
    if |events| > 0 {
      var stepped := Step(s, events[0].frame);
      StepPreservesInv(s, events[0].frame);
      assert ValidEvents(events[1..]) by {
        forall i | 0 <= i < |events[1..]| ensures ValidFrame(events[1..][i].frame) {
          assert events[1..][i] == events[i + 1];
        }
      }
      match KeyCommand(events[0].key)
      case Quit =>
      case RestartRound => RunPreservesInv(Restart(stepped.state), events[1..]);
      case _ => RunPreservesInv(stepped.state, events[1..]);
    }
  }
}
