/** The hand-gesture classifier: one hand's 21 landmarks become rock, paper,
    scissors or nothing, through a five-finger "extended" pattern. */
module Gestures {
  import opened Options
  import opened Landmarks

  datatype Gesture = Rock | Paper | Scissors {

    /** The string the game stores and compares for this gesture. */
    function Name(): string
    {
      match this
      case Rock => "rock"
      case Paper => "paper"
      case Scissors => "scissors"
    }
  }

  /** Reads a stored move string back as a gesture. */
  function ParseGesture(s: string): (r: Option<Gesture>)
    ensures r.Some? ==> r.value.Name() == s
  {
    if s == "rock" then Some(Rock)
    else if s == "paper" then Some(Paper)
    else if s == "scissors" then Some(Scissors)
    else None
  }

  /** Every gesture name parses back to its gesture, so names are distinct. */
  lemma NameRoundTrip(g: Gesture)
    ensures ParseGesture(g.Name()) == Some(g)
  {
  }

  /** A hand as the detector reports it has this many landmarks. */
  const HandSize: nat := 21

  /** Landmark indices of the hand model: thumb tip and the joint below it,
      and the tips of the index, middle, ring and little fingers. */
  const ThumbTip: nat := 4
  const ThumbJoint: nat := 3
  const IndexTip: nat := 8
  const MiddleTip: nat := 12
  const RingTip: nat := 16
  const PinkyTip: nat := 20

  /** The thumb counts as extended when its tip lies left of the joint below it. */
  predicate ThumbExtended(hand: seq<Point>)
    requires |hand| >= HandSize
  {
    hand[ThumbTip].x < hand[ThumbJoint].x
  }

  /** Another finger counts as extended when its tip lies above the joint two
      positions back along the same finger (smaller y is higher in the image). */
  predicate FingerExtended(hand: seq<Point>, tip: nat)
    requires 2 <= tip < |hand|
  {
    hand[tip].y < hand[tip - 2].y
  }

  /** The five-flag pattern (thumb, index, middle, ring, pinky). */
  function FingerStates(hand: seq<Point>): (p: seq<bool>)
    requires |hand| >= HandSize
    ensures |p| == 5
  {
    [ThumbExtended(hand),
     FingerExtended(hand, IndexTip),
     FingerExtended(hand, MiddleTip),
     FingerExtended(hand, RingTip),
     FingerExtended(hand, PinkyTip)]
  }

  const RockPattern: seq<bool> := [false, false, false, false, false]
  const PaperPattern: seq<bool> := [true, true, true, true, true]
  const ScissorsPattern: seq<bool> := [false, true, true, false, false]

  /** The three recognised patterns; every other pattern names no gesture. */
  function PatternGesture(p: seq<bool>): Option<Gesture>
  {
    if p == RockPattern then Some(Rock)
    else if p == PaperPattern then Some(Paper)
    else if p == ScissorsPattern then Some(Scissors)
    else None
  }

  /** The pattern that shows a gesture. */
  function PatternOf(g: Gesture): seq<bool>
  {
    match g
    case Rock => RockPattern
    case Paper => PaperPattern
    case Scissors => ScissorsPattern
  }

  /** PatternOf and PatternGesture are inverse: each gesture has exactly one pattern. */
  lemma PatternRoundTrip(p: seq<bool>, g: Gesture)
    ensures PatternGesture(PatternOf(g)) == Some(g)
    ensures PatternGesture(p) == Some(g) <==> p == PatternOf(g)
  {
  }

  /** The classifier. An empty hand list (Python's empty or absent list) yields
      nothing; otherwise only the first hand is read. */
  function GetHandGesture(hands: seq<seq<Point>>): (r: Option<Gesture>)
    requires |hands| > 0 ==> |hands[0]| >= HandSize
    ensures |hands| == 0 ==> r == None
  {
    if |hands| == 0 then None else PatternGesture(FingerStates(hands[0]))
  }

  /** The classification stated finger by finger: rock is a closed fist, paper
      an open hand, scissors the index and middle fingers alone, and any other
      combination of the five flags is rejected. */
  lemma GestureByFingers(hands: seq<seq<Point>>)
    requires |hands| > 0 && |hands[0]| >= HandSize
    ensures var h := hands[0];
      GetHandGesture(hands) == Some(Rock) <==>
        !ThumbExtended(h) && !FingerExtended(h, IndexTip) && !FingerExtended(h, MiddleTip)
        && !FingerExtended(h, RingTip) && !FingerExtended(h, PinkyTip)
    ensures var h := hands[0];
      GetHandGesture(hands) == Some(Paper) <==>
        ThumbExtended(h) && FingerExtended(h, IndexTip) && FingerExtended(h, MiddleTip)
        && FingerExtended(h, RingTip) && FingerExtended(h, PinkyTip)
    ensures var h := hands[0];
      GetHandGesture(hands) == Some(Scissors) <==>
        !ThumbExtended(h) && FingerExtended(h, IndexTip) && FingerExtended(h, MiddleTip)
        && !FingerExtended(h, RingTip) && !FingerExtended(h, PinkyTip)
    ensures GetHandGesture(hands) == None <==>
      FingerStates(hands[0]) !in {RockPattern, PaperPattern, ScissorsPattern}
  {
  }

  /** Only the first hand of the list matters. */
  lemma OnlyFirstHandRead(hands: seq<seq<Point>>, others: seq<seq<Point>>)
    requires |hands| > 0 && |hands[0]| >= HandSize
    ensures GetHandGesture(hands) == GetHandGesture([hands[0]] + others)
  {
  }

  /** A hand whose landmarks show the given pattern: joints sit at the centre,
      and each tip is placed on the extended or the retracted side. */
  function HandWithPattern(p: seq<bool>): (hand: seq<Point>)
    requires |p| == 5
    ensures |hand| == HandSize
  {
    seq(HandSize, i requires 0 <= i < HandSize =>
      if i == ThumbTip then Point(if p[0] then 0.25 else 0.75, 0.5)
      else if i == IndexTip then Point(0.5, if p[1] then 0.25 else 0.75)
      else if i == MiddleTip then Point(0.5, if p[2] then 0.25 else 0.75)
      else if i == RingTip then Point(0.5, if p[3] then 0.25 else 0.75)
      else if i == PinkyTip then Point(0.5, if p[4] then 0.25 else 0.75)
      else Point(0.5, 0.5))
  }

  /** Every one of the 32 patterns is shown by some hand, so the 29 patterns the
      classifier rejects are all reachable from real landmark data. */
  lemma {:induction false} EveryPatternRealisable(p: seq<bool>)
    requires |p| == 5
    ensures FingerStates(HandWithPattern(p)) == p
  {
    var h := HandWithPattern(p);
    assert h[ThumbTip].x < h[ThumbJoint].x <==> p[0];
    assert h[IndexTip].y < h[IndexTip - 2].y <==> p[1];
    assert h[MiddleTip].y < h[MiddleTip - 2].y <==> p[2];
    assert h[RingTip].y < h[RingTip - 2].y <==> p[3];
    assert h[PinkyTip].y < h[PinkyTip - 2].y <==> p[4];
  }

  /** Hence each gesture is produced by some hand. */
  lemma EveryGestureRecognisable(g: Gesture)
    ensures GetHandGesture([HandWithPattern(PatternOf(g))]) == Some(g)
  {
    EveryPatternRealisable(PatternOf(g));
  }
}
