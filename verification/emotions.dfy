/** The emotion classifier: a face mesh becomes one of five coarse emotions
    with a confidence, through a handful of mouth, eye and eyebrow ratios and
    an ordered list of threshold rules. */
module Emotions {
  import opened Options
  import opened Numeric
  import opened Landmarks

  datatype Emotion = Happy | Sad | Surprised | Sleepy | Neutral {

    /** The string the game stores and uses as the reaction-table key. */
    function Name(): string
    {
      match this
      case Happy => "happy"
      case Sad => "sad"
      case Surprised => "surprised"
      case Sleepy => "sleepy"
      case Neutral => "neutral"
    }
  }

  /** Reads an emotion string back; strings outside the five names give None. */
  function ParseEmotion(s: string): (r: Option<Emotion>)
    ensures r.Some? ==> r.value.Name() == s
  {
    if s == "happy" then Some(Happy)
    else if s == "sad" then Some(Sad)
    else if s == "surprised" then Some(Surprised)
    else if s == "sleepy" then Some(Sleepy)
    else if s == "neutral" then Some(Neutral)
    else None
  }

  lemma EmotionNameRoundTrip(e: Emotion)
    ensures ParseEmotion(e.Name()) == Some(e)
  {
  }

  /** What the classifier returns: the label and its confidence. */
  datatype Reading = Reading(emotion: Emotion, confidence: real)

  /** Face-mesh landmark indices read by the classifier. */
  const MouthLeft: nat := 61
  const MouthRight: nat := 291
  const UpperLip: nat := 12
  const LowerLip: nat := 15
  const LeftEyeTop: nat := 159
  const LeftEyeBottom: nat := 145
  const RightEyeTop: nat := 386
  const RightEyeBottom: nat := 374
  const LeftEyeInner: nat := 133
  const LeftEyeOuter: nat := 33
  const RightEyeInner: nat := 362
  const RightEyeOuter: nat := 263
  const LeftEyebrowInner: nat := 70
  const RightEyebrowInner: nat := 300

  /** The highest index read; a mesh must have more points than this. */
  const MaxFaceIndex: nat := 386

  /** The per-frame face measurements the rules are stated over. */
  datatype Metrics = Metrics(
    mouthWidth: real,
    mouthHeight: real,
    mouthOpenness: real,
    lowerLipDrop: real,
    smileCurve: real,
    eyeAspectRatio: real,
    eyebrowHeight: real)

  /** What every measured face satisfies: distances and ratios are non-negative,
      the ratios over the mouth width are zero when that width is zero, and the
      openness is the mouth height over its width otherwise. */
  ghost predicate WellFormed(m: Metrics)
  {
    && m.mouthWidth >= 0.0
    && m.mouthHeight >= 0.0
    && m.mouthOpenness >= 0.0
    && m.lowerLipDrop >= 0.0
    && m.eyeAspectRatio >= 0.0
    && m.eyebrowHeight >= 0.0
    && (m.mouthWidth == 0.0 ==> m.mouthOpenness == 0.0 && m.lowerLipDrop == 0.0 && m.smileCurve == 0.0)
    && (m.mouthWidth > 0.0 ==> m.mouthOpenness * m.mouthWidth == m.mouthHeight)
  }

  /** The measurements, each ratio guarded against a zero divisor. */
  function ComputeMetrics(face: seq<Point>): (m: Metrics)
    requires |face| > MaxFaceIndex
    ensures WellFormed(m)
  {
    var mouthWidth := Abs(face[MouthRight].x - face[MouthLeft].x);
    var mouthHeight := Abs(face[UpperLip].y - face[LowerLip].y);
    var mouthOpenness := if mouthWidth > 0.0 then mouthHeight / mouthWidth else 0.0;
    var mouthCenterY := (face[MouthLeft].y + face[MouthRight].y) / 2.0;
    var lowerLipDrop :=
      if mouthWidth > 0.0 then Abs(face[LowerLip].y - mouthCenterY) / mouthWidth else 0.0;
    var lipCenterY := (face[UpperLip].y + face[LowerLip].y) / 2.0;
    var smileCurve := if mouthWidth > 0.0 then (mouthCenterY - lipCenterY) / mouthWidth else 0.0;
    var avgEyeHeight :=
      (Abs(face[LeftEyeTop].y - face[LeftEyeBottom].y) + Abs(face[RightEyeTop].y - face[RightEyeBottom].y)) / 2.0;
    var avgEyeWidth :=
      (Abs(face[LeftEyeOuter].x - face[LeftEyeInner].x) + Abs(face[RightEyeOuter].x - face[RightEyeInner].x)) / 2.0;
    var eyeAspectRatio := if avgEyeWidth > 0.0 then avgEyeHeight / avgEyeWidth else 0.0;
    var eyebrowHeight :=
      (Abs(face[LeftEyebrowInner].y - face[LeftEyeTop].y) + Abs(face[RightEyebrowInner].y - face[RightEyeTop].y)) / 2.0;
    Metrics(mouthWidth, mouthHeight, mouthOpenness, lowerLipDrop, smileCurve, eyeAspectRatio, eyebrowHeight)
  }

  /** The decision cascade, first matching rule wins: surprised, happy, sad,
      sleepy, otherwise neutral. The happy rule divides the mouth height by the
      mouth width with no guard of its own; it is reached only when the smile
      curve is negative, which a zero width rules out. */
  function Classify(m: Metrics): (r: Reading)
    requires WellFormed(m)
    ensures 0.0 <= r.confidence <= 1.0
    ensures m.mouthWidth == 0.0 ==> r.emotion == Sleepy || r.emotion == Neutral
  {
    if m.mouthOpenness > 0.15 && m.lowerLipDrop > 0.02 && m.eyeAspectRatio > 0.25 && m.eyebrowHeight > 0.03 then
      Reading(Surprised, Min((m.mouthOpenness + m.eyeAspectRatio + m.eyebrowHeight) * 2.0, 1.0))
    else if m.smileCurve < -0.003 && m.mouthHeight / m.mouthWidth > 0.05 then
      Reading(Happy, Min(Abs(m.smileCurve) * 200.0, 1.0))
    else if m.smileCurve > 0.002 then
      Reading(Sad, Min(m.smileCurve * 200.0, 1.0))
    else if m.eyeAspectRatio < 0.15 then
      Reading(Sleepy, Min((0.2 - m.eyeAspectRatio) * 3.0, 1.0))
    else
      Reading(Neutral, 0.6)
  }

  /** The classifier on an optional face: no face reads as neutral with zero
      confidence. */
  function DetectEmotion(face: Option<seq<Point>>): (r: Reading)
    requires face.Some? ==> |face.value| > MaxFaceIndex
    ensures 0.0 <= r.confidence <= 1.0
    ensures face.None? ==> r == Reading(Neutral, 0.0)
    ensures r.confidence == 0.0 ==> face.None?
  {
    match face
    case None => Reading(Neutral, 0.0)
    case Some(f) => Classify(ComputeMetrics(f))
  }

  // The same classifier restated as an explicit ordered rule list.

  /** The order in which the rules are tried. */
  const RuleOrder: seq<Emotion> := [Surprised, Happy, Sad, Sleepy]

  /** Position of an emotion's rule; the neutral fallback comes last. */
  function Rank(e: Emotion): nat
  {
    match e
    case Surprised => 0
    case Happy => 1
    case Sad => 2
    case Sleepy => 3
    case Neutral => 4
  }

  /** Whether an emotion's rule fires. The happy rule is written with the
      guarded openness ratio instead of the raw division. */
  ghost predicate Fires(e: Emotion, m: Metrics)
  {
    match e
    case Surprised =>
      m.mouthOpenness > 0.15 && m.lowerLipDrop > 0.02 && m.eyeAspectRatio > 0.25 && m.eyebrowHeight > 0.03
    case Happy => m.smileCurve < -0.003 && m.mouthOpenness > 0.05
    case Sad => m.smileCurve > 0.002
    case Sleepy => m.eyeAspectRatio < 0.15
    case Neutral => true
  }

  /** The confidence a firing rule reports, capped at one. */
  ghost function RuleConfidence(e: Emotion, m: Metrics): real
  {
    match e
    case Surprised => Min((m.mouthOpenness + m.eyeAspectRatio + m.eyebrowHeight) * 2.0, 1.0)
    case Happy => Min(Abs(m.smileCurve) * 200.0, 1.0)
    case Sad => Min(m.smileCurve * 200.0, 1.0)
    case Sleepy => Min((0.2 - m.eyeAspectRatio) * 3.0, 1.0)
    case Neutral => 0.6
  }

  /** Tries the rules in order; the first that fires decides. */
  ghost function FirstMatch(rules: seq<Emotion>, m: Metrics): Reading
    decreases |rules|
  {
    if |rules| == 0 then Reading(Neutral, 0.6)
    else if Fires(rules[0], m) then Reading(rules[0], RuleConfidence(rules[0], m))
    else FirstMatch(rules[1..], m)
  }

  /** The happy rule's unguarded ratio equals the guarded openness wherever
      that rule is evaluated. */
  lemma HappyGuardUsesOpenness(m: Metrics)
    requires WellFormed(m)
    requires m.smileCurve < -0.003
    ensures m.mouthWidth > 0.0
    ensures m.mouthHeight / m.mouthWidth == m.mouthOpenness
  {
  }

  /** The cascade is the rule list tried in order. */
  lemma ClassifyIsFirstMatch(m: Metrics)
    requires WellFormed(m)
    ensures Classify(m) == FirstMatch(RuleOrder, m)
  {
    if m.smileCurve < -0.003 {
      HappyGuardUsesOpenness(m);
    }
  }

  /** First match wins: an emotion is reported exactly when its rule fires and
      no rule tried before it does; neutral exactly when no rule fires. */
  lemma ClassifyPriority(m: Metrics, e: Emotion)
    requires WellFormed(m)
    ensures Classify(m).emotion == e <==>
      Fires(e, m) && forall e': Emotion :: Rank(e') < Rank(e) ==> !Fires(e', m)
  {
    ClassifyIsFirstMatch(m);
    assert Rank(Surprised) == 0 && Rank(Happy) == 1 && Rank(Sad) == 2 && Rank(Sleepy) == 3;
  }

  /** Neutral is only the fallback, and always with confidence 0.6. */
  lemma NeutralFallback(m: Metrics)
    requires WellFormed(m)
    ensures Classify(m).emotion == Neutral <==>
      !Fires(Surprised, m) && !Fires(Happy, m) && !Fires(Sad, m) && !Fires(Sleepy, m)
    ensures Classify(m).emotion == Neutral ==> Classify(m).confidence == 0.6
  {
    ClassifyIsFirstMatch(m);
  }

  /** A face meeting both the surprised and the happy thresholds reads as surprised. */
  lemma SurprisedBeforeHappy(m: Metrics)
    requires WellFormed(m)
    requires Fires(Surprised, m) && Fires(Happy, m)
    ensures Classify(m).emotion == Surprised
  {
  }

  /** On a face whose mouth corners share an x coordinate, every ratio over the
      mouth width is zero and only the sleepy or neutral outcome is possible. */
  lemma ZeroWidthMouth(face: seq<Point>)
    requires |face| > MaxFaceIndex
    requires face[MouthLeft].x == face[MouthRight].x
    ensures var m := ComputeMetrics(face);
      m.mouthOpenness == 0.0 && m.lowerLipDrop == 0.0 && m.smileCurve == 0.0
    ensures DetectEmotion(Some(face)).emotion in {Sleepy, Neutral}
  {
  }
}
