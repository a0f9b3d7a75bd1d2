# Live rock-paper-scissors: a Dafny model of the game logic

This project models the game logic of `live_rsp.py`, a webcam rock-paper-scissors game.
Each camera frame goes through the same steps:

- A landmark detector reports hands and faces.
- A classifier turns the first hand into rock, paper, scissors or nothing.
- A second classifier turns a face mesh into one of five emotions (happy, sad, surprised, sleepy, neutral), each with a confidence.
- A per-frame state machine runs a three-second countdown, then captures the hand gesture.
- The resolver scores the round against the computer's random gesture.
- A reaction table picks the message shown with the result.

The detector, the clock, the random draw and the keyboard are inputs of the model. Audio cues are counted as beeps.

Modules, one per component:

- `Numeric`: covers Python's `abs`, two-argument `min`, and `int()` truncation toward zero.
- `Landmarks`: defines a landmark point (`x`, `y`).
- `Gestures`: the hand classifier.
- `Emotions`: the face measurements, the ordered emotion rules, and the same rules restated as an explicit rule list.
- `Resolver`: the win/lose/draw decision and the two score counters.
- `Reactions`: the 15-entry reaction table with its fallbacks.
- `Game`: the game state, the per-frame `Step`, the `r` restart, the key decoding and the main loop `Run`.
- `Scenarios`: whole rounds played on concrete frames.

The model follows the code as written, including these details:

- The frame that starts the countdown beeps twice, at lines 423 and 457, not once.
- The countdown beep sounds on every countdown frame whose remaining count is at most three, not only when the count changes. With a duration of 3, that is every frame unless the clock has gone back by a second or more.
- The capture loop at lines 463-476 has no early exit. Two recognised hands in one frame resolve the round twice. The score can therefore rise by two in one round, and the displayed result is the last hand's.
- Capture needs the face detector to see a face on the capture frame too (line 416). It does not need only a hand.

## Model

| member | source | states |
|---|---|---|
| Numeric.Trunc | live_rsp.py:425 | `int()` of a float truncates toward zero: the result is the integer between 0 and the value within distance less than one |
| Gestures.GetHandGesture | live_rsp.py:319-334 | an empty hand list yields no gesture |
| Gestures.GestureByFingers | live_rsp.py:319-334 | rock exactly when all five fingers are retracted, paper exactly when all five are extended, scissors exactly for index and middle alone; no gesture exactly for the other patterns |
| Gestures.OnlyFirstHandRead | live_rsp.py:320-321 | only the first hand of the list affects the result; any hands after it are ignored |
| Gestures.PatternRoundTrip | live_rsp.py:328-333 | each gesture has exactly one recognised pattern, and that pattern classifies back to the gesture |
| Gestures.EveryPatternRealisable | live_rsp.py:322-326 | every one of the 32 finger patterns is produced by some hand, so the rejected patterns occur on real landmark data |
| Gestures.EveryGestureRecognisable | live_rsp.py:324-333 | each of rock, paper and scissors is returned for some single-hand list |
| Gestures.NameRoundTrip | live_rsp.py:329-333 | the three gesture strings are distinct and parse back to their gesture |
| Emotions.EmotionNameRoundTrip | live_rsp.py:299-317 | the five emotion strings are distinct and parse back to their emotion |
| Emotions.ComputeMetrics | live_rsp.py:263-290 | all measured distances and ratios except the signed smile curve are non-negative; with a zero mouth width, openness, lip drop and smile curve are zero; otherwise openness times width is the mouth height |
| Emotions.Classify | live_rsp.py:294-317 | the confidence lies in [0, 1]; with a zero mouth width the result can only be sleepy or neutral, so the unguarded division at line 302 never sees a zero divisor |
| Emotions.DetectEmotion | live_rsp.py:225-317 | no face gives neutral with confidence 0; a zero confidence occurs only then; every confidence lies in [0, 1] |
| Emotions.HappyGuardUsesOpenness | live_rsp.py:265-302 | where the happy rule is evaluated the mouth width is positive and the unguarded height/width ratio equals the guarded openness |
| Emotions.ClassifyIsFirstMatch | live_rsp.py:294-317 | the cascade equals trying the rules surprised, happy, sad, sleepy in that order and falling back to neutral 0.6 |
| Emotions.ClassifyPriority | live_rsp.py:294-317 | an emotion is reported if and only if its rule fires and no earlier rule does |
| Emotions.NeutralFallback | live_rsp.py:316-317 | neutral is reported exactly when none of the four rules fires, and then with confidence 0.6 |
| Emotions.SurprisedBeforeHappy | live_rsp.py:294-304 | a face meeting both the surprised and the happy thresholds reads as surprised |
| Emotions.ZeroWidthMouth | live_rsp.py:263-273 | with both mouth corners at the same x, openness, lip drop and smile curve are zero and the emotion is sleepy or neutral |
| Resolver.DecideWinner | live_rsp.py:336-348 | the outcome is the one the cycle rule `Judge` gives (each gesture beats the one before it on rock, paper, scissors); a draw exactly on equal gestures with both scores unchanged; a player win raises only the player score by one; a computer win raises only the computer score by one |
| Resolver.DecideWinnerFollowsCycle | live_rsp.py:339-348 | the player wins exactly when its gesture follows the computer's on the cycle rock, paper, scissors, and loses exactly in the reverse case |
| Resolver.SwapExchangesWinAndLoss | live_rsp.py:341-347 | for two different gestures, swapping them turns a player win into a computer win and back |
| Resolver.OneCounterMoves | live_rsp.py:339-348 | a decided round adds one to the total score and a draw adds nothing; neither counter decreases |
| Reactions.KnownKeysUseTable | live_rsp.py:352-378 | each of the 15 emotion/result keys returns its table entry |
| Reactions.UnknownEmotionUsesNeutralRow | live_rsp.py:379 | a string naming no emotion uses the neutral row |
| Reactions.UnknownResultEchoed | live_rsp.py:379 | a result string that is not one of the three result texts is returned unchanged |
| Reactions.KnownResultNeverEchoed | live_rsp.py:352-379 | for any emotion string and a known result, the message is non-empty and differs from the result text |
| Reactions.MessageIdentifiesOutcome | live_rsp.py:352-378 | within each emotion row the three messages differ, so the message shown determines the result |
| Game.InitialSatisfiesInv | live_rsp.py:204-214 | the starting state satisfies the game invariant: no result or moves while the round is active |
| Game.UpdateEmotion | live_rsp.py:402-404 | the last face mesh of the frame decides the stored emotion; with none it is kept; nothing but the emotion changes; the confidence stays in [0, 1] |
| Game.ResolveRound | live_rsp.py:469-476 | a recognised hand stores both moves as gesture names, updates the score for the outcome, stores the non-empty reaction for the current emotion, and clears both round flags |
| Game.CaptureHands | live_rsp.py:462-476 | with no recognised hand nothing changes; otherwise the round is over and shows the last recognised hand's moves; each counter rises by the number of recognised hands with that outcome |
| Game.CaptureShowsLastResult | live_rsp.py:467-473 | the message left on show is the reaction, for the frame's emotion, to the last recognised hand's outcome |
| Game.Step | live_rsp.py:402-476 | the stored emotion is the one the frame's face meshes give (the last mesh, or the old emotion with none); without a face or an active round, the round and scores are unchanged and nothing beeps; at most two beeps per frame; scores never decrease |
| Game.StepPreservesInv | live_rsp.py:416-476 | every frame keeps the invariant: result and moves shown exactly when the round is over, no pending countdown then, confidence in [0, 1] |
| Game.StepStartsCountdown | live_rsp.py:420-457 | the first face frame of an active round records the frame time as start, starts the countdown and beeps twice, leaving scores and result unchanged |
| Game.StepTicksDuringCountdown | live_rsp.py:425-457 | while 0 <= elapsed < 3, a face frame beeps once and changes nothing but the emotion |
| Game.StepSilentWhenClockGoesBack | live_rsp.py:425-457 | when the clock reads a second or more before the start time, the countdown continues without a beep |
| Game.StepCaptures | live_rsp.py:459-476 | once three seconds have elapsed, a face frame does not beep and its new state is the capture loop run on the state carrying this frame's emotion; with no recognised hand the round keeps waiting, with one it is resolved |
| Game.StepMovesForward | live_rsp.py:416-476 | within a frame the phase only moves forward through idle, counting down, capturing and resolved; a resolved round stays resolved |
| Game.Restart | live_rsp.py:621-626 | restart keeps both scores and the emotion, clears moves and result, puts the round back to idle and keeps the invariant |
| Game.Run | live_rsp.py:387-630 | over any run of frames and keys, neither score decreases and there are at most two beeps per frame; the run reports quitting exactly when some key is `q` |
| Game.KeyCommand | live_rsp.py:618-629 | the key code is masked to its low byte: quit exactly for `q`, restart exactly for `r`, overlay toggle exactly for `l` or `L` |
| Game.RunQuitsAtOnce | live_rsp.py:618-620 | a `q` ends the loop right after that frame's step |
| Game.RunContinues | live_rsp.py:618-626 | any other key hands the rest of the run the stepped state, restarted first when the key is `r` |
| Game.RunStopsAtQuit | live_rsp.py:618-620 | frames after the first `q` have no effect on the run |
| Game.RunEndingInRestart | live_rsp.py:621-626 | a run whose last key is `r`, with no `q`, ends idle with moves and result cleared |
| Game.PhaseAt | live_rsp.py:416-428 | resolved exactly when the round is inactive, idle exactly when it is active with no countdown started; counting down and capturing are told apart by the elapsed time against the three-second duration |
| Reactions.EmotionReaction | live_rsp.py:350-379 | a result string outside the three result texts is returned as it is; one of the three gives a non-empty message different from it |
| Game.RunPreservesInv | live_rsp.py:387-630 | the invariant holds after any run of the main loop, restarts included |
| Scenarios.Fist | live_rsp.py:324-329 | a hand whose finger tips all lie below their joints, with the thumb tip right of its joint, is classified as rock |
| Scenarios.RunOneQuietFrame | live_rsp.py:618-630 | with no key pressed, one pass of the loop is exactly that frame's step |
| Scenarios.FirstFaceFrame | live_rsp.py:420-457 | a fresh game's first face frame at time 0 starts the countdown at 0 and beeps twice |
| Scenarios.FistCaptured | live_rsp.py:459-476 | at 3.1 s a fist against scissors resolves the waiting round, without a beep |
| Scenarios.FistBeatsScissorsResult | live_rsp.py:469-476 | fist against scissors with a neutral face scores 1-0 and shows "Nice win!" |
| Scenarios.FistBeatsScissorsRound | live_rsp.py:387-476 | face at 0 s, fist at 3.1 s, computer scissors: the round ends resolved, 1-0, moves rock and scissors, message "Nice win!", two beeps in all |
| Scenarios.TwoHandsScoreTwice | live_rsp.py:463-476 | two fists against scissors in one capture frame score two points in one round |
| Scenarios.TwoHandsShowLastResult | live_rsp.py:463-476 | fists against scissors then paper score 1-1 while only the loss message is shown |

## Left out

- Camera enumeration, resolution probing and warm-up (lines 25-174): device I/O.
- Display sizing, UI scaling and every overlay drawn on the frame (lines 176-196, 427-454, 478-616): rendering only. The countdown text and pulse arithmetic are part of this.
- Detector construction and calls (lines 16-23, 398-399, 460, 480): the detector is an external black box. Its output is a `Frame` of landmark sequences plus a face-present flag. A hand is assumed to have 21 points and a face mesh more than 386, the highest index read.
- The failed camera read that ends the loop (lines 388-391): device I/O. A run of the model ends with its input or at `q`.
- `beep()` (lines 8-13): platform audio, counted as beeps instead.
- `random.choice` (line 471): replaced by one given computer gesture per detected hand. It is used only when that hand is recognised.
- `time.time()` (lines 421 and 425): replaced by one clock reading per frame. The two separate readings of the start frame are taken as the same instant.
- The `l` landmark-overlay toggle (lines 627-629): it changes only what is drawn, so `KeyCommand` decodes it and `Run` leaves the state unchanged. The `q` key ends the run.
- IEEE-754 float behaviour: emotion measurements are exact reals. Bit-level parity with floating point is not claimed.
- Gesture and result strings passed to `decide_winner` are modelled as the `Gesture` type. The game only ever passes the three gesture names.
- Python's `None` hand list is modelled as the empty sequence, which the source treats the same way.
- Emotions.ComputeMetrics: the contract states the ranges and zero-width facts of the measurements, not each formula. The formulas are the function body, and the classifier's lemmas use only those facts.
