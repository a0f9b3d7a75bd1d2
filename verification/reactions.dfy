/** The reaction message shown with a result, chosen by the player's emotion
    and the result string. */
module Reactions {
  import opened Options
  import opened Emotions
  import opened Resolver

  /** The fifteen-entry table, keyed by emotion name and then by result text. */
  const Table: map<string, map<string, string>> := map[
    "happy" := map[
      "You Win!" := "Great! Your happiness helped you win!",
      "Computer Wins!" := "Stay positive! Your smile is still winning!",
      "Draw!" := "Happy with the tie! Keep smiling!"],
    "sad" := map[
      "You Win!" := "Cheer up! You won this round!",
      "Computer Wins!" := "Don't be sad, try again!",
      "Draw!" := "A tie! Maybe that will cheer you up!"],
    "surprised" := map[
      "You Win!" := "Surprise! You won!",
      "Computer Wins!" := "Surprised by the loss? Try again!",
      "Draw!" := "Surprising tie!"],
    "sleepy" := map[
      "You Win!" := "Even sleepy, you won!",
      "Computer Wins!" := "Wake up for the next round!",
      "Draw!" := "Sleepy tie! Need some coffee?"],
    "neutral" := map[
      "You Win!" := "Nice win!",
      "Computer Wins!" := "Better luck next time!",
      "Draw!" := "It's a tie!"]]

  /** The lookup: an unknown emotion uses the neutral row, and a result string
      missing from the row is returned as it is. */
  function EmotionReaction(emotion: string, result: string): (r: string)
    ensures result != "You Win!" && result != "Computer Wins!" && result != "Draw!" ==> r == result
    ensures result == "You Win!" || result == "Computer Wins!" || result == "Draw!" ==> r != "" && r != result
  {
    var row := if emotion in Table then Table[emotion] else Table["neutral"];
    if result in row then row[result] else result
  }

  /** The same table written per emotion and outcome. */
  function Message(e: Emotion, o: Outcome): string
  {
    match (e, o)
    case (Happy, PlayerWins) => "Great! Your happiness helped you win!"
    case (Happy, ComputerWins) => "Stay positive! Your smile is still winning!"
    case (Happy, Draw) => "Happy with the tie! Keep smiling!"
    case (Sad, PlayerWins) => "Cheer up! You won this round!"
    case (Sad, ComputerWins) => "Don't be sad, try again!"
    case (Sad, Draw) => "A tie! Maybe that will cheer you up!"
    case (Surprised, PlayerWins) => "Surprise! You won!"
    case (Surprised, ComputerWins) => "Surprised by the loss? Try again!"
    case (Surprised, Draw) => "Surprising tie!"
    case (Sleepy, PlayerWins) => "Even sleepy, you won!"
    case (Sleepy, ComputerWins) => "Wake up for the next round!"
    case (Sleepy, Draw) => "Sleepy tie! Need some coffee?"
    case (Neutral, PlayerWins) => "Nice win!"
    case (Neutral, ComputerWins) => "Better luck next time!"
    case (Neutral, Draw) => "It's a tie!"
  }

  /** Every one of the fifteen known keys finds its table entry. */
  lemma KnownKeysUseTable(e: Emotion, o: Outcome)
    ensures EmotionReaction(e.Name(), o.Text()) == Message(e, o)
  {
  }

  /** A string that names no emotion falls back to the neutral row. */
  lemma UnknownEmotionUsesNeutralRow(emotion: string, o: Outcome)
    requires ParseEmotion(emotion) == None
    ensures EmotionReaction(emotion, o.Text()) == Message(Neutral, o)
  {
  }

  /** A result string that is not one of the three outcome texts is echoed. */
  lemma UnknownResultEchoed(emotion: string, result: string)
    requires result != "You Win!" && result != "Computer Wins!" && result != "Draw!"
    ensures EmotionReaction(emotion, result) == result
  {
  }

  /** For a known outcome the lookup never echoes the key and never gives the
      empty string, whatever the emotion string. */
  lemma KnownResultNeverEchoed(emotion: string, o: Outcome)
    ensures EmotionReaction(emotion, o.Text()) != o.Text()
    ensures EmotionReaction(emotion, o.Text()) != ""
  {
    match ParseEmotion(emotion)
    case Some(e) => KnownKeysUseTable(e, o);
    case None => UnknownEmotionUsesNeutralRow(emotion, o);
  }

  /** Within one emotion's row the three messages differ, so the message on
      show determines the outcome of the round. */
  lemma MessageIdentifiesOutcome(e: Emotion, o: Outcome, o': Outcome)
    requires Message(e, o) == Message(e, o')
    ensures o == o'
  {
  }
}
