/** Deciding a round: the player's gesture against the computer's, with the
    two cumulative scores. */
module Resolver {
  import opened Gestures

  datatype Outcome = PlayerWins | ComputerWins | Draw {

    /** The result string the game shows and uses as the reaction-table key. */
    function Text(): string
    {
      match this
      case PlayerWins => "You Win!"
      case ComputerWins => "Computer Wins!"
      case Draw => "Draw!"
    }
  }

  /** The two score counters, player first. */
  datatype ScoreBoard = ScoreBoard(player: nat, computer: nat)

  /** Decides the round and returns the updated scores: a draw on equal
      gestures, a player win for rock on scissors, scissors on paper and paper
      on rock, a computer win for every other pair. */
  function DecideWinner(player: Gesture, computer: Gesture, board: ScoreBoard): (r: (Outcome, ScoreBoard))
    ensures r.0 == Judge(player, computer)
    ensures r.0 == Draw <==> player == computer
    ensures r.0 == Draw ==> r.1 == board
    ensures r.0 == PlayerWins ==> r.1 == ScoreBoard(board.player + 1, board.computer)
    ensures r.0 == ComputerWins ==> r.1 == ScoreBoard(board.player, board.computer + 1)
  {
    if player == computer then
      (Draw, board)
    else if (player == Rock && computer == Scissors)
         || (player == Scissors && computer == Paper)
         || (player == Paper && computer == Rock) then
      (PlayerWins, board.(player := board.player + 1))
    else
      (ComputerWins, board.(computer := board.computer + 1))
  }

  /** Position of a gesture on the cycle rock, paper, scissors. */
  function CycleIndex(g: Gesture): int
  {
    match g
    case Rock => 0
    case Paper => 1
    case Scissors => 2
  }

  /** Independent statement of the rules: each gesture beats the one just
      before it on the cycle. */
  predicate Beats(a: Gesture, b: Gesture)
  {
    (CycleIndex(a) - CycleIndex(b)) % 3 == 1
  }

  /** The outcome by the cycle rule alone, with no scores involved. */
  function Judge(player: Gesture, computer: Gesture): Outcome
  {
    if player == computer then Draw
    else if Beats(player, computer) then PlayerWins
    else ComputerWins
  }

  /** The outcome depends only on the two gestures and follows the cycle. */
  lemma DecideWinnerFollowsCycle(player: Gesture, computer: Gesture, board: ScoreBoard)
    ensures DecideWinner(player, computer, board).0 == PlayerWins <==> Beats(player, computer)
    ensures DecideWinner(player, computer, board).0 == ComputerWins <==> Beats(computer, player)
  {
  }

  /** Swapping two different gestures swaps a win for a loss. */
  lemma SwapExchangesWinAndLoss(a: Gesture, b: Gesture, board: ScoreBoard, board': ScoreBoard)
    requires a != b
    ensures DecideWinner(a, b, board).0 == PlayerWins <==> DecideWinner(b, a, board').0 == ComputerWins
  {
    DecideWinnerFollowsCycle(a, b, board);
    DecideWinnerFollowsCycle(b, a, board');
  }

  /** A decided round moves exactly one counter by one; a draw moves none. */
  lemma OneCounterMoves(player: Gesture, computer: Gesture, board: ScoreBoard)
    ensures var r := DecideWinner(player, computer, board);
      r.1.player + r.1.computer == board.player + board.computer + (if r.0 == Draw then 0 else 1)
    ensures var r := DecideWinner(player, computer, board);
      r.1.player >= board.player && r.1.computer >= board.computer
  {
  }
}
