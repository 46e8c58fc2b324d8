/**
 * The game state machine of the page: the board, the player to move, whether
 * the round is still being played, and the running score of each player.
 */
module Game {
  import opened Board

  /** Rounds won by each player since the scores were last cleared. */
  datatype Scores = Scores(x: nat, o: nat)
  {
    function Get(p: Player): nat {
      match p
      case X => x
      case O => o
    }

    /** One more round won by `p`; the other player's score stays. */
    function Credit(p: Player): (s: Scores)
      ensures s.Get(p) == Get(p) + 1
      ensures s.Get(Other(p)) == Get(Other(p))
    {
      match p
      case X => Scores(x + 1, o)
      case O => Scores(x, o + 1)
    }
  }

  /**
   * What a click leads to: ignored, the round goes on, `winner` completed the
   * line WinLines[lineIndex] (the cells the page highlights), or a draw.
   */
  datatype Outcome = Rejected | Continue | Won(winner: Player, lineIndex: nat) | Draw

  class Game {
    var board: Grid
    var current: Player
    var active: bool
    var scores: Scores

    /**
     * While a round is being played no line is complete, some cell is empty
     * and the players have taken turns, `current` being the one to move.
     */
    ghost predicate Valid()
      reads this
    {
      active ==> !HasWin(board) && !Full(board) && Alternating(board, current)
    }

    /** The state when the page loads: an empty board, X to move, no points. */
    constructor ()
      ensures Valid()
      ensures board == EmptyGrid && current == X && active && scores == Scores(0, 0)
    {
      board := EmptyGrid;
      current := X;
      active := true;
      scores := Scores(0, 0);
      EmptyGridOpen();
    }

    /**
     * The guard of a click: the cell is free and the round is still being
     * played. Nothing is accepted once the round is over, and an accepted move
     * changes the board without replacing any mark already on it.
     */
    predicate Accepts(i: Index)
      reads this
      ensures Accepts(i) ==> active
      ensures Accepts(i) ==> board[i := Mark(current)] != board
      ensures Accepts(i) ==>
                forall j :: 0 <= j < |board| && board[j] != Empty ==> board[i := Mark(current)][j] == board[j]
    {
      board[i] == Empty && active
    }

    /**
     * A click on cell `i`. It is ignored when the cell is taken or the round is
     * over; otherwise the current player's mark goes into the cell, the result
     * is checked, and the turn passes to the other player if the round goes on.
     * The guard and the commit run as one step here.
     */
    method Click(i: Index) returns (outcome: Outcome)
      requires Valid()
      modifies this
      ensures Valid()
      ensures outcome == Rejected <==> !old(Accepts(i))
      ensures outcome == Rejected ==> unchanged(this)
      ensures outcome != Rejected ==> board == old(board)[i := Mark(old(current))]
      ensures outcome.Won? ==>
                && outcome.winner == old(current)
                && IsFirstWin(board, outcome.lineIndex)
                && !active && current == old(current)
                && scores == old(scores).Credit(old(current))
      ensures outcome == Draw ==>
                && !HasWin(board) && Full(board)
                && !active && current == old(current) && scores == old(scores)
      ensures outcome == Continue ==>
                && !HasWin(board) && !Full(board)
                && active && current == Other(old(current)) && scores == old(scores)
      // every complete line holds the mark of the player who was credited
      ensures outcome != Rejected ==>
                forall k :: 0 <= k < |WinLines| && Complete(board, WinLines[k]) ==>
                  WinLines[k].Contains(i) && board[WinLines[k].a] == Mark(old(current))
    {
      if !Accepts(i) {
        return Rejected;
      }
      MoverOwnsEveryWin(board, i, current);
      MoveKeepsAlternating(board, i, current);
      outcome := Commit(i);
    }

    /**
     * The deferred part of a click, which the page runs 50 ms after the guard
     * without checking it again: mark the cell, check the result, and pass the
     * turn if the round goes on.
     */
    method Commit(i: Index) returns (outcome: Outcome)
      modifies this
      ensures board == old(board)[i := Mark(old(current))]
      ensures outcome != Rejected
      ensures outcome.Won? ==>
                && outcome.winner == old(current)
                && IsFirstWin(board, outcome.lineIndex)
                && !active && current == old(current)
                && scores == old(scores).Credit(old(current))
      ensures outcome == Draw ==>
                && !HasWin(board) && Full(board)
                && !active && current == old(current) && scores == old(scores)
      ensures outcome == Continue ==>
                && !HasWin(board) && !Full(board)
                && active == old(active) && scores == old(scores)
                && current == if active then Other(old(current)) else old(current)
    {
      board := board[i := Mark(current)];
      outcome := ValidateResult();
      if active {
        SwitchPlayer();
      }
    }

    /**
     * Checks the board after a mark was placed: on a complete line the round
     * ends and the current player scores; on a full board the round ends in a
     * draw; otherwise nothing changes.
     */
    method ValidateResult() returns (outcome: Outcome)
      modifies this
      ensures board == old(board) && current == old(current)
      ensures outcome != Rejected
      ensures outcome.Won? ==>
                && outcome.winner == current
                && IsFirstWin(board, outcome.lineIndex)
                && !active && scores == old(scores).Credit(current)
      ensures outcome == Draw ==>
                !HasWin(board) && Full(board) && !active && scores == old(scores)
      ensures outcome == Continue ==>
                && !HasWin(board) && !Full(board)
                && active == old(active) && scores == old(scores)
    {
      var line := FindWinLine(board);
      if line.Some? {
        active := false;
        scores := scores.Credit(current);
        return Won(current, line.value);
      }
      if Empty !in board {
        active := false;
        return Draw;
      }
      return Continue;
    }

    /** Passes the turn to the other player. */
    method SwitchPlayer()
      modifies this`current
      ensures current == Other(old(current))
    {
      current := Other(current);
    }

    /** Starts a new round: empty board, game active; the player to move and the scores stay. */
    method ResetRound()
      modifies this
      ensures Valid()
      ensures board == EmptyGrid && active
      ensures current == old(current) && scores == old(scores)
    {
      board := EmptyGrid;
      active := true;
      EmptyGridOpen();
    }

    /** Zeroes both scores and starts a new round with X to move. */
    method ClearScores()
      modifies this
      ensures Valid()
      ensures scores == Scores(0, 0)
      ensures board == EmptyGrid && active && current == X
    {
      scores := Scores(0, 0);
      ResetRound();
      current := X;
      EmptyGridOpen();
    }
  }
}
