/**
 * Whole games played through the Game class, as a client of its contracts.
 * Each game returns what it ends with, so that its outcome is checked.
 */
module Scenarios {
  import opened Board
  import opened Game

  /** No winning line is complete, stated line by line so that a concrete board decides it. */
  predicate NoLine(b: Grid) {
    && !Complete(b, WinLines[0]) && !Complete(b, WinLines[1]) && !Complete(b, WinLines[2])
    && !Complete(b, WinLines[3]) && !Complete(b, WinLines[4]) && !Complete(b, WinLines[5])
    && !Complete(b, WinLines[6]) && !Complete(b, WinLines[7])
  }

  /** Line `k` is complete and the lines before it are not, stated line by line. */
  predicate FirstLineAt(b: Grid, k: nat) {
    && k < |WinLines| && Complete(b, WinLines[k])
    && (k >= 1 ==> !Complete(b, WinLines[0])) && (k >= 2 ==> !Complete(b, WinLines[1]))
    && (k >= 3 ==> !Complete(b, WinLines[2])) && (k >= 4 ==> !Complete(b, WinLines[3]))
    && (k >= 5 ==> !Complete(b, WinLines[4])) && (k >= 6 ==> !Complete(b, WinLines[5]))
    && (k >= 7 ==> !Complete(b, WinLines[6]))
  }

  /** A board with no complete line, line by line, has no win. */
  lemma NoLineNoWin(b: Grid)
    requires NoLine(b)
    ensures !HasWin(b)
  {
  }

  /** FirstLineAt is IsFirstWin written out line by line. */
  lemma FirstLineIsFirstWin(b: Grid, k: nat)
    requires FirstLineAt(b, k)
    ensures IsFirstWin(b, k)
  {
  }

  /** A click on cell `i` that completes no line; cell `e` stays empty, so the board is not full. */
  method PlayOn(g: Game, i: Index, e: Index)
    requires g.Valid() && g.active && g.board[i] == Empty
    requires e != i && g.board[e] == Empty
    requires NoLine(g.board[i := Mark(g.current)])
    modifies g
    ensures g.Valid() && g.active && g.scores == old(g.scores)
    ensures g.board == old(g.board)[i := Mark(old(g.current))]
    ensures g.current == Other(old(g.current))
  {
    NoLineNoWin(g.board[i := Mark(g.current)]);
    var r := g.Click(i);
    assert g.board[e] == Empty;
  }

  /** A click on cell `i` that completes line `k`, the first complete line in scan order. */
  method PlayWin(g: Game, i: Index, k: nat) returns (r: Outcome)
    requires g.Valid() && g.active && g.board[i] == Empty
    requires FirstLineAt(g.board[i := Mark(g.current)], k)
    modifies g
    ensures r == Won(old(g.current), k) && !g.active && g.current == old(g.current)
    ensures g.board == old(g.board)[i := Mark(old(g.current))]
    ensures g.scores == old(g.scores).Credit(old(g.current))
  {
    FirstLineIsFirstWin(g.board[i := Mark(g.current)], k);
    r := g.Click(i);
  }

  /** A click on the last empty cell `i` that completes no line: the round ends in a draw. */
  method PlayDraw(g: Game, i: Index) returns (r: Outcome)
    requires g.Valid() && g.active && g.board[i] == Empty
    requires forall j :: 0 <= j < |g.board| && j != i ==> g.board[j] != Empty
    requires NoLine(g.board[i := Mark(g.current)])
    modifies g
    ensures r == Draw && !g.active && g.scores == old(g.scores)
  {
    NoLineNoWin(g.board[i := Mark(g.current)]);
    r := g.Click(i);
  }

  /** X takes the top row (X@0, O@3, X@1, O@4, X@2) in two rounds one after the other. */
  method TopRowTwice() returns (afterTwoRounds: Scores, afterClear: Scores, starter: Player)
    ensures afterTwoRounds == Scores(2, 0)
    ensures afterClear == Scores(0, 0) && starter == X
  {
    var g := new Game();
    PlayOn(g, 0, 8); PlayOn(g, 3, 8); PlayOn(g, 1, 8); PlayOn(g, 4, 8);
    var r := PlayWin(g, 2, 0);
    // the round is over: a further click is ignored
    r := g.Click(8);
    assert r == Rejected;
    // the winner starts the next round
    g.ResetRound();
    assert g.current == X;
    PlayOn(g, 0, 8); PlayOn(g, 3, 8); PlayOn(g, 1, 8); PlayOn(g, 4, 8);
    r := PlayWin(g, 2, 0);
    afterTwoRounds := g.scores;
    g.ClearScores();
    afterClear, starter := g.scores, g.current;
  }

  /** X@0, O@1, X@2, O@4, X@3, O@5, X@7, O@6, X@8 fills the board with no line: a draw. */
  method FullBoardDraw() returns (outcome: Outcome, scores: Scores)
    ensures outcome == Draw && scores == Scores(0, 0)
  {
    var g := new Game();
    PlayOn(g, 0, 8);
    var r := g.Click(0);
    assert r == Rejected;
    PlayOn(g, 1, 8); PlayOn(g, 2, 8); PlayOn(g, 4, 8); PlayOn(g, 3, 8);
    PlayOn(g, 5, 8); PlayOn(g, 7, 8); PlayOn(g, 6, 8);
    outcome := PlayDraw(g, 8);
    scores := g.scores;
  }

  /**
   * X@0, O@1, X@2, O@3, X@4, O@6, X@7, O@5, X@8: the ninth move completes the
   * diagonal 0-4-8, so X wins with line 6 although the board is full.
   */
  method DiagonalOnLastMove() returns (outcome: Outcome, scores: Scores)
    ensures outcome == Won(X, 6) && scores == Scores(1, 0)
  {
    var g := new Game();
    PlayOn(g, 0, 8); PlayOn(g, 1, 8); PlayOn(g, 2, 8); PlayOn(g, 3, 8);
    PlayOn(g, 4, 8); PlayOn(g, 6, 8); PlayOn(g, 7, 8); PlayOn(g, 5, 8);
    outcome := PlayWin(g, 8, 6);
    scores := g.scores;
  }

  /**
   * X@1, O@0, X@3, O@2, X@5, O@6, X@7, O@8, X@4: the centre completes the
   * middle row (line 1) and the middle column (line 4) at once; the scan
   * reports the row.
   */
  method TwoLinesAtOnce() returns (outcome: Outcome, board: Grid)
    ensures outcome == Won(X, 1)
    ensures Complete(board, WinLines[1]) && Complete(board, WinLines[4])
  {
    var g := new Game();
    PlayOn(g, 1, 4); PlayOn(g, 0, 4); PlayOn(g, 3, 4); PlayOn(g, 2, 4);
    PlayOn(g, 5, 4); PlayOn(g, 6, 4); PlayOn(g, 7, 4); PlayOn(g, 8, 4);
    outcome := PlayWin(g, 4, 1);
    board := g.board;
  }

  /**
   * Two clicks on cell 0 within 50 ms: both pass the guard before either
   * commit runs, so O's commit overwrites X's mark and the turn comes back to X.
   */
  method RaceOnSameCell() returns (board: Grid, next: Player)
    ensures board == EmptyGrid[0 := Mark(O)] && next == X
  {
    var g := new Game();
    var firstAccepted := g.Accepts(0);
    var secondAccepted := g.Accepts(0);
    assert firstAccepted && secondAccepted;
    NoLineNoWin(g.board[0 := Mark(X)]);
    var r := g.Commit(0);
    assert g.board[8] == Empty;
    NoLineNoWin(g.board[0 := Mark(O)]);
    r := g.Commit(0);
    assert g.board[8] == Empty;
    board, next := g.board, g.current;
  }

  /**
   * After X@0, O@3, X@1, O@4, two clicks within 50 ms on cells 2 and 8: both
   * pass the guard; the first commit wins the round for X, and the second
   * places another X after the round is over and credits X a second time.
   */
  method RaceAfterWin() returns (scores: Scores)
    ensures scores == Scores(2, 0)
  {
    var g := new Game();
    PlayOn(g, 0, 8); PlayOn(g, 3, 8); PlayOn(g, 1, 8); PlayOn(g, 4, 8);
    var firstAccepted := g.Accepts(2);
    var secondAccepted := g.Accepts(8);
    assert firstAccepted && secondAccepted;
    FirstLineIsFirstWin(g.board[2 := Mark(X)], 0);
    var r := g.Commit(2);
    FirstLineIsFirstWin(g.board[8 := Mark(X)], 0);
    r := g.Commit(8);
    scores := g.scores;
  }
}
