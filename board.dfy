/**
 * The tic-tac-toe board: the two players, the three-valued cell, the 3x3 grid
 * stored row-major as nine cells, the eight fixed winning lines and the scan
 * that finds the first complete one.
 */
module Board {

  datatype Option<T> = None | Some(value: T)

  datatype Player = X | O

  /** The player who moves after `p`. */
  function Other(p: Player): (q: Player)
    ensures q != p
  {
    match p
    case X => O
    case O => X
  }

  /** A cell is empty (the empty string of the page) or holds a player's mark. */
  datatype Cell = Empty | Mark(player: Player)

  /** A cell position, row-major: 0..2 is the top row, 6..8 the bottom row. */
  type Index = i: int | 0 <= i < 9

  /** The board always has exactly nine cells. */
  type Grid = b: seq<Cell> | |b| == 9 witness seq(9, _ => Empty)

  const EmptyGrid: Grid := seq(9, _ => Empty)

  /** Three cell positions that win when they hold the same mark. */
  datatype Line = Line(a: Index, b: Index, c: Index)
  {
    predicate Contains(i: Index) {
      a == i || b == i || c == i
    }
  }

  /** The winning lines in the order they are scanned: rows, columns, diagonals. */
  const WinLines: seq<Line> := [
    Line(0, 1, 2), Line(3, 4, 5), Line(6, 7, 8),
    Line(0, 3, 6), Line(1, 4, 7), Line(2, 5, 8),
    Line(0, 4, 8), Line(2, 4, 6)
  ]

  /**
   * All three cells of `line` hold the same, non-empty mark: exactly when one
   * player owns the whole line.
   */
  predicate Complete(b: Grid, line: Line)
    ensures Complete(b, line) <==>
              exists p: Player :: b[line.a] == Mark(p) && b[line.b] == Mark(p) && b[line.c] == Mark(p)
  {
    b[line.a] != Empty && b[line.a] == b[line.b] && b[line.b] == b[line.c]
  }

  /** Some winning line is complete. */
  predicate HasWin(b: Grid) {
    exists k :: 0 <= k < |WinLines| && Complete(b, WinLines[k])
  }

  /** Line `k` is complete and no line before it in scan order is. */
  predicate IsFirstWin(b: Grid, k: nat) {
    && k < |WinLines|
    && Complete(b, WinLines[k])
    && forall j :: 0 <= j < k ==> !Complete(b, WinLines[j])
  }

  /** No cell is empty: exactly when every cell holds some player's mark. */
  predicate Full(b: Grid)
    ensures Full(b) <==> forall i :: 0 <= i < |b| ==> b[i].Mark?
  {
    Empty !in b
  }

  /**
   * Scans the winning lines in order and stops at the first complete one.
   * Returns the index of that line in WinLines, or None when no line is complete.
   */
  method FindWinLine(b: Grid) returns (r: Option<nat>)
    ensures r.None? <==> !HasWin(b)
    ensures r.Some? ==> IsFirstWin(b, r.value)
  {
    r := None;
    var i := 0;
    while i < |WinLines|
      invariant 0 <= i <= |WinLines|
      invariant r == None
      invariant forall j :: 0 <= j < i ==> !Complete(b, WinLines[j])
    {
      var line := WinLines[i];
      var a, m, c := b[line.a], b[line.b], b[line.c];
      if a != Empty && a == m && m == c {
        r := Some(i);
        break;
      }
      i := i + 1;
    }
  }

  /** The fresh board has no complete line, an empty cell, and no marks of either player. */
  lemma EmptyGridOpen()
    ensures !HasWin(EmptyGrid) && !Full(EmptyGrid)
    ensures Count(EmptyGrid, X) == 0 && Count(EmptyGrid, O) == 0
  {
    assert EmptyGrid[0] == Empty;
    CountNone(EmptyGrid, X);
    CountNone(EmptyGrid, O);
  }

  /**
   * Placing a mark on an empty cell of a board with no complete line can only
   * complete lines through that cell, and each of them holds the new mark.
   */
  lemma MoverOwnsEveryWin(b: Grid, i: Index, p: Player)
    requires !HasWin(b) && b[i] == Empty
    ensures forall k :: 0 <= k < |WinLines| && Complete(b[i := Mark(p)], WinLines[k]) ==>
              WinLines[k].Contains(i) && b[i := Mark(p)][WinLines[k].a] == Mark(p)
  {
  }

  /** Number of cells of `s` holding `p`'s mark. */
  function Count(s: seq<Cell>, p: Player): (n: nat)
    ensures n <= |s|
  {
    if s == [] then 0 else (if s[0] == Mark(p) then 1 else 0) + Count(s[1..], p)
  }

  /** Marking an empty cell for `p` adds one to `p`'s count and nothing to the other's. */
  lemma {:induction false} CountAfterMark(s: seq<Cell>, i: nat, p: Player, q: Player)
    requires i < |s| && s[i] == Empty
    ensures Count(s[i := Mark(p)], q) == Count(s, q) + (if p == q then 1 else 0)
  {
    if i == 0 {
      assert s[i := Mark(p)][1..] == s[1..];
    } else {
      assert s[i := Mark(p)][1..] == s[1..][i - 1 := Mark(p)];
      CountAfterMark(s[1..], i - 1, p, q);
    }
  }

  /** A board without any mark has count zero for both players. */
  lemma {:induction false} CountNone(s: seq<Cell>, p: Player)
    requires forall j :: 0 <= j < |s| ==> s[j] == Empty
    ensures Count(s, p) == 0
  {
    if s != [] {
      CountNone(s[1..], p);
    }
  }

  /**
   * Turns alternate: `current` is to move and has placed as many marks as the
   * other player, or one fewer.
   */
  predicate Alternating(b: Grid, current: Player) {
    Count(b, current) <= Count(b, Other(current)) <= Count(b, current) + 1
  }

  /** A move by the player to move, followed by the turn switch, keeps turns alternating. */
  lemma MoveKeepsAlternating(b: Grid, i: Index, p: Player)
    requires Alternating(b, p) && b[i] == Empty
    ensures Alternating(b[i := Mark(p)], Other(p))
  {
    CountAfterMark(b, i, p, p);
    CountAfterMark(b, i, p, Other(p));
  }
}
