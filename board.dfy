/** Option, as used for the JavaScript `null` results and Python's `None`. */
module Wrappers {
  datatype Option<+T> = None | Some(value: T)
}

/**
 * The board of webapp/game.js: nine cells in row-major order, the eight
 * winning lines, win detection, the list of empty cells and the number of
 * filled cells.
 */
module GameBoard {
  import opened Wrappers

  /** A cell: EMPTY (''), PLAYER ('O', the human) or AI ('X', the computer). */
  datatype Cell = Empty | Player | Ai

  /** A position on the board, row * 3 + column. */
  type Index = i: int | 0 <= i < 9

  /** The board is always an array of exactly nine cells. */
  type Board = b: seq<Cell> | |b| == 9
    witness [Empty, Empty, Empty, Empty, Empty, Empty, Empty, Empty, Empty]

  /** `Array(9).fill(EMPTY)`. */
  const EmptyBoard: Board := seq(9, _ => Empty)

  /** Three positions that win when they hold the same mark. */
  datatype Line = Line(a: Index, b: Index, c: Index)

  /** `winningCombinations`, in the source's table order. */
  const WinningCombinations: seq<Line> := [
    Line(0, 1, 2), Line(3, 4, 5), Line(6, 7, 8),
    Line(0, 3, 6), Line(1, 4, 7), Line(2, 5, 8),
    Line(0, 4, 8), Line(2, 4, 6)
  ]

  /** The line holds three equal marks that are not EMPTY. */
  predicate Wins(b: Board, l: Line)
  {
    b[l.a] != Empty && b[l.a] == b[l.b] && b[l.a] == b[l.c]
  }

  /** What `checkWinner` returns when it finds a line: the mark and the line. */
  datatype WinInfo = WinInfo(winner: Cell, line: Line)

  /** The scan of `checkWinner`, started at table position k. */
  function WinnerFrom(b: Board, k: nat): Option<WinInfo>
    requires k <= |WinningCombinations|
    decreases |WinningCombinations| - k
  {
    if k == |WinningCombinations| then None
    else if Wins(b, WinningCombinations[k]) then
      Some(WinInfo(b[WinningCombinations[k].a], WinningCombinations[k]))
    else WinnerFrom(b, k + 1)
  }

  /** The result of `checkWinner` on board b. */
  function Winner(b: Board): Option<WinInfo>
  {
    WinnerFrom(b, 0)
  }

  /** The result of `checkWinnerForBoard`: only the winning mark. */
  function WinnerMark(b: Board): Option<Cell>
  {
    match Winner(b)
    case Some(w) => Some(w.winner)
    case None => None
  }

  lemma {:induction false} WinnerFromIsFirst(b: Board, k: nat, j: nat)
    requires k <= j < |WinningCombinations|
    requires Wins(b, WinningCombinations[j])
    requires forall i :: k <= i < j ==> !Wins(b, WinningCombinations[i])
    ensures WinnerFrom(b, k) == Some(WinInfo(b[WinningCombinations[j].a], WinningCombinations[j]))
    decreases j - k
  {
    if k < j {
      WinnerFromIsFirst(b, k + 1, j);
    }
  }

  /**
   * `checkWinner` reports the first line in table order that holds three
   * equal marks other than EMPTY, together with that mark.
   */
  lemma WinnerIsFirstWinningLine(b: Board, j: nat)
    requires j < |WinningCombinations|
    requires Wins(b, WinningCombinations[j])
    requires forall i :: 0 <= i < j ==> !Wins(b, WinningCombinations[i])
    ensures Winner(b) == Some(WinInfo(b[WinningCombinations[j].a], WinningCombinations[j]))
  {
    WinnerFromIsFirst(b, 0, j);
  }

  lemma {:induction false} WinnerFromNone(b: Board, k: nat)
    requires k <= |WinningCombinations|
    ensures WinnerFrom(b, k) == None <==>
      forall i :: k <= i < |WinningCombinations| ==> !Wins(b, WinningCombinations[i])
    decreases |WinningCombinations| - k
  {
    if k < |WinningCombinations| {
      WinnerFromNone(b, k + 1);
    }
  }

  /** `checkWinner` returns null exactly when no line is won. */
  lemma NoWinnerIffNoWinningLine(b: Board)
    ensures Winner(b) == None <==>
      forall i :: 0 <= i < |WinningCombinations| ==> !Wins(b, WinningCombinations[i])
  {
    WinnerFromNone(b, 0);
  }

  lemma {:induction false} WinnerFromWins(b: Board, k: nat)
    requires k <= |WinningCombinations|
    ensures WinnerFrom(b, k).Some? ==>
      var w := WinnerFrom(b, k).value;
      w.line in WinningCombinations && Wins(b, w.line) && w.winner == b[w.line.a] && w.winner != Empty
    decreases |WinningCombinations| - k
  {
    if k < |WinningCombinations| {
      WinnerFromWins(b, k + 1);
    }
  }

  /** A reported winner is a mark other than EMPTY holding all three cells of a table line. */
  lemma WinnerHoldsItsLine(b: Board)
    ensures Winner(b).Some? ==>
      var w := Winner(b).value;
      w.line in WinningCombinations && Wins(b, w.line) &&
      w.winner != Empty && b[w.line.a] == w.winner && b[w.line.b] == w.winner && b[w.line.c] == w.winner
  {
    WinnerFromWins(b, 0);
  }

  /** The empty positions from k on, ascending: `availablePositions` restricted to k..8. */
  function EmptyFrom(b: Board, k: nat): (r: seq<Index>)
    requires k <= 9
    ensures forall i :: 0 <= i < |r| ==> k <= r[i] && b[r[i]] == Empty
    ensures forall x: Index :: k <= x && b[x] == Empty ==> x in r
    ensures forall i, j :: 0 <= i < j < |r| ==> r[i] < r[j]
    decreases 9 - k
  {
    if k == 9 then []
    else if b[k] == Empty then [k as Index] + EmptyFrom(b, k + 1)
    else EmptyFrom(b, k + 1)
  }

  /**
   * `availablePositions`: the indices of the EMPTY cells, in ascending order
   * (the map-then-filter of `makeAIMove` and `minimax`).
   */
  function EmptyIndices(b: Board): (r: seq<Index>)
    ensures forall x: Index :: x in r <==> b[x] == Empty
    ensures forall i, j :: 0 <= i < j < |r| ==> r[i] < r[j]
  {
    EmptyFrom(b, 0)
  }

  /** The number of cells that are not EMPTY. */
  function Filled(s: seq<Cell>): (n: nat)
    ensures n <= |s|
  {
    if s == [] then 0 else (if s[0] == Empty then 0 else 1) + Filled(s[1..])
  }

  /** Writing a mark into an EMPTY cell fills exactly one more cell. */
  lemma {:induction false} FilledUpdate(s: seq<Cell>, p: int, m: Cell)
    requires 0 <= p < |s| && s[p] == Empty && m != Empty
    ensures Filled(s[p := m]) == Filled(s) + 1
  {
    if p == 0 {
      assert s[p := m][1..] == s[1..];
    } else {
      assert s[p := m][1..] == s[1..][p - 1 := m];
      FilledUpdate(s[1..], p - 1, m);
    }
  }

  lemma {:induction false} EmptyFromCount(b: Board, k: nat)
    requires k <= 9
    ensures |EmptyFrom(b, k)| + Filled(b[k..]) == 9 - k
    decreases 9 - k
  {
    if k < 9 {
      assert b[k..][1..] == b[k + 1..];
      EmptyFromCount(b, k + 1);
    }
  }

  /** The number of legal moves plus the number of filled cells is always nine. */
  lemma LegalMovesPlusFilled(b: Board)
    ensures |EmptyIndices(b)| + Filled(b) == 9
  {
    EmptyFromCount(b, 0);
    assert b[0..] == b;
  }

  lemma {:induction false} FilledNone(s: seq<Cell>)
    requires forall i :: 0 <= i < |s| ==> s[i] == Empty
    ensures Filled(s) == 0
  {
    if s != [] {
      FilledNone(s[1..]);
    }
  }

  /** A fresh board has no winner, nine legal moves and no filled cell. */
  lemma EmptyBoardIsOpen()
    ensures Winner(EmptyBoard) == None
    ensures |EmptyIndices(EmptyBoard)| == 9 && Filled(EmptyBoard) == 0
  {
    forall i | 0 <= i < |WinningCombinations|
      ensures !Wins(EmptyBoard, WinningCombinations[i])
    {
      assert EmptyBoard[WinningCombinations[i].a] == Empty;
    }
    NoWinnerIffNoWinningLine(EmptyBoard);
    FilledNone(EmptyBoard);
    LegalMovesPlusFilled(EmptyBoard);
  }
}
