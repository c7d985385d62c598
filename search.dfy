/**
 * The move search of webapp/game.js: `minimax` with alpha-beta pruning and
 * `checkWinnerForBoard`. `Search` is the pruned search as a function,
 * `Value` the unpruned game value it is proved against, and `Minimax` the
 * in-place search on an array that places and removes marks.
 */
module MoveSearch {
  import opened Wrappers
  import opened GameBoard

  /**
   * Stands in for JavaScript's `Infinity` in the initial window and the
   * initial best score; every score the search produces lies strictly
   * between -Infinity and Infinity.
   */
  const Infinity: int := 100

  /**
   * The `index` of a minimax result: absent (a terminal result `{ score }`
   * has no index at all, which reads as `undefined`), `null` (no candidate
   * improved on the initial score), or a position.
   */
  datatype Move = Absent | Null | At(pos: Index)

  /** A minimax result `{ score, index }`. */
  datatype Eval = Eval(score: int, index: Move)

  function Max(x: int, y: int): int { if x < y then y else x }
  function Min(x: int, y: int): int { if x < y then x else y }

  /**
   * The score of a terminal position: -10 when PLAYER has won, +10 when AI
   * has won, 0 when no cell is empty; None when the game goes on.
   */
  function Terminal(b: Board): Option<int>
  {
    var w := WinnerMark(b);
    if w == Some(Player) then Some(-10)
    else if w == Some(Ai) then Some(10)
    else if EmptyIndices(b) == [] then Some(0)
    else None
  }

  /** `minimax(b, player, alpha, beta)`, as a function of the board it is given. */
  function Search(b: Board, player: Cell, alpha: int, beta: int): Eval
    decreases 9 - Filled(b), 1
  {
    match Terminal(b)
    case Some(s) => Eval(s, Absent)
    case None =>
      if player == Ai then MaxLoop(b, EmptyIndices(b), 0, alpha, beta, Eval(-Infinity, Null))
      else MinLoop(b, EmptyIndices(b), 0, alpha, beta, Eval(Infinity, Null))
  }

  /** The maximizing loop of `minimax` from candidate i on, with the current alpha and best result. */
  function MaxLoop(b: Board, avail: seq<Index>, i: nat, alpha: int, beta: int, best: Eval): Eval
    requires i <= |avail|
    requires forall j :: 0 <= j < |avail| ==> b[avail[j]] == Empty
    decreases 9 - Filled(b), 0, |avail| - i
  {
    if i == |avail| then best
    else
      var pos := avail[i];
      FilledUpdate(b, pos, Ai);
      var e := Search(b[pos := Ai], Player, alpha, beta);
      var best' := if e.score > best.score then Eval(e.score, At(pos)) else best;
      var alpha' := Max(alpha, e.score);
      if beta <= alpha' then best' else MaxLoop(b, avail, i + 1, alpha', beta, best')
  }

  /** The minimizing loop of `minimax` from candidate i on, with the current beta and best result. */
  function MinLoop(b: Board, avail: seq<Index>, i: nat, alpha: int, beta: int, best: Eval): Eval
    requires i <= |avail|
    requires forall j :: 0 <= j < |avail| ==> b[avail[j]] == Empty
    decreases 9 - Filled(b), 0, |avail| - i
  {
    if i == |avail| then best
    else
      var pos := avail[i];
      FilledUpdate(b, pos, Player);
      var e := Search(b[pos := Player], Ai, alpha, beta);
      var best' := if e.score < best.score then Eval(e.score, At(pos)) else best;
      var beta' := Min(beta, e.score);
      if beta' <= alpha then best' else MinLoop(b, avail, i + 1, alpha, beta', best')
  }

  /**
   * The game value without pruning: the terminal score, or the best value
   * over all moves for the side to move (AI maximizes, PLAYER minimizes).
   */
  function Value(b: Board, player: Cell): int
    decreases 9 - Filled(b), 1
  {
    match Terminal(b)
    case Some(s) => s
    case None =>
      if player == Ai then MaxValue(b, EmptyIndices(b), 0)
      else MinValue(b, EmptyIndices(b), 0)
  }

  /** The largest value of AI's moves avail[i..], -Infinity when there are none. */
  function MaxValue(b: Board, avail: seq<Index>, i: nat): int
    requires i <= |avail|
    requires forall j :: 0 <= j < |avail| ==> b[avail[j]] == Empty
    decreases 9 - Filled(b), 0, |avail| - i
  {
    if i == |avail| then -Infinity
    else
      FilledUpdate(b, avail[i], Ai);
      Max(Value(b[avail[i] := Ai], Player), MaxValue(b, avail, i + 1))
  }

  /** The smallest value of PLAYER's moves avail[i..], Infinity when there are none. */
  function MinValue(b: Board, avail: seq<Index>, i: nat): int
    requires i <= |avail|
    requires forall j :: 0 <= j < |avail| ==> b[avail[j]] == Empty
    decreases 9 - Filled(b), 0, |avail| - i
  {
    if i == |avail| then Infinity
    else
      FilledUpdate(b, avail[i], Player);
      Min(Value(b[avail[i] := Player], Ai), MinValue(b, avail, i + 1))
  }

  /** x cut down to the window [lo, hi]. */
  function Clamp(x: int, lo: int, hi: int): int
  {
    if x < lo then lo else if hi < x then hi else x
  }

  predicate IsScore(s: int)
  {
    s == -10 || s == 0 || s == 10
  }

  /** A result that names an EMPTY cell of b and carries a score. */
  predicate LegalEval(b: Board, e: Eval)
  {
    IsScore(e.score) && e.index.At? && b[e.index.pos] == Empty
  }

  /** Every game value is a score. */
  lemma {:induction false} ValueIsScore(b: Board, player: Cell)
    ensures IsScore(Value(b, player))
    decreases 9 - Filled(b), 1
  {
    match Terminal(b)
    case Some(_) =>
    case None =>
      if player == Ai {
        MaxValueIsScore(b, EmptyIndices(b), 0);
      } else {
        MinValueIsScore(b, EmptyIndices(b), 0);
      }
  }

  lemma {:induction false} MaxValueIsScore(b: Board, avail: seq<Index>, i: nat)
    requires i <= |avail|
    requires forall j :: 0 <= j < |avail| ==> b[avail[j]] == Empty
    ensures i < |avail| ==> IsScore(MaxValue(b, avail, i))
    ensures i == |avail| ==> MaxValue(b, avail, i) == -Infinity
    decreases 9 - Filled(b), 0, |avail| - i
  {
    if i < |avail| {
      FilledUpdate(b, avail[i], Ai);
      ValueIsScore(b[avail[i] := Ai], Player);
      MaxValueIsScore(b, avail, i + 1);
    }
  }

  lemma {:induction false} MinValueIsScore(b: Board, avail: seq<Index>, i: nat)
    requires i <= |avail|
    requires forall j :: 0 <= j < |avail| ==> b[avail[j]] == Empty
    ensures i < |avail| ==> IsScore(MinValue(b, avail, i))
    ensures i == |avail| ==> MinValue(b, avail, i) == Infinity
    decreases 9 - Filled(b), 0, |avail| - i
  {
    if i < |avail| {
      FilledUpdate(b, avail[i], Player);
      ValueIsScore(b[avail[i] := Player], Ai);
      MinValueIsScore(b, avail, i + 1);
    }
  }

  /**
   * The shape of a minimax result: at a terminal position the terminal score
   * and no index; otherwise a score in {-10, 0, 10} and the index of a cell
   * that was EMPTY in the board given (never null), whatever the window.
   */
  lemma {:induction false} SearchShape(b: Board, player: Cell, alpha: int, beta: int)
    ensures Terminal(b).Some? ==> Search(b, player, alpha, beta) == Eval(Terminal(b).value, Absent)
    ensures Terminal(b).None? ==> LegalEval(b, Search(b, player, alpha, beta))
    ensures IsScore(Search(b, player, alpha, beta).score)
    decreases 9 - Filled(b), 1
  {
    match Terminal(b)
    case Some(_) =>
    case None =>
      if player == Ai {
        MaxLoopShape(b, EmptyIndices(b), 0, alpha, beta, Eval(-Infinity, Null));
      } else {
        MinLoopShape(b, EmptyIndices(b), 0, alpha, beta, Eval(Infinity, Null));
      }
  }

  lemma {:induction false} MaxLoopShape(b: Board, avail: seq<Index>, i: nat, alpha: int, beta: int, best: Eval)
    requires i <= |avail|
    requires forall j :: 0 <= j < |avail| ==> b[avail[j]] == Empty
    requires best == Eval(-Infinity, Null) || LegalEval(b, best)
    ensures i < |avail| || LegalEval(b, best) ==> LegalEval(b, MaxLoop(b, avail, i, alpha, beta, best))
    decreases 9 - Filled(b), 0, |avail| - i
  {
    if i < |avail| {
      var pos := avail[i];
      FilledUpdate(b, pos, Ai);
      SearchShape(b[pos := Ai], Player, alpha, beta);
      var e := Search(b[pos := Ai], Player, alpha, beta);
      var best' := if e.score > best.score then Eval(e.score, At(pos)) else best;
      var alpha' := Max(alpha, e.score);
      if alpha' < beta {
        MaxLoopShape(b, avail, i + 1, alpha', beta, best');
      }
    }
  }

  lemma {:induction false} MinLoopShape(b: Board, avail: seq<Index>, i: nat, alpha: int, beta: int, best: Eval)
    requires i <= |avail|
    requires forall j :: 0 <= j < |avail| ==> b[avail[j]] == Empty
    requires best == Eval(Infinity, Null) || LegalEval(b, best)
    ensures i < |avail| || LegalEval(b, best) ==> LegalEval(b, MinLoop(b, avail, i, alpha, beta, best))
    decreases 9 - Filled(b), 0, |avail| - i
  {
    if i < |avail| {
      var pos := avail[i];
      FilledUpdate(b, pos, Player);
      SearchShape(b[pos := Player], Ai, alpha, beta);
      var e := Search(b[pos := Player], Ai, alpha, beta);
      var best' := if e.score < best.score then Eval(e.score, At(pos)) else best;
      var beta' := Min(beta, e.score);
      if alpha < beta' {
        MinLoopShape(b, avail, i + 1, alpha, beta', best');
      }
    }
  }

  /**
   * Alpha-beta soundness: inside any window (alpha, beta) the pruned search
   * agrees with the game value once both are cut down to the window. Below
   * alpha both read "at most alpha", above beta both read "at least beta",
   * and strictly inside they are equal.
   */
  lemma {:induction false} SearchWindow(b: Board, player: Cell, alpha: int, beta: int)
    requires -Infinity <= alpha < beta <= Infinity
    ensures Clamp(Search(b, player, alpha, beta).score, alpha, beta) == Clamp(Value(b, player), alpha, beta)
    decreases 9 - Filled(b), 1
  {
    match Terminal(b)
    case Some(_) =>
    case None =>
      if player == Ai {
        MaxLoopWindow(b, EmptyIndices(b), 0, alpha, beta, Eval(-Infinity, Null));
      } else {
        MinLoopWindow(b, EmptyIndices(b), 0, alpha, beta, Eval(Infinity, Null));
      }
  }

  lemma {:induction false} MaxLoopWindow(b: Board, avail: seq<Index>, i: nat, alpha: int, beta: int, best: Eval)
    requires i <= |avail|
    requires forall j :: 0 <= j < |avail| ==> b[avail[j]] == Empty
    requires -Infinity <= alpha < beta <= Infinity
    requires best.score <= alpha
    ensures MaxLoop(b, avail, i, alpha, beta, best).score >= best.score
    ensures Clamp(MaxLoop(b, avail, i, alpha, beta, best).score, alpha, beta)
         == Clamp(MaxValue(b, avail, i), alpha, beta)
    decreases 9 - Filled(b), 0, |avail| - i
  {
    if i < |avail| {
      var pos := avail[i];
      FilledUpdate(b, pos, Ai);
      var c := b[pos := Ai];
      SearchWindow(c, Player, alpha, beta);
      var e := Search(c, Player, alpha, beta);
      var best' := if e.score > best.score then Eval(e.score, At(pos)) else best;
      var alpha' := Max(alpha, e.score);
      if alpha' < beta {
        MaxLoopWindow(b, avail, i + 1, alpha', beta, best');
      }
    }
  }

  lemma {:induction false} MinLoopWindow(b: Board, avail: seq<Index>, i: nat, alpha: int, beta: int, best: Eval)
    requires i <= |avail|
    requires forall j :: 0 <= j < |avail| ==> b[avail[j]] == Empty
    requires -Infinity <= alpha < beta <= Infinity
    requires best.score >= beta
    ensures MinLoop(b, avail, i, alpha, beta, best).score <= best.score
    ensures Clamp(MinLoop(b, avail, i, alpha, beta, best).score, alpha, beta)
         == Clamp(MinValue(b, avail, i), alpha, beta)
    decreases 9 - Filled(b), 0, |avail| - i
  {
    if i < |avail| {
      var pos := avail[i];
      FilledUpdate(b, pos, Player);
      var c := b[pos := Player];
      SearchWindow(c, Ai, alpha, beta);
      var e := Search(c, Ai, alpha, beta);
      var best' := if e.score < best.score then Eval(e.score, At(pos)) else best;
      var beta' := Min(beta, e.score);
      if alpha < beta' {
        MinLoopWindow(b, avail, i + 1, alpha, beta', best');
      }
    }
  }

  /** With the window (-Infinity, Infinity) the pruned search returns the exact game value. */
  lemma MinimaxIsExact(b: Board, player: Cell)
    ensures Search(b, player, -Infinity, Infinity).score == Value(b, player)
  {
    SearchWindow(b, player, -Infinity, Infinity);
    ValueIsScore(b, player);
  }

  lemma {:induction false} MaxLoopOptimal(b: Board, avail: seq<Index>, i: nat, best: Eval)
    requires i <= |avail|
    requires forall j :: 0 <= j < |avail| ==> b[avail[j]] == Empty
    requires -Infinity <= best.score <= 10
    requires best.index.At? ==> Value(b[best.index.pos := Ai], Player) == best.score
    ensures var r := MaxLoop(b, avail, i, best.score, Infinity, best);
      r.index.At? ==> Value(b[r.index.pos := Ai], Player) == r.score
    decreases |avail| - i
  {
    if i < |avail| {
      var pos := avail[i];
      FilledUpdate(b, pos, Ai);
      var c := b[pos := Ai];
      SearchWindow(c, Player, best.score, Infinity);
      SearchShape(c, Player, best.score, Infinity);
      var e := Search(c, Player, best.score, Infinity);
      var best' := if e.score > best.score then Eval(e.score, At(pos)) else best;
      assert Max(best.score, e.score) == best'.score;
      MaxLoopOptimal(b, avail, i + 1, best');
    }
  }

  /**
   * The move the unbounded-window search picks for AI is optimal: it names
   * an EMPTY cell, and the position after AI plays there has the same game
   * value as the position before.
   */
  lemma BestMoveIsOptimal(b: Board)
    requires Terminal(b).None?
    ensures var e := Search(b, Ai, -Infinity, Infinity);
      e.index.At? && b[e.index.pos] == Empty &&
      Value(b[e.index.pos := Ai], Player) == Value(b, Ai)
  {
    SearchShape(b, Ai, -Infinity, Infinity);
    MaxLoopOptimal(b, EmptyIndices(b), 0, Eval(-Infinity, Null));
    MinimaxIsExact(b, Ai);
  }

  /** `checkWinnerForBoard`: scans the lines of `winningCombinations` in order. */
  method CheckWinnerForBoard(a: array<Cell>) returns (r: Option<Cell>)
    requires a.Length == 9
    ensures r == WinnerMark(a[..])
  {
    var k := 0;
    while k < |WinningCombinations|
      invariant 0 <= k <= |WinningCombinations|
      invariant WinnerFrom(a[..], k) == Winner(a[..])
    {
      var l := WinningCombinations[k];
      if a[l.a] != Empty && a[l.a] == a[l.b] && a[l.a] == a[l.c] {
        return Some(a[l.a]);
      }
      k := k + 1;
    }
    return None;
  }

  /**
   * `minimax` on the live array: every candidate is written into `a`,
   * searched, and erased again before the next one, so the array is as it
   * was on return, and the result is the pruned search of the array's
   * contents.
   */
  method Minimax(a: array<Cell>, player: Cell, alpha: int, beta: int) returns (e: Eval)
    requires a.Length == 9
    modifies a
    ensures a[..] == old(a[..])
    ensures e == Search(old(a[..]), player, alpha, beta)
    decreases 9 - Filled(a[..]), 1
  {
    var avail := EmptyIndices(a[..]);
    var winner := CheckWinnerForBoard(a);
    if winner == Some(Player) {
      return Eval(-10, Absent);
    } else if winner == Some(Ai) {
      return Eval(10, Absent);
    } else if |avail| == 0 {
      return Eval(0, Absent);
    }
    if player == Ai {
      e := MaximizeOver(a, avail, alpha, beta);
    } else {
      e := MinimizeOver(a, avail, alpha, beta);
    }
  }

  /** The `player === AI` branch of `minimax`: try each EMPTY cell for AI, keep the highest score. */
  method MaximizeOver(a: array<Cell>, avail: seq<Index>, alpha: int, beta: int) returns (best: Eval)
    requires a.Length == 9 && avail == EmptyIndices(a[..])
    modifies a
    ensures a[..] == old(a[..])
    ensures best == MaxLoop(old(a[..]), avail, 0, alpha, beta, Eval(-Infinity, Null))
    decreases 9 - Filled(a[..]), 0
  {
    ghost var b: Board := a[..];
    best := Eval(-Infinity, Null);
    var lo := alpha;
    var i := 0;
    while i < |avail|
      invariant 0 <= i <= |avail|
      invariant a[..] == b
      invariant MaxLoop(b, avail, i, lo, beta, best) == MaxLoop(b, avail, 0, alpha, beta, Eval(-Infinity, Null))
    {
      var pos := avail[i];
      a[pos] := Ai;
      assert a[..] == b[pos := Ai];
      FilledUpdate(b, pos, Ai);
      var ev := Minimax(a, Player, lo, beta);
      a[pos] := Empty;
      assert a[..] == b;
      if ev.score > best.score {
        best := Eval(ev.score, At(pos));
      }
      lo := Max(lo, ev.score);
      if beta <= lo {
        break;
      }
      i := i + 1;
    }
  }

  /** The other branch of `minimax`: try each EMPTY cell for PLAYER, keep the lowest score. */
  method MinimizeOver(a: array<Cell>, avail: seq<Index>, alpha: int, beta: int) returns (best: Eval)
    requires a.Length == 9 && avail == EmptyIndices(a[..])
    modifies a
    ensures a[..] == old(a[..])
    ensures best == MinLoop(old(a[..]), avail, 0, alpha, beta, Eval(Infinity, Null))
    decreases 9 - Filled(a[..]), 0
  {
    ghost var b: Board := a[..];
    best := Eval(Infinity, Null);
    var hi := beta;
    var i := 0;
    while i < |avail|
      invariant 0 <= i <= |avail|
      invariant a[..] == b
      invariant MinLoop(b, avail, i, alpha, hi, best) == MinLoop(b, avail, 0, alpha, beta, Eval(Infinity, Null))
    {
      var pos := avail[i];
      a[pos] := Player;
      assert a[..] == b[pos := Player];
      FilledUpdate(b, pos, Player);
      var ev := Minimax(a, Ai, alpha, hi);
      a[pos] := Empty;
      assert a[..] == b;
      if ev.score < best.score {
        best := Eval(ev.score, At(pos));
      }
      hi := Min(hi, ev.score);
      if hi <= alpha {
        break;
      }
      i := i + 1;
    }
  }
}
