/**
 * The game state of webapp/game.js: the module-level `board`,
 * `currentPlayer`, `gameActive` and `moveCount`, held by one session
 * object, and the operations that read and change them.
 */
module Game {
  import opened Wrappers
  import opened GameBoard
  import opened MoveSearch

  /** 'USER_WIN', 'AI_WIN', 'DRAW', 'ONGOING'. */
  datatype Status = UserWin | AiWin | Draw | Ongoing

  /** What `getGameState` returns: `{ status, winner, line }`. */
  datatype GameState = GameState(status: Status, winner: Option<Cell>, line: Option<Line>)

  /** A difficulty roll below this makes the computer play a random empty cell. */
  const SmartMoveThreshold: real := 0.95

  /** `Math.floor(pick * n)` for a value `pick` of `Math.random()`: a position in 0..n-1. */
  function RandomPick(pick: real, n: nat): (k: nat)
    requires 0.0 <= pick < 1.0 && 0 < n
    ensures k < n
  {
    assert pick * (n as real) < n as real by {
      assert (1.0 - pick) * (n as real) > 0.0;
    }
    (pick * (n as real)).Floor
  }

  /**
   * The position taken from a minimax result, as intended: its index when
   * it has one, otherwise the first available position.
   */
  function Chosen(e: Eval, avail: seq<Index>): Index
    requires avail != []
  {
    if e.index.At? then e.index.pos else avail[0]
  }

  /**
   * The cell `makeAIMove` plays on board b with at least one empty cell,
   * given the two values of `Math.random()` it draws: the difficulty roll
   * and, below the threshold, the pick among the available positions.
   */
  function AiChoice(b: Board, roll: real, pick: real): Index
    requires 0.0 <= pick < 1.0 && EmptyIndices(b) != []
  {
    var avail := EmptyIndices(b);
    if roll < SmartMoveThreshold then avail[RandomPick(pick, |avail|)]
    else Chosen(Search(b, Ai, -Infinity, Infinity), avail)
  }

  /** The computer always plays an EMPTY cell, so the move fills exactly one more cell. */
  lemma AiChoiceIsEmptyCell(b: Board, roll: real, pick: real)
    requires 0.0 <= pick < 1.0 && EmptyIndices(b) != []
    ensures b[AiChoice(b, roll, pick)] == Empty
    ensures Filled(b[AiChoice(b, roll, pick) := Ai]) == Filled(b) + 1
  {
    SearchShape(b, Ai, -Infinity, Infinity);
    FilledUpdate(b, AiChoice(b, roll, pick), Ai);
  }

  /**
   * When the roll asks for the smart move on an undecided board, the
   * computer's move keeps the minimax value of the position: PLAYER cannot
   * do better against it than against perfect play.
   */
  lemma SmartAiChoiceIsOptimal(b: Board, roll: real, pick: real)
    requires 0.0 <= pick < 1.0 && Terminal(b).None?
    requires SmartMoveThreshold <= roll
    ensures EmptyIndices(b) != []
    ensures Value(b[AiChoice(b, roll, pick) := Ai], Player) == Value(b, Ai)
  {
    BestMoveIsOptimal(b);
  }

  /**
   * The position taken from a minimax result as written: anything that is
   * not `null` is used, including the missing index of a terminal result.
   */
  function ChosenAsWritten(e: Eval, avail: seq<Index>): Move
    requires avail != []
  {
    if e.index != Null then e.index else At(avail[0])
  }

  /**
   * `makeAIMove` as written, on an active board with an empty cell: the new
   * board and move count. A missing position writes to the array property
   * `undefined`, which is none of the nine cells, and still counts a move.
   */
  function AiMoveAsWritten(b: Board, moveCount: int, roll: real, pick: real): (Board, int)
    requires 0.0 <= pick < 1.0 && EmptyIndices(b) != []
  {
    var avail := EmptyIndices(b);
    var m := if roll < SmartMoveThreshold then At(avail[RandomPick(pick, |avail|)])
             else ChosenAsWritten(Search(b, Ai, -Infinity, Infinity), avail);
    match m
    case At(p) => (b[p := Ai], moveCount + 1)
    case _ => (b, moveCount + 1)
  }

  /** PLAYER has completed the top row and six cells are still empty. */
  const PlayerTopRow: Board := [Player, Player, Player, Empty, Empty, Empty, Empty, Empty, Empty]

  /**
   * On a board PLAYER has already won, the smart branch of `makeAIMove` as
   * written takes no position, places no mark and still increments the move
   * count, so the count no longer equals the number of filled cells.
   */
  lemma AsWrittenSmartMoveBreaksCount()
    ensures ChosenAsWritten(Search(PlayerTopRow, Ai, -Infinity, Infinity), EmptyIndices(PlayerTopRow)) == Absent
    ensures Filled(PlayerTopRow) == 3
    ensures AiMoveAsWritten(PlayerTopRow, 3, 0.99, 0.0) == (PlayerTopRow, 4)
  {
    var b := PlayerTopRow;
    assert Wins(b, WinningCombinations[0]);
    WinnerIsFirstWinningLine(b, 0);
    assert WinnerMark(b) == Some(Player);
    assert Terminal(b) == Some(-10);
    assert Search(b, Ai, -Infinity, Infinity) == Eval(-10, Absent);
    assert (3 as Index) in EmptyIndices(b);
    FilledNone(b[3..]);
    assert b[1..][1..][1..] == b[3..];
  }

  /** The module-level state of webapp/game.js. */
  class GameSession {
    var board: array<Cell>
    var currentPlayer: Cell
    var gameActive: bool
    var moveCount: int

    /**
     * Nine cells, PLAYER is the only value `currentPlayer` ever takes, and
     * `moveCount` equals the number of filled cells.
     */
    ghost predicate Valid()
      reads this, board
    {
      board.Length == 9 && currentPlayer == Player && moveCount == Filled(board[..])
    }

    /** The initial values of the module-level variables. */
    constructor ()
      ensures Valid() && fresh(board)
      ensures board[..] == EmptyBoard && gameActive && moveCount == 0
    {
      var cells := new Cell[9](_ => Empty);
      assert cells[..] == EmptyBoard;
      FilledNone(cells[..]);
      board := cells;
      currentPlayer := Player;
      gameActive := true;
      moveCount := 0;
    }

    /** `initGame`: a fresh empty board, PLAYER to move, the game active, no moves counted. */
    method InitGame()
      modifies this
      ensures Valid() && fresh(board)
      ensures board[..] == EmptyBoard && gameActive && moveCount == 0
    {
      var cells := new Cell[9](_ => Empty);
      assert cells[..] == EmptyBoard;
      FilledNone(cells[..]);
      board := cells;
      currentPlayer := Player;
      gameActive := true;
      moveCount := 0;
    }

    /**
     * `makeMove(position)`: accepted exactly when the game is active and the
     * position names an EMPTY cell (a position outside the board reads
     * `undefined`, which is not EMPTY). An accepted move writes PLAYER's
     * mark there and counts it; a rejected one changes nothing.
     */
    method MakeMove(position: int) returns (ok: bool)
      requires Valid()
      modifies board, this`moveCount
      ensures Valid() && board == old(board) && gameActive == old(gameActive)
      ensures ok <==> old(gameActive) && 0 <= position < 9 && old(board[..])[position] == Empty
      ensures ok ==> board[..] == old(board[..])[position := Player] && moveCount == old(moveCount) + 1
      ensures !ok ==> board[..] == old(board[..]) && moveCount == old(moveCount)
    {
      if !gameActive || !(0 <= position < 9) || board[position] != Empty {
        return false;
      }
      FilledUpdate(board[..], position, currentPlayer);
      board[position] := currentPlayer;
      moveCount := moveCount + 1;
      return true;
    }

    /** `checkWinner`: the first winning line in table order and its mark, or null. */
    method CheckWinner() returns (r: Option<WinInfo>)
      requires Valid()
      ensures r == Winner(board[..])
    {
      var k := 0;
      while k < |WinningCombinations|
        invariant 0 <= k <= |WinningCombinations|
        invariant WinnerFrom(board[..], k) == Winner(board[..])
      {
        var combination := WinningCombinations[k];
        if board[combination.a] != Empty && board[combination.a] == board[combination.b]
          && board[combination.a] == board[combination.c]
        {
          return Some(WinInfo(board[combination.a], combination));
        }
        k := k + 1;
      }
      return None;
    }

    /** `checkDraw`: nine moves made and no winner, that is, a full board without a winning line. */
    method CheckDraw() returns (r: bool)
      requires Valid()
      ensures r <==> moveCount == 9 && Winner(board[..]) == None
      ensures r <==> EmptyIndices(board[..]) == [] && Winner(board[..]) == None
    {
      LegalMovesPlusFilled(board[..]);
      if moveCount != 9 {
        return false;
      }
      var w := CheckWinner();
      r := w == None;
    }

    /**
     * `getGameState`: a winner decides the status (and the line), even on a
     * full board; otherwise a full board is a draw and anything else goes on.
     */
    method GetGameState() returns (s: GameState)
      requires Valid()
      ensures Winner(board[..]).Some? ==>
        var w := Winner(board[..]).value;
        s == GameState(if w.winner == Player then UserWin else AiWin, Some(w.winner), Some(w.line))
      ensures Winner(board[..]).None? ==> s.winner == None && s.line == None
      ensures s.status == Draw <==> Winner(board[..]) == None && EmptyIndices(board[..]) == []
      ensures s.status == Ongoing <==> Winner(board[..]) == None && EmptyIndices(board[..]) != []
    {
      var winnerInfo := CheckWinner();
      WinnerHoldsItsLine(board[..]);
      if winnerInfo.Some? {
        var w := winnerInfo.value;
        return GameState(if w.winner == Player then UserWin else AiWin, Some(w.winner), Some(w.line));
      }
      var draw := CheckDraw();
      if draw {
        return GameState(Draw, None, None);
      }
      return GameState(Ongoing, None, None);
    }

    /**
     * `makeAIMove`: nothing happens when the game is inactive or the board is
     * full; otherwise the computer plays `AiChoice` (an EMPTY cell, see
     * `AiChoiceIsEmptyCell`) and the move is counted. The search runs on the
     * live board, which it leaves as it found it.
     */
    method MakeAIMove(roll: real, pick: real) returns (r: Option<Index>)
      requires Valid() && 0.0 <= pick < 1.0
      modifies board, this`moveCount
      ensures Valid() && board == old(board) && gameActive == old(gameActive)
      ensures !old(gameActive) || EmptyIndices(old(board[..])) == [] ==>
        r == None && board[..] == old(board[..]) && moveCount == old(moveCount)
      ensures old(gameActive) && EmptyIndices(old(board[..])) != [] ==>
        r == Some(AiChoice(old(board[..]), roll, pick)) && old(board[..])[r.value] == Empty &&
        board[..] == old(board[..])[r.value := Ai] && moveCount == old(moveCount) + 1
    {
      if !gameActive {
        return None;
      }
      var availablePositions := EmptyIndices(board[..]);
      if |availablePositions| == 0 {
        return None;
      }
      var chosenPosition: Index;
      if roll < SmartMoveThreshold {
        chosenPosition := availablePositions[RandomPick(pick, |availablePositions|)];
      } else {
        var bestMove := Minimax(board, Ai, -Infinity, Infinity);
        chosenPosition := if bestMove.index.At? then bestMove.index.pos else availablePositions[0];
      }
      AiChoiceIsEmptyCell(board[..], roll, pick);
      board[chosenPosition] := Ai;
      moveCount := moveCount + 1;
      return Some(chosenPosition);
    }

    /** `getBoard`: a copy of the nine cells. */
    method GetBoard() returns (cells: seq<Cell>)
      requires Valid()
      ensures cells == board[..] && |cells| == 9
    {
      cells := board[..];
    }

    /** `setGameActive`: sets the flag only; the board and the count stay as they are. */
    method SetGameActive(active: bool)
      requires Valid()
      modifies this`gameActive
      ensures Valid() && gameActive == active
    {
      gameActive := active;
    }

    /** `getMoveCount`: the number of moves made, which is the number of filled cells. */
    method GetMoveCount() returns (n: int)
      requires Valid()
      ensures n == Filled(board[..])
      ensures n + |EmptyIndices(board[..])| == 9
    {
      LegalMovesPlusFilled(board[..]);
      n := moveCount;
    }
  }
}
