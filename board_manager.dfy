/**
  BoardManager: the board half of the match, split out of GameManager. It owns the board
  dictionary, and reads the symbol to place, and the symbol a win is checked for, from the
  GameManager's active player. Its checks are public, so a lookup of a missing key, which
  throws KeyNotFoundException, is part of the model.
 */
module BoardManagement {
  import opened TicTacToe
  import GameManagement

  /** The instance events BoardManager raises, in the order raised. */
  datatype BoardEvent =
    | BoardUpdated(sizeOfBoard: int)
    | BoardPiecePlaced(position: Cell)

  class BoardManager {
    const boardSize: int
    const gameManager: GameManagement.GameManager
    var board: Grid
    var events: seq<BoardEvent>

    /** The board is empty until it is first initialised, and from then on holds exactly
        the in-range cells. */
    ghost predicate Valid()
      reads this
    {
      board == map[] || Initialised()
    }

    /** InitializeBoard has run: the keys are exactly the in-range cells. */
    ghost predicate Initialised()
      reads this
    {
      board.Keys == Cells(boardSize)
    }

    /** The symbol of the GameManager's active player. */
    function ActiveSymbol(): BoardSymbol
      reads gameManager
      requires gameManager.HasActivePlayer()
    {
      gameManager.ActivePlayer().symbolToUse
    }

    /** The component as the engine creates it, with its serialized fields. */
    constructor (boardSize: int, gameManager: GameManagement.GameManager)
      ensures Valid()
      ensures this.boardSize == boardSize && this.gameManager == gameManager
      ensures board == map[] && events == []
    {
      this.boardSize := boardSize;
      this.gameManager := gameManager;
      board := map[];
      events := [];
    }

    /** Place the active symbol on a vacant board cell. False, and no change, when the
        position is not a board key or is taken; otherwise true, exactly that cell changes,
        and one more cell is occupied. The active player is consulted only in the second case. */
    method PlaceBoardPiece(boardPosition: Cell) returns (placed: bool)
      requires Valid()
      requires Vacant(board, boardPosition) ==> gameManager.HasActivePlayer()
      modifies this`board, this`events
      ensures Valid()
      ensures placed <==> Vacant(old(board), boardPosition)
      ensures !placed ==> board == old(board) && events == old(events)
      ensures placed ==>
                && board == old(board)[boardPosition := Some(ActiveSymbol())]
                && |Occupied(board)| == |Occupied(old(board))| + 1
                && |VacantSet(board)| == |VacantSet(old(board))| - 1
                && events == old(events) + [BoardPiecePlaced(boardPosition)]
    {
      if !(boardPosition in board) || board[boardPosition] != None {
        return false;
      }
      PlacementCounts(board, boardPosition, ActiveSymbol());
      board := board[boardPosition := Some(ActiveSymbol())];
      events := events + [BoardPiecePlaced(boardPosition)];
      return true;
    }

    /** Clear the board and add every (x, y) with 0 <= x, y < boardSize, vacant: boardSize²
        cells, all vacant. */
    method InitializeBoard()
      modifies this`board, this`events
      ensures Initialised() && Valid()
      ensures board == EmptyGrid(boardSize)
      ensures 0 <= boardSize ==> |VacantSet(board)| == boardSize * boardSize
      ensures events == old(events) + [BoardUpdated(boardSize)]
    {
      board := map[];
      var x := 0;
      while x < boardSize
        invariant 0 <= x <= Iterations(boardSize)
        invariant events == old(events)
        invariant forall c :: c in board <==> 0 <= c.x < x && 0 <= c.y < boardSize
        invariant forall c | c in board :: board[c] == None
      {
        var y := 0;
        while y < boardSize
          invariant 0 <= y <= boardSize
          invariant events == old(events)
          invariant forall c :: c in board <==> (0 <= c.x < x && 0 <= c.y < boardSize) || (c.x == x && 0 <= c.y < y)
          invariant forall c | c in board :: board[c] == None
        {
          // Dictionary.Add throws on a key already present: this one never is.
          assert Cell(x, y) !in board;
          board := board[Cell(x, y) := None];
          y := y + 1;
        }
        x := x + 1;
      }
      assert board.Keys == EmptyGrid(boardSize).Keys;
      EmptyGridFacts(boardSize);
      events := events + [BoardUpdated(boardSize)];
    }

    /** TryGetValue: true iff the position is a board key, with its stored value (null
        otherwise). On an initialised board that is exactly the in-range positions. */
    method GetPieceAtPosition(position: Cell) returns (found: bool, symbol: Option<BoardSymbol>)
      ensures found <==> position in board
      ensures found ==> symbol == board[position]
      ensures !found ==> symbol == None
      ensures Initialised() ==> (found <==> InRange(boardSize, position))
    {
      symbol := None;
      found := position in board;
      if found {
        symbol := board[position];
      }
    }

    /** Random.Range(0, count) picks any index of the vacancy list; on an empty list the
        indexing throws, so some cell must be vacant. */
    method PickRandomSpotOnBoard() returns (spot: Cell)
      requires VacantSet(board) != {}
      ensures Vacant(board, spot)
    {
      var vacantSpaces := GetVacantSpaces();
      ghost var some :| some in VacantSet(board);
      assert some in vacantSpaces;
      var k :| 0 <= k < |vacantSpaces|;
      spot := vacantSpaces[k];
    }

    /** Every board key whose value is null, each once, in the dictionary's enumeration
        order (left unspecified here). */
    method GetVacantSpaces() returns (vacantSpaces: seq<Cell>)
      ensures forall c :: c in vacantSpaces <==> Vacant(board, c)
      ensures Distinct(vacantSpaces)
      ensures |vacantSpaces| == |VacantSet(board)|
    {
      vacantSpaces := [];
      var remaining := board.Keys;
      while remaining != {}
        invariant remaining <= board.Keys
        invariant forall c :: c in vacantSpaces <==> Vacant(board, c) && c !in remaining
        invariant Distinct(vacantSpaces)
        decreases |remaining|
      {
        var space :| space in remaining;
        if board[space] == None {
          vacantSpaces := vacantSpaces + [space];
        }
        remaining := remaining - {space};
      }
      assert (set c | c in vacantSpaces) == VacantSet(board);
      DistinctCount(vacantSpaces);
    }

    /** The four checks in order, each run only if every earlier one answered false; an
        exception in one propagates. On an initialised board and a board cell it never
        throws and answers whether the active symbol owns row y, column x, or either
        diagonal (wherever the cell is); a row off the board throws at the first lookup. */
    method DidActivePlayerWinThisTurn(boardPosition: Cell) returns (result: Checked)
      requires gameManager.HasActivePlayer()
      ensures result == WinCheck(board, boardSize, boardPosition, ActiveSymbol())
      ensures Valid() && boardPosition in board ==>
                result == Answer(HasLine(board, boardSize, boardPosition, ActiveSymbol()))
      ensures Initialised() && 0 < boardSize && !(0 <= boardPosition.y < boardSize) ==>
                result == KeyNotFound(Cell(0, boardPosition.y))
    {
      result := CheckIfHorizontalVictory(boardPosition.y);
      if result == Answer(false) {
        result := CheckIfVerticalVictory(boardPosition.x);
      }
      if result == Answer(false) {
        result := CheckIfLeftDiagonalVictory();
      }
      if result == Answer(false) {
        result := CheckIfRightDiagonalVictory();
      }
      if Valid() && boardPosition in board {
        WinCheckOnBoard(board, boardSize, boardPosition, ActiveSymbol());
      }
      if Initialised() && 0 < boardSize && !(0 <= boardPosition.y < boardSize) {
        WinCheckOffBoardRow(board, boardSize, boardPosition, ActiveSymbol());
      }
    }

    /** Whether the active symbol fills row `rowIndexToCheck`; throws at the first cell of
        the row that is not a board key. */
    method CheckIfHorizontalVictory(rowIndexToCheck: int) returns (result: Checked)
      requires gameManager.HasActivePlayer()
      ensures result == ScanFrom(board, Row(boardSize, rowIndexToCheck), ActiveSymbol(), 0)
      ensures (forall k | 0 <= k < Iterations(boardSize) :: Cell(k, rowIndexToCheck) in board) ==>
                result == Answer(Owns(board, Row(boardSize, rowIndexToCheck), ActiveSymbol()))
    {
      ghost var line := Row(boardSize, rowIndexToCheck);
      if forall k | 0 <= k < |line| :: line[k] in board {
        ScanMeaning(board, line, ActiveSymbol(), 0);
      }
      var i := 0;
      while i < boardSize
        invariant 0 <= i <= |line|
        invariant ScanFrom(board, line, ActiveSymbol(), i) == ScanFrom(board, line, ActiveSymbol(), 0)
      {
        assert line[i] == Cell(i, rowIndexToCheck);
        if Cell(i, rowIndexToCheck) !in board {
          return KeyNotFound(Cell(i, rowIndexToCheck));
        }
        if board[Cell(i, rowIndexToCheck)] != Some(gameManager.ActivePlayer().symbolToUse) {
          return Answer(false);
        }
        i := i + 1;
      }
      return Answer(true);
    }

    /** Whether the active symbol fills column `columnIndexToCheck`; throws at the first
        cell of the column that is not a board key. */
    method CheckIfVerticalVictory(columnIndexToCheck: int) returns (result: Checked)
      requires gameManager.HasActivePlayer()
      ensures result == ScanFrom(board, Column(boardSize, columnIndexToCheck), ActiveSymbol(), 0)
      ensures (forall k | 0 <= k < Iterations(boardSize) :: Cell(columnIndexToCheck, k) in board) ==>
                result == Answer(Owns(board, Column(boardSize, columnIndexToCheck), ActiveSymbol()))
    {
      ghost var line := Column(boardSize, columnIndexToCheck);
      if forall k | 0 <= k < |line| :: line[k] in board {
        ScanMeaning(board, line, ActiveSymbol(), 0);
      }
      var i := 0;
      while i < boardSize
        invariant 0 <= i <= |line|
        invariant ScanFrom(board, line, ActiveSymbol(), i) == ScanFrom(board, line, ActiveSymbol(), 0)
      {
        assert line[i] == Cell(columnIndexToCheck, i);
        if Cell(columnIndexToCheck, i) !in board {
          return KeyNotFound(Cell(columnIndexToCheck, i));
        }
        if board[Cell(columnIndexToCheck, i)] != Some(gameManager.ActivePlayer().symbolToUse) {
          return Answer(false);
        }
        i := i + 1;
      }
      return Answer(true);
    }

    /** Whether the active symbol fills every (i, i). */
    method CheckIfLeftDiagonalVictory() returns (result: Checked)
      requires gameManager.HasActivePlayer()
      ensures result == ScanFrom(board, MainDiagonal(boardSize), ActiveSymbol(), 0)
      ensures Initialised() ==>
                result == Answer(Owns(board, MainDiagonal(boardSize), ActiveSymbol()))
    {
      ghost var line := MainDiagonal(boardSize);
      if Initialised() {
        ScanMeaning(board, line, ActiveSymbol(), 0);
      }
      var i := 0;
      while i < boardSize
        invariant 0 <= i <= |line|
        invariant ScanFrom(board, line, ActiveSymbol(), i) == ScanFrom(board, line, ActiveSymbol(), 0)
      {
        assert line[i] == Cell(i, i);
        if Cell(i, i) !in board {
          return KeyNotFound(Cell(i, i));
        }
        if board[Cell(i, i)] != Some(gameManager.ActivePlayer().symbolToUse) {
          return Answer(false);
        }
        i := i + 1;
      }
      return Answer(true);
    }

    /** Whether the active symbol fills every (i, boardSize - 1 - i), walking x up from 0
        and y down from boardSize - 1. */
    method CheckIfRightDiagonalVictory() returns (result: Checked)
      requires gameManager.HasActivePlayer()
      ensures result == ScanFrom(board, AntiDiagonal(boardSize), ActiveSymbol(), 0)
      ensures Initialised() ==>
                result == Answer(Owns(board, AntiDiagonal(boardSize), ActiveSymbol()))
    {
      ghost var line := AntiDiagonal(boardSize);
      if Initialised() {
        ScanMeaning(board, line, ActiveSymbol(), 0);
      }
      var x := 0;
      var y := boardSize - 1;
      var i := 0;
      while i < boardSize
        invariant 0 <= i <= |line|
        invariant x == i && y == boardSize - 1 - i
        invariant ScanFrom(board, line, ActiveSymbol(), i) == ScanFrom(board, line, ActiveSymbol(), 0)
      {
        assert line[i] == Cell(x, y);
        if Cell(x, y) !in board {
          return KeyNotFound(Cell(x, y));
        }
        if board[Cell(x, y)] != Some(gameManager.ActivePlayer().symbolToUse) {
          return Answer(false);
        }
        x := x + 1;
        y := y - 1;
        i := i + 1;
      }
      return Answer(true);
    }
  }
}
