/**
  GameManager: the one-class version of the match. It holds the board dictionary, the
  two-player roster with the active-player index, the running and AI-turn flags, and
  decides wins and draws after each placement. The static events are kept as a log.
 */
module GameManagement {
  import opened TicTacToe

  /** The static events GameManager raises, in the order raised. */
  datatype GameEvent =
    | BoardUpdated(sizeOfBoard: int)
    | ActivePlayerChanged(player: PlayerID)
    | BoardPiecePlaced(position: Cell)
    | GameEnded(winner: PlayerID, matchWasDraw: bool)

  /** The roster CreatePlayers builds: player 1 is a human X, player 2 an O that the AI
      controls in single-player mode. */
  function Roster(singlePlayer: bool): seq<PlayerID>
  {
    [PlayerID(0, "Player 1", X, false), PlayerID(1, "Player 2", O, singlePlayer)]
  }

  /** In the roster, a player's index is its id, player 1 alone uses X, and only player 2
      can be the AI, in single-player mode; so the turn after the AI's is a human's. */
  lemma RosterRoles(singlePlayer: bool, i: int)
    requires 0 <= i < |Roster(singlePlayer)|
    ensures Roster(singlePlayer)[i].id == i
    ensures Roster(singlePlayer)[i].symbolToUse == X <==> i == 0
    ensures Roster(singlePlayer)[i].isAI <==> singlePlayer && i == 1
    ensures Roster(singlePlayer)[i].isAI ==> !Roster(singlePlayer)[(i + 1) % 2].isAI
  {
  }

  class GameManager {
    const boardSize: int
    var singlePlayerGameMode: bool
    var players: seq<PlayerID>
    var activePlayerIndex: int
    var board: Grid
    var isAITakingTurn: bool
    var isGameRunning: bool
    /** AITakeTurnCo coroutines the engine holds suspended at their one-second wait. */
    var suspendedAITurns: nat
    var events: seq<GameEvent>

    /** Before the first game nothing exists; from then on the roster is the one for the
        chosen mode, the index names a player, the board holds exactly the in-range cells,
        and while the game runs nobody owns a line and (on a non-empty board) a cell is free.
        The AI-turn flag is up exactly while one AI coroutine is suspended, and a suspended
        one will find a vacant cell when it resumes. */
    ghost predicate Valid()
      reads this
    {
      Consistent(board)
    }

    /** Valid(), with `g` standing for the board. */
    ghost predicate Consistent(g: Grid)
      reads this
    {
      if players == [] then
        g == map[] && !isGameRunning && !isAITakingTurn && suspendedAITurns == 0
      else
        && players == Roster(singlePlayerGameMode)
        && 0 <= activePlayerIndex < |players|
        && g.Keys == Cells(boardSize)
        && (isGameRunning ==> !Won(g, boardSize, X) && !Won(g, boardSize, O))
        && (isGameRunning && 0 < boardSize ==> VacantSet(g) != {})
        && AITurnTracked()
        && (suspendedAITurns > 0 ==> VacantSet(g) != {})
    }

    /** The AI-turn flag is up exactly while one AI coroutine is suspended, and only on a
        board that has cells. */
    ghost predicate AITurnTracked()
      reads this
    {
      && (isAITakingTurn <==> suspendedAITurns > 0)
      && suspendedAITurns <= 1
      && (suspendedAITurns > 0 ==> 0 < boardSize)
    }

    predicate HasActivePlayer()
      reads this
    {
      0 <= activePlayerIndex < |players|
    }

    /** players[activePlayerIndex]; an index outside the roster throws, so it must name a
        player. Which player that is, is RosterRoles. */
    function ActivePlayer(): (p: PlayerID)
      reads this
      requires HasActivePlayer()
      ensures p in players
    {
      players[activePlayerIndex]
    }

    /** The component as the engine creates it, with its serialized board size. */
    constructor (boardSize: int)
      ensures Valid()
      ensures this.boardSize == boardSize && players == [] && board == map[]
      ensures activePlayerIndex == 0 && !singlePlayerGameMode
      ensures !isGameRunning && !isAITakingTurn && suspendedAITurns == 0 && events == []
    {
      this.boardSize := boardSize;
      singlePlayerGameMode := false;
      players := [];
      activePlayerIndex := 0;
      board := map[];
      isAITakingTurn := false;
      isGameRunning := false;
      suspendedAITurns := 0;
      events := [];
    }

    /** The menu button: remember the mode and start a game. */
    method SelectGameMode(isSinglePlayer: bool)
      requires Valid()
      modifies this
      ensures Valid()
      ensures singlePlayerGameMode == isSinglePlayer && players == Roster(isSinglePlayer)
      ensures board == EmptyGrid(boardSize) && isGameRunning
      ensures activePlayerIndex == 0 && ActivePlayer().symbolToUse == X && !ActivePlayer().isAI
      ensures events == old(events) + [BoardUpdated(boardSize), ActivePlayerChanged(ActivePlayer())]
      ensures isAITakingTurn == old(isAITakingTurn) && suspendedAITurns == old(suspendedAITurns)
    {
      singlePlayerGameMode := isSinglePlayer;
      StartGame();
    }

    /** A new game on an empty board, whatever state the previous one was left in.
        It does not stop a suspended AI coroutine, nor clear the AI-turn flag. */
    method StartGame()
      requires AITurnTracked()
      modifies this
      ensures Valid()
      ensures singlePlayerGameMode == old(singlePlayerGameMode) && players == Roster(singlePlayerGameMode)
      ensures board == EmptyGrid(boardSize) && isGameRunning
      ensures activePlayerIndex == 0 && ActivePlayer().symbolToUse == X && !ActivePlayer().isAI
      ensures events == old(events) + [BoardUpdated(boardSize), ActivePlayerChanged(ActivePlayer())]
      ensures isAITakingTurn == old(isAITakingTurn) && suspendedAITurns == old(suspendedAITurns)
    {
      isGameRunning := true;
      CreatePlayers();
      InitializeBoard();
      activePlayerIndex := DetermineStartingPlayerIndex();
      events := events + [ActivePlayerChanged(ActivePlayer())];
      EmptyGridFacts(boardSize);
    }

    /** Clear the board and add every (x, y) with 0 <= x, y < boardSize, vacant. */
    method InitializeBoard()
      modifies this`board, this`events
      ensures board == EmptyGrid(boardSize)
      ensures events == old(events) + [BoardUpdated(boardSize)]
    {
      board := map[];
      var x := 0;
      while x < boardSize
        invariant 0 <= x <= Iterations(boardSize)
        invariant events == old(events)
        invariant forall c :: c in board <==> 0 <= c.x < x && 0 <= c.y < boardSize
        invariant forall c | c in board :: board[c] == None
      {
        var y := 0;
        while y < boardSize
          invariant 0 <= y <= boardSize
          invariant events == old(events)
          invariant forall c :: c in board <==> (0 <= c.x < x && 0 <= c.y < boardSize) || (c.x == x && 0 <= c.y < y)
          invariant forall c | c in board :: board[c] == None
        {
          // Dictionary.Add throws on a key already present: this one never is.
          assert Cell(x, y) !in board;
          board := board[Cell(x, y) := None];
          y := y + 1;
        }
        x := x + 1;
      }
      assert board.Keys == EmptyGrid(boardSize).Keys;
      events := events + [BoardUpdated(boardSize)];
    }

    /** Exactly two players: X for player 1, never the AI; O for player 2, the AI iff the
        game is single-player. */
    method CreatePlayers()
      modifies this`players
      ensures |players| == 2
      ensures players[0] == PlayerID(0, "Player 1", X, false)
      ensures players[1] == PlayerID(1, "Player 2", O, singlePlayerGameMode)
      ensures players == Roster(singlePlayerGameMode)
    {
      players := [];
      players := players + [PlayerID(0, "Player 1", X, false)];
      players := players + [PlayerID(1, "Player 2", O, singlePlayerGameMode)];
    }

    /** Single-player: always 0, so the human starts. Two-player: the index of the X player,
        or -1 if there is none. With the roster CreatePlayers builds, both give player 1 (X). */
    method DetermineStartingPlayerIndex() returns (index: int)
      ensures singlePlayerGameMode ==> index == 0
      ensures !singlePlayerGameMode ==> index == FindIndex(players, X)
      ensures players == Roster(singlePlayerGameMode) ==>
                index == 0 && players[index].symbolToUse == X && !players[index].isAI
    {
      if singlePlayerGameMode {
        index := 0;
      } else {
        index := FindIndex(players, X);
      }
    }

    /** Advance the turn cyclically; when the new active player is the AI, start its
        coroutine, which raises the AI-turn flag and suspends. Its one caller reaches it
        with a vacant cell left and, past the input gate, with the flag down. */
    method MoveToNextPlayerTurn()
      requires Valid() && players != [] && !isAITakingTurn && VacantSet(board) != {}
      modifies this`activePlayerIndex, this`events, this`isAITakingTurn, this`suspendedAITurns
      ensures Valid()
      ensures 0 <= activePlayerIndex < |players|
      ensures activePlayerIndex == (old(activePlayerIndex) + 1) % |players|
      ensures events == old(events) + [ActivePlayerChanged(ActivePlayer())]
      ensures ActivePlayer().isAI ==> isAITakingTurn && suspendedAITurns == old(suspendedAITurns) + 1
      ensures !ActivePlayer().isAI ==>
                isAITakingTurn == old(isAITakingTurn) && suspendedAITurns == old(suspendedAITurns)
    {
      activePlayerIndex := activePlayerIndex + 1;
      if activePlayerIndex >= |players| {
        activePlayerIndex := 0;
      }
      events := events + [ActivePlayerChanged(ActivePlayer())];
      if ActivePlayer().isAI {
        // The part of AITakeTurnCo that runs before its first yield.
        isAITakingTurn := true;
        suspendedAITurns := suspendedAITurns + 1;
      }
    }

    /** The rest of AITakeTurnCo, once the delay has elapsed: lower the flag, pick a vacant
        cell and place on it for whoever is active now, which settles the turn as
        PlaceBoardPiece does. The flag ends up raised only if the turn passes to the AI again;
        after the AI's own move it is down. */
    method ResumeAITakeTurnCo() returns (spot: Cell)
      requires Valid() && suspendedAITurns > 0
      modifies this
      ensures Valid()
      ensures Vacant(old(board), spot)
      ensures |VacantSet(board)| == |VacantSet(old(board))| - 1
      ensures players == old(players)
      ensures Settled(old(board), old(activePlayerIndex), old(events), old(isGameRunning), spot)
      ensures old(ActivePlayer()).isAI ==> !isAITakingTurn && suspendedAITurns == 0
    {
      ghost var mover := ActivePlayer();
      isAITakingTurn := false;
      suspendedAITurns := suspendedAITurns - 1;
      spot := AIPickRandomSpotOnBoard();
      PlacementCounts(board, spot, mover.symbolToUse);
      PlaceBoardPiece(spot);
      RosterRoles(singlePlayerGameMode, old(activePlayerIndex));
    }

    /** Random.Range(0, count) picks any index of the vacancy list; on an empty list the
        indexing throws, so some cell must be vacant. */
    method AIPickRandomSpotOnBoard() returns (spot: Cell)
      requires VacantSet(board) != {}
      ensures Vacant(board, spot)
    {
      var vacantSpaces := GetVacantSpaces();
      ghost var some :| some in VacantSet(board);
      assert some in vacantSpaces;
      var k :| 0 <= k < |vacantSpaces|;
      spot := vacantSpaces[k];
    }

    /** How a turn is settled once the player at `index0` has placed on the vacant cell `pos`
        of `before`, with the AI-turn flag down: exactly that cell gets the mover's symbol and
        the placement is announced; then a completed checked line ends the game as a win, else
        a full board ends it as a draw (the event still names the mover), else the turn passes
        on and the AI-turn flag is up exactly when the new active player is the AI. */
    ghost predicate Settled(before: Grid, index0: int, events0: seq<GameEvent>, running0: bool, pos: Cell)
      reads this
      requires 0 <= index0 < |players|
    {
      var mover := players[index0];
      var placed := before[pos := Some(mover.symbolToUse)];
      && board == placed
      && (HasLine(placed, boardSize, pos, mover.symbolToUse) ==>
            && events == events0 + [BoardPiecePlaced(pos), GameEnded(mover, false)]
            && !isGameRunning && activePlayerIndex == index0
            && !isAITakingTurn && suspendedAITurns == 0)
      && (!HasLine(placed, boardSize, pos, mover.symbolToUse) && VacantSet(placed) == {} ==>
            && events == events0 + [BoardPiecePlaced(pos), GameEnded(mover, true)]
            && !isGameRunning && activePlayerIndex == index0
            && !isAITakingTurn && suspendedAITurns == 0)
      && (!HasLine(placed, boardSize, pos, mover.symbolToUse) && VacantSet(placed) != {} ==>
            && activePlayerIndex == (index0 + 1) % |players|
            && isGameRunning == running0
            && events == events0 + [BoardPiecePlaced(pos), ActivePlayerChanged(ActivePlayer())]
            && (isAITakingTurn <==> ActivePlayer().isAI)
            && suspendedAITurns == (if ActivePlayer().isAI then 1 else 0))
    }

    /** Place the active player's symbol on `boardPosition` and settle the turn. A position
        that is not a board key, or is taken, changes nothing. Otherwise exactly that cell
        gets the symbol, and then: a completed line ends the game as a win, else a full
        board ends it as a draw (the event still names the active player), else the turn
        advances. The running flag is not consulted; the input gate that lets a click through
        only while the AI is not taking its turn is the caller's obligation. */
    method PlaceBoardPiece(boardPosition: Cell)
      requires Valid() && !isAITakingTurn
      modifies this
      ensures Valid()
      ensures players == old(players)
      ensures singlePlayerGameMode == old(singlePlayerGameMode)
      ensures !Vacant(old(board), boardPosition) ==>
                && board == old(board) && activePlayerIndex == old(activePlayerIndex)
                && isGameRunning == old(isGameRunning) && isAITakingTurn == old(isAITakingTurn)
                && suspendedAITurns == old(suspendedAITurns) && events == old(events)
      ensures Vacant(old(board), boardPosition) ==>
                Settled(old(board), old(activePlayerIndex), old(events), old(isGameRunning), boardPosition)
      ensures Vacant(old(board), boardPosition) && old(isGameRunning) && !HasLine(board, boardSize, boardPosition, old(ActivePlayer()).symbolToUse) ==>
                !Won(board, boardSize, X) && !Won(board, boardSize, O)
    {
      if !(boardPosition in board) || board[boardPosition] != None {
        return;
      }
      ghost var before := board;
      board := board[boardPosition := Some(ActivePlayer().symbolToUse)];
      events := events + [BoardPiecePlaced(boardPosition)];
      ConcludePlacement(boardPosition, before);
    }

    /** What PlaceBoardPiece does once the piece is down: a completed line ends the game as
        a win, else a full board ends it as a draw, else the turn advances. A game that was
        running and goes on still has nobody owning a line, and one that ends as a draw has
        nobody owning a line either: checking four lines after each move misses no win. */
    method ConcludePlacement(boardPosition: Cell, ghost before: Grid)
      requires players != [] && Consistent(before) && Vacant(before, boardPosition) && !isAITakingTurn
      requires board == before[boardPosition := Some(ActivePlayer().symbolToUse)]
      modifies this`activePlayerIndex, this`events, this`isAITakingTurn, this`suspendedAITurns, this`isGameRunning
      ensures Valid()
      ensures HasLine(board, boardSize, boardPosition, old(ActivePlayer()).symbolToUse) ==>
                && events == old(events) + [GameEnded(old(ActivePlayer()), false)]
                && !isGameRunning && activePlayerIndex == old(activePlayerIndex)
                && isAITakingTurn == old(isAITakingTurn) && suspendedAITurns == old(suspendedAITurns)
      ensures !HasLine(board, boardSize, boardPosition, old(ActivePlayer()).symbolToUse) && VacantSet(board) == {} ==>
                && events == old(events) + [GameEnded(old(ActivePlayer()), true)]
                && !isGameRunning && activePlayerIndex == old(activePlayerIndex)
                && isAITakingTurn == old(isAITakingTurn) && suspendedAITurns == old(suspendedAITurns)
                && (old(isGameRunning) ==> !Won(board, boardSize, X) && !Won(board, boardSize, O))
      ensures !HasLine(board, boardSize, boardPosition, old(ActivePlayer()).symbolToUse) && VacantSet(board) != {} ==>
                && activePlayerIndex == (old(activePlayerIndex) + 1) % |players|
                && isGameRunning == old(isGameRunning)
                && events == old(events) + [ActivePlayerChanged(ActivePlayer())]
                && (ActivePlayer().isAI ==> isAITakingTurn && suspendedAITurns == old(suspendedAITurns) + 1)
                && (!ActivePlayer().isAI ==>
                      isAITakingTurn == old(isAITakingTurn) && suspendedAITurns == old(suspendedAITurns))
    {
      var won := DidActivePlayerWinThisTurn(boardPosition);
      if won {
        events := events + [GameEnded(ActivePlayer(), false)];
        isGameRunning := false;
      } else {
        if isGameRunning {
          WinIsLocal(before, boardSize, boardPosition, ActivePlayer().symbolToUse, X);
          WinIsLocal(before, boardSize, boardPosition, ActivePlayer().symbolToUse, O);
        }
        var vacantSpaces := GetVacantSpaces();
        if |vacantSpaces| == 0 {
          events := events + [GameEnded(ActivePlayer(), true)];
          isGameRunning := false;
        } else {
          MoveToNextPlayerTurn();
        }
      }
    }

    /** Every board key whose value is null, each once, in the dictionary's enumeration
        order (left unspecified here). */
    method GetVacantSpaces() returns (vacantSpaces: seq<Cell>)
      ensures forall c :: c in vacantSpaces <==> Vacant(board, c)
      ensures Distinct(vacantSpaces)
      ensures |vacantSpaces| == |VacantSet(board)|
    {
      vacantSpaces := [];
      var remaining := board.Keys;
      while remaining != {}
        invariant remaining <= board.Keys
        invariant forall c :: c in vacantSpaces <==> Vacant(board, c) && c !in remaining
        invariant Distinct(vacantSpaces)
        decreases |remaining|
      {
        var space :| space in remaining;
        if board[space] == None {
          vacantSpaces := vacantSpaces + [space];
        }
        remaining := remaining - {space};
      }
      assert (set c | c in vacantSpaces) == VacantSet(board);
      DistinctCount(vacantSpaces);
    }

    /** The active player owns row pos.y, column pos.x, or one of the two diagonals. Called
        only for a position just placed on, so every lookup is a board key. */
    method DidActivePlayerWinThisTurn(boardPosition: Cell) returns (won: bool)
      requires HasActivePlayer() && board.Keys == Cells(boardSize) && boardPosition in board
      ensures won == HasLine(board, boardSize, boardPosition, ActivePlayer().symbolToUse)
      ensures WinCheck(board, boardSize, boardPosition, ActivePlayer().symbolToUse) == Answer(won)
    {
      won := CheckIfHorizontalVictory(boardPosition.y);
      if !won {
        won := CheckIfVerticalVictory(boardPosition.x);
      }
      if !won {
        won := CheckIfLeftDiagonalVictory();
      }
      if !won {
        won := CheckIfRightDiagonalVictory();
      }
      WinCheckOnBoard(board, boardSize, boardPosition, ActivePlayer().symbolToUse);
    }

    method CheckIfHorizontalVictory(rowIndexToCheck: int) returns (won: bool)
      requires HasActivePlayer() && board.Keys == Cells(boardSize) && 0 <= rowIndexToCheck < boardSize
      ensures won == Owns(board, Row(boardSize, rowIndexToCheck), ActivePlayer().symbolToUse)
    {
      var i := 0;
      while i < boardSize
        invariant 0 <= i <= boardSize
        invariant forall k | 0 <= k < i :: board[Cell(k, rowIndexToCheck)] == Some(ActivePlayer().symbolToUse)
      {
        if board[Cell(i, rowIndexToCheck)] != Some(ActivePlayer().symbolToUse) {
          assert Row(boardSize, rowIndexToCheck)[i] == Cell(i, rowIndexToCheck);
          return false;
        }
        i := i + 1;
      }
      return true;
    }

    method CheckIfVerticalVictory(columnIndexToCheck: int) returns (won: bool)
      requires HasActivePlayer() && board.Keys == Cells(boardSize) && 0 <= columnIndexToCheck < boardSize
      ensures won == Owns(board, Column(boardSize, columnIndexToCheck), ActivePlayer().symbolToUse)
    {
      var i := 0;
      while i < boardSize
        invariant 0 <= i <= boardSize
        invariant forall k | 0 <= k < i :: board[Cell(columnIndexToCheck, k)] == Some(ActivePlayer().symbolToUse)
      {
        if board[Cell(columnIndexToCheck, i)] != Some(ActivePlayer().symbolToUse) {
          assert Column(boardSize, columnIndexToCheck)[i] == Cell(columnIndexToCheck, i);
          return false;
        }
        i := i + 1;
      }
      return true;
    }

    method CheckIfLeftDiagonalVictory() returns (won: bool)
      requires HasActivePlayer() && board.Keys == Cells(boardSize)
      ensures won == Owns(board, MainDiagonal(boardSize), ActivePlayer().symbolToUse)
    {
      var i := 0;
      while i < boardSize
        invariant 0 <= i <= Iterations(boardSize)
        invariant forall k | 0 <= k < i :: board[Cell(k, k)] == Some(ActivePlayer().symbolToUse)
      {
        if board[Cell(i, i)] != Some(ActivePlayer().symbolToUse) {
          assert MainDiagonal(boardSize)[i] == Cell(i, i);
          return false;
        }
        i := i + 1;
      }
      return true;
    }

    method CheckIfRightDiagonalVictory() returns (won: bool)
      requires HasActivePlayer() && board.Keys == Cells(boardSize)
      ensures won == Owns(board, AntiDiagonal(boardSize), ActivePlayer().symbolToUse)
    {
      ghost var line := AntiDiagonal(boardSize);
      var x := 0;
      var y := boardSize - 1;
      var i := 0;
      while i < boardSize
        invariant 0 <= i <= Iterations(boardSize)
        invariant x == i && y == boardSize - 1 - i
        invariant forall k | 0 <= k < i :: board[line[k]] == Some(ActivePlayer().symbolToUse)
      {
        assert line[i] == Cell(x, y);
        if board[Cell(x, y)] != Some(ActivePlayer().symbolToUse) {
          return false;
        }
        x := x + 1;
        y := y - 1;
        i := i + 1;
      }
      return true;
    }
  }
}
