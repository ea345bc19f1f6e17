# TikTak: the Tic-Tac-Toe game state, modelled and proved in Dafny

TikTak is a single- and two-player Tic-Tac-Toe game for a 3D game engine. Its logic is
a turn-based state machine. The board is a dictionary from grid cells to an optional
symbol. There are two players (X, then O; O is the AI in single-player mode), an
active-player index that advances cyclically, a "game running" flag and an "AI is taking
its turn" flag. After each placement the game checks for a win, then for a draw.

The same design appears twice, and the model follows each file as written:

- `game_manager.dfy`, module `GameManagement`: the class `GameManager`, the one-class
  version. It holds the board, the roster, the index and both flags. It places pieces,
  decides win, draw or next turn, and schedules the AI.
- `board_manager.dfy`, module `BoardManagement`: the class `BoardManager`, the later
  split-out board half. It reads the symbol to place from a `GameManager`'s active
  player. Its win check is public, so a lookup of a cell that is not on the board
  throws. That exception is modelled as the value `KeyNotFound(cell)`.
- `tictactoe.dfy`, module `TicTacToe`: what both share. It holds the values (symbol,
  cell, the board map, the player record) and the specification the two classes are
  proved against:
  - `Cells`/`EmptyGrid`: the initialised board.
  - `VacantSet`/`Occupied`: the empty and the taken cells.
  - The four lines that are checked: `Row`, `Column`, `MainDiagonal`, `AntiDiagonal`.
  - `Owns`: a symbol is on every cell of a line.
  - `HasLine`: the four-line test made after a move.
  - `Won`: some line anywhere on the board is owned.
  - `ScanFrom`/`WinCheck`: the check loops with their early exits and exceptions.
  - `FindIndex`: the list search used to choose the starting player.

Each imperative member of the source stays imperative. The dictionary is a `map` field
that methods reassign, and the roster is a `seq` field. The board is built by the same
nested loops, and vacancies are collected by a loop over the keys. The win checks are
index loops with early return. `Random.Range` becomes a nondeterministic choice (`:|`)
of an index. The order in which the dictionary enumerates its keys is left unspecified.
The engine's events become an append-only log of event values.

The AI turn is an engine coroutine. Its part before the one-second wait (raise
`IsAITakingTurn`) runs inside `MoveToNextPlayerTurn`. The rest (lower the flag, pick a
vacant cell, place on it) is `ResumeAITakeTurnCo`. The field `suspendedAITurns` counts
the coroutines the engine holds at their wait.

The model follows the code as written, including where a reader might expect otherwise:

- A board size of zero or less is not rejected. The loops then build an empty board.
- `GameManager.PlaceBoardPiece` does not consult `IsGameRunning`. The input gate
  `!IsAITakingTurn && IsGameRunning` lives in its caller: `BoardSelector.cs:12` guards
  the call at `BoardSelector.cs:26`. (`BoardInteractor.cs:81` gates
  `BoardManager.PlaceBoardPiece`, called at `BoardInteractor.cs:47`, the same way.) Its
  other caller is the AI coroutine (`GameManager.cs:107`). The gate's first half is
  modelled as the precondition `!isAITakingTurn` of `PlaceBoardPiece`. The coroutine's
  call satisfies it because the coroutine lowers the flag first. The second half is
  not: a placement after the game has ended is accepted by the model, as by
  `PlaceBoardPiece` itself.
- A draw raises `OnGameEnded` with the active player and `matchWasDraw = true`, not with
  "no winner".
- Starting a new game does not cancel a suspended AI coroutine or clear
  `IsAITakingTurn`. When it resumes, it places for whoever is active then. The model
  keeps this.
- If no cell is vacant, the AI pick throws (it indexes an empty list); it does not skip
  the move. This is the precondition of `AIPickRandomSpotOnBoard`. The class invariant
  shows it is always met: the AI is scheduled only when a cell is free, and while its
  coroutine is suspended the gate keeps everyone else from placing, so the cell is
  still free when it resumes.
- `BoardManager.cs:20` subscribes to `gameManager.OnGameStarted`, and `UI/Game_UI.cs:51`
  calls `gameManager.StartGame(bool)`. Neither exists in `GameManager.cs`, whose
  `StartGame` is private and takes no argument. `BoardManager.InitializeBoard` is
  therefore modelled as a method that its owner calls directly.
- `PlayerID` is declared in both `GameManager.cs:13-27` and `PlayerID.cs:6-20`, with
  identical fields. It is modelled once, as the datatype `TicTacToe.PlayerID`.

## Model

| member | source | states |
|---|---|---|
| `TicTacToe.CellsCount` | TikTak/Assets/Scripts/GameManager.cs:71-77 | the nested loops' key set, every (x, y) with 0 <= x, y < n, has exactly n * n cells |
| `TicTacToe.EmptyGridFacts` | TikTak/Assets/Scripts/BoardManager.cs:42-49 | a freshly built board has exactly the in-range cells as keys; all of them are vacant (n² vacancies), none is occupied, and neither symbol owns a line |
| `TicTacToe.PlacementCounts` | TikTak/Assets/Scripts/BoardManager.cs:26-28 | storing a symbol on a vacant cell keeps the key set; that cell leaves the vacant set and joins the occupied set, so occupied grows by exactly one and vacant shrinks by exactly one |
| `TicTacToe.ScanMeaning` | TikTak/Assets/Scripts/BoardManager.cs:80-87 | a check loop over cells that are all board keys never throws, and answers true exactly when the symbol is on every remaining cell of the line |
| `TicTacToe.ScanThrows` | TikTak/Assets/Scripts/BoardManager.cs:82-84 | a check loop throws only for a cell of its line that is not a board key, reached after every earlier cell of the line held the symbol |
| `TicTacToe.WinCheckOnBoard` | TikTak/Assets/Scripts/BoardManager.cs:78 | on an initialised board and a board cell, the four-check disjunction never throws, and answers exactly "the symbol owns row pos.y, column pos.x, the main diagonal or the anti-diagonal"; both diagonals count wherever pos is |
| `TicTacToe.WinCheckOffBoardRow` | TikTak/Assets/Scripts/BoardManager.cs:78-84 | on an initialised non-empty board, a position whose row is off the board makes the first lookup, of (0, pos.y), throw |
| `TicTacToe.OwnershipAfterPlacement` | TikTak/Assets/Scripts/GameManager.cs:133 | a line that a placement on a vacant cell turns into an owned line runs through that cell, and its owner is the placed symbol |
| `TicTacToe.WinIsLocal` | TikTak/Assets/Scripts/GameManager.cs:138-151 | on a board where t owns no line, after s is placed, t owns a line anywhere iff t = s and one of the four checked lines is owned: the four-line check misses no win, and a move never completes a line for the other symbol |
| `TicTacToe.FindIndex` | TikTak/Assets/Scripts/GameManager.cs:119 | the result is the first index whose player uses the symbol, or -1 exactly when no player does |
| `TicTacToe.DiagonalWinScenario` | TikTak/Assets/Scripts/GameManager.cs:166-193 | 3x3, X on (0,0), (1,1), (2,2), O on (0,1), (0,2): before X's last move nobody owns a line; after it the check answers true |
| `TicTacToe.DrawScenario` | TikTak/Assets/Scripts/GameManager.cs:143-146 | a full 3x3 board on which neither symbol owns a line exists, so the draw outcome is reachable |
| `GameManagement.RosterRoles` | TikTak/Assets/Scripts/GameManager.cs:81-86 | in the built roster a player's index is its id, only player 1 uses X, only player 2 can be the AI (in single-player mode), and the player after the AI is human |
| `GameManagement.GameManager.ActivePlayer` | TikTak/Assets/Scripts/GameManager.cs:35 | `players[activePlayerIndex]`, defined only for an index inside the roster (the list indexer throws otherwise); the result is one of the players |
| `GameManagement.GameManager.constructor` | TikTak/Assets/Scripts/GameManager.cs:32-46 | a new component has no players, an empty board, index 0, both flags false, no suspended AI turn, and an empty event log |
| `GameManagement.GameManager.SelectGameMode` | TikTak/Assets/Scripts/GameManager.cs:48-52 | the chosen mode is stored and a game starts, with the roster for that mode and player 1 (X, human) active |
| `GameManagement.GameManager.StartGame` | TikTak/Assets/Scripts/GameManager.cs:54-61 | from any state in which the AI flag tracks the suspended coroutine: the game runs, the roster is rebuilt, the board is empty, and the active player is player 1 (X, never the AI); events BoardUpdated then ActivePlayerChanged; the AI flag and suspended AI turns are left as they were |
| `GameManagement.GameManager.InitializeBoard` | TikTak/Assets/Scripts/GameManager.cs:63-79 | the board becomes every in-range cell, all vacant (each key added once, so Add never throws); BoardUpdated(boardSize) is raised |
| `GameManagement.GameManager.CreatePlayers` | TikTak/Assets/Scripts/GameManager.cs:81-86 | exactly two players: 0 is "Player 1" with X and not AI; 1 is "Player 2" with O and is the AI iff single-player |
| `GameManagement.GameManager.DetermineStartingPlayerIndex` | TikTak/Assets/Scripts/GameManager.cs:110-121 | single-player gives 0; two-player gives the index of the X player; with the roster CreatePlayers builds, both give 0, a human X |
| `GameManagement.GameManager.MoveToNextPlayerTurn` | TikTak/Assets/Scripts/GameManager.cs:88-100 | the index becomes (i + 1) mod the number of players, staying in range; ActivePlayerChanged is raised; an AI player gets its coroutine started, which raises IsAITakingTurn; called with the flag down and a cell free, it keeps the invariant that a suspended AI turn will find a vacant cell |
| `GameManagement.GameManager.ResumeAITakeTurnCo` | TikTak/Assets/Scripts/GameManager.cs:102-108 | after the delay the flag is lowered, and needs no vacancy precondition (the invariant supplies it): exactly one cell that was vacant gets the symbol of the player active at that moment, one vacancy fewer, and the turn is settled as by PlaceBoardPiece (`Settled`: win, draw or next turn, in source order, with the flag up exactly when the next player is the AI); after the AI's own move the flag is down |
| `GameManagement.GameManager.AIPickRandomSpotOnBoard` | TikTak/Assets/Scripts/GameManager.cs:123-127 | needs some vacant cell (the list is indexed); returns a vacant board cell |
| `GameManagement.GameManager.PlaceBoardPiece` | TikTak/Assets/Scripts/GameManager.cs:129-152 | called past the input gate (AI flag down): a non-key or taken position changes nothing (board, index, flags, events); otherwise exactly that cell gets the active symbol, then (`Settled`) the game ends as a win (a checked line is complete), else as a draw (no vacancy; the event still names the active player), else the turn advances and the AI flag is up exactly when the new player is the AI; the invariant holds: while running, nobody owns a line and a cell is free |
| `GameManagement.GameManager.ConcludePlacement` | TikTak/Assets/Scripts/GameManager.cs:138-151 | after a successful placement: win ends the game without advancing; draw ends it without advancing, and in a game that was running nobody owns any line; otherwise the index advances and the AI is scheduled only when a cell is free |
| `GameManagement.GameManager.GetVacantSpaces` | TikTak/Assets/Scripts/GameManager.cs:154-162 | exactly the keys whose value is null, each once, so as many as there are vacant cells |
| `GameManagement.GameManager.DidActivePlayerWinThisTurn` | TikTak/Assets/Scripts/GameManager.cs:166 | for a board cell: true iff the active symbol owns row pos.y, column pos.x, the main diagonal or the anti-diagonal; every lookup is a board key |
| `GameManagement.GameManager.CheckIfHorizontalVictory` | TikTak/Assets/Scripts/GameManager.cs:168-175 | true iff the active symbol is on every cell (i, row) |
| `GameManagement.GameManager.CheckIfVerticalVictory` | TikTak/Assets/Scripts/GameManager.cs:177-184 | true iff the active symbol is on every cell (column, i) |
| `GameManagement.GameManager.CheckIfLeftDiagonalVictory` | TikTak/Assets/Scripts/GameManager.cs:186-193 | true iff the active symbol is on every cell (i, i) |
| `GameManagement.GameManager.CheckIfRightDiagonalVictory` | TikTak/Assets/Scripts/GameManager.cs:195-206 | true iff the active symbol is on every cell (i, n-1-i), visited with x rising and y falling |
| `BoardManagement.BoardManager.constructor` | TikTak/Assets/Scripts/BoardManager.cs:9-13 | a new component has its size and game manager, an empty board and no events |
| `BoardManagement.BoardManager.PlaceBoardPiece` | TikTak/Assets/Scripts/BoardManager.cs:24-33 | returns true iff the position is a vacant board cell; on false nothing changes; on true only that cell changes, to the active symbol, occupied grows by one and vacant shrinks by one |
| `BoardManagement.BoardManager.InitializeBoard` | TikTak/Assets/Scripts/BoardManager.cs:35-51 | the board becomes exactly the boardSize² in-range cells, all vacant; BoardUpdated is raised |
| `BoardManagement.BoardManager.GetPieceAtPosition` | TikTak/Assets/Scripts/BoardManager.cs:55-59 | true iff the position is a board key, with its stored value, else null; on an initialised board true exactly for in-range positions |
| `BoardManagement.BoardManager.PickRandomSpotOnBoard` | TikTak/Assets/Scripts/BoardManager.cs:61-65 | needs some vacant cell; returns a vacant board cell, a member of GetVacantSpaces |
| `BoardManagement.BoardManager.GetVacantSpaces` | TikTak/Assets/Scripts/BoardManager.cs:67-75 | exactly the keys whose value is null, without duplicates, as many as there are vacant cells |
| `BoardManagement.BoardManager.DidActivePlayerWinThisTurn` | TikTak/Assets/Scripts/BoardManager.cs:78 | the short-circuit disjunction of the four checks; on a valid board and a board cell (so an initialised board), no exception and true iff a checked line is owned; a row off an initialised board throws at (0, pos.y) |
| `BoardManagement.BoardManager.CheckIfHorizontalVictory` | TikTak/Assets/Scripts/BoardManager.cs:80-87 | the row scan with its early exits; when the row's cells are all keys, true iff the active symbol fills the row |
| `BoardManagement.BoardManager.CheckIfVerticalVictory` | TikTak/Assets/Scripts/BoardManager.cs:89-96 | the column scan; when the column's cells are all keys, true iff the active symbol fills it |
| `BoardManagement.BoardManager.CheckIfLeftDiagonalVictory` | TikTak/Assets/Scripts/BoardManager.cs:98-105 | the main-diagonal scan; on an initialised board, true iff the active symbol fills (i, i) |
| `BoardManagement.BoardManager.CheckIfRightDiagonalVictory` | TikTak/Assets/Scripts/BoardManager.cs:107-118 | the anti-diagonal scan (x up, y down); on an initialised board, true iff the active symbol fills (i, n-1-i) |

The win checks only read the board. Their methods have no `modifies` clause, so the
verifier enforces this.

## Left out

- Engine objects and visuals: destroying and instantiating piece objects
  (`boardPieceObjects`, `PlacePieceOnBoard`), `GetBoardPieceFromSymbol`, and the tween,
  particle, camera and tilemap code. These are calls into the engine.
- Event subscribers: the UI and audio listeners. The events themselves are kept as a log.
- The one-second wait (`WaitForSeconds`) and the rotating placeholder task. They are
  time and concurrency. Only the flag changes around the AI move, and the coroutine's
  resumption as a separate step, are modelled.
- `Random.Range`: a nondeterministic choice, with no distribution.
- Input: raycasting and the float-to-int cursor mapping. This is floating point and
  engine input. Of the input gate, only `!IsAITakingTurn` is kept, as a precondition of
  `GameManager.PlaceBoardPiece`. The `IsGameRunning` half is not modelled.
- `GameManagement.GameManager.MoveToNextPlayerTurn`: it requires the AI flag to be down
  and a cell to be free. Its one caller guarantees both. A second AI coroutine started
  while one is suspended therefore does not arise in the model; with the gate in place
  it does not arise in the code either.
- `GameManagement.GameManager.DidActivePlayerWinThisTurn`: it and its four checks
  require the position, row or column to be on the board. This is because their only
  caller passes a cell it has just placed on. The out-of-range exception is modelled in
  `BoardManager`'s public check instead.
- `BoardManagement.BoardManager.DidActivePlayerWinThisTurn`: it and its four checks
  require the game manager to have an active player. The source reads it only at the
  first cell that is a board key, so this excludes three inputs it handles otherwise:
  - A board size of zero or less: the loops never read the active player.
  - A board not yet initialised, with a positive size: the lookup of `(0, pos.y)`
    throws `KeyNotFoundException` first (`BoardManager.cs:84`).
  - An initialised board with no roster yet: `ActivePlayer` throws
    `ArgumentOutOfRangeException` (`BoardManager.cs:84` through `GameManager.cs:35`).
    The model excludes this case rather than modelling that exception.
- `GameManagement.GameManager.PlaceBoardPiece`: the vacancy count falling by one is not
  part of its contract. It follows from the board equation in that contract by
  `TicTacToe.PlacementCounts`.
