/**
  The values shared by both board models: the board symbols, grid cells, the board
  dictionary, the player record, and the specification of vacancy and of the
  four-line win check that GameManager and BoardManager both implement.
 */
module TicTacToe {

  /** The marks a player can place; the enum has exactly these two variants. */
  datatype BoardSymbol = X | O

  /** A grid coordinate (Vector2Int). */
  datatype Cell = Cell(x: int, y: int)

  /** A nullable value (`BoardSymbol?`). */
  datatype Option<T> = None | Some(value: T)

  /** The board dictionary: cell to optional symbol, `None` meaning vacant. */
  type Grid = map<Cell, Option<BoardSymbol>>

  /** The immutable player record. */
  datatype PlayerID = PlayerID(id: int, name: string, symbolToUse: BoardSymbol, isAI: bool)

  /** How often `for (int i = 0; i < n; i++)` runs its body. */
  function Iterations(n: int): nat
  {
    if n < 0 then 0 else n
  }

  predicate InRange(n: int, c: Cell)
  {
    0 <= c.x < n && 0 <= c.y < n
  }

  /** Every cell of an n-by-n board. */
  function Cells(n: int): (cells: set<Cell>)
    ensures forall c :: c in cells <==> InRange(n, c)
  {
    var cells := set x, y | 0 <= x < n && 0 <= y < n :: Cell(x, y);
    assert forall c | InRange(n, c) :: c == Cell(c.x, c.y) && c in cells;
    cells
  }

  /** The board as the nested initialisation loops leave it: every cell, all vacant. */
  function EmptyGrid(n: int): Grid
  {
    map c | c in Cells(n) :: None
  }

  predicate Vacant(g: Grid, c: Cell)
  {
    c in g && g[c] == None
  }

  function VacantSet(g: Grid): set<Cell>
  {
    set c | c in g && g[c] == None
  }

  function Occupied(g: Grid): set<Cell>
  {
    set c | c in g && g[c] != None
  }

  // ---------------------------------------------------------------------------
  // Lines and winning
  // ---------------------------------------------------------------------------

  /** The cells the horizontal check visits for row `y`, in visiting order. */
  function Row(n: int, y: int): seq<Cell>
  {
    seq(Iterations(n), i => Cell(i, y))
  }

  /** The cells the vertical check visits for column `x`. */
  function Column(n: int, x: int): seq<Cell>
  {
    seq(Iterations(n), i => Cell(x, i))
  }

  /** The cells (i, i) the left-diagonal check visits. */
  function MainDiagonal(n: int): seq<Cell>
  {
    seq(Iterations(n), i => Cell(i, i))
  }

  /** The cells the right-diagonal check visits: x counts up from 0 while y counts down from n - 1. */
  function AntiDiagonal(n: int): seq<Cell>
  {
    seq(Iterations(n), i => Cell(i, n - 1 - i))
  }

  /** Symbol `s` is on every cell of `line`. */
  predicate Owns(g: Grid, line: seq<Cell>, s: BoardSymbol)
  {
    forall i | 0 <= i < |line| :: line[i] in g && g[line[i]] == Some(s)
  }

  /** The lines the win check looks at after a piece lands on `pos`:
      its row, its column and both diagonals, wherever `pos` is. */
  predicate HasLine(g: Grid, n: int, pos: Cell, s: BoardSymbol)
  {
    || Owns(g, Row(n, pos.y), s)
    || Owns(g, Column(n, pos.x), s)
    || Owns(g, MainDiagonal(n), s)
    || Owns(g, AntiDiagonal(n), s)
  }

  /** Symbol `s` owns some line of the board, wherever it is. */
  predicate Won(g: Grid, n: int, s: BoardSymbol)
  {
    && 0 < n
    && (|| (exists y | 0 <= y < n :: Owns(g, Row(n, y), s))
        || (exists x | 0 <= x < n :: Owns(g, Column(n, x), s))
        || Owns(g, MainDiagonal(n), s)
        || Owns(g, AntiDiagonal(n), s))
  }

  /** What one check loop yields: its answer, or the missing key whose lookup
      throws KeyNotFoundException. */
  datatype Checked = Answer(holds: bool) | KeyNotFound(key: Cell)

  /** One check loop from index `i` on: stop at the first missing key (throw), at the
      first cell not holding `s` (false), and answer true after the last cell. */
  function ScanFrom(g: Grid, line: seq<Cell>, s: BoardSymbol, i: nat): Checked
    requires i <= |line|
    decreases |line| - i
  {
    if i == |line| then Answer(true)
    else if line[i] !in g then KeyNotFound(line[i])
    else if g[line[i]] != Some(s) then Answer(false)
    else ScanFrom(g, line, s, i + 1)
  }

  /** `a || b` in C#: an exception in `a` propagates, true stops, false goes on to `b`. */
  function OrElse(a: Checked, b: Checked): Checked
  {
    if a == Answer(false) then b else a
  }

  /** DidActivePlayerWinThisTurn: row pos.y, column pos.x, main diagonal, anti-diagonal,
      each evaluated only when every earlier one answered false. */
  function WinCheck(g: Grid, n: int, pos: Cell, s: BoardSymbol): Checked
  {
    OrElse(ScanFrom(g, Row(n, pos.y), s, 0),
      OrElse(ScanFrom(g, Column(n, pos.x), s, 0),
        OrElse(ScanFrom(g, MainDiagonal(n), s, 0),
          ScanFrom(g, AntiDiagonal(n), s, 0))))
  }

  // ---------------------------------------------------------------------------
  // Players
  // ---------------------------------------------------------------------------

  /** List.FindIndex with the test `p.SymbolToUse == s`: the first such index, or -1. */
  function FindIndex(ps: seq<PlayerID>, s: BoardSymbol): (r: int)
    ensures -1 <= r < |ps|
    ensures r == -1 <==> forall j | 0 <= j < |ps| :: ps[j].symbolToUse != s
    ensures 0 <= r ==> ps[r].symbolToUse == s && forall j | 0 <= j < r :: ps[j].symbolToUse != s
  {
    if ps == [] then -1
    else if ps[0].symbolToUse == s then 0
    else
      var k := FindIndex(ps[1..], s);
      if k < 0 then -1 else k + 1
  }

  /** No value occurs twice in `s`. */
  predicate Distinct(s: seq<Cell>)
  {
    forall i, j | 0 <= i < j < |s| :: s[i] != s[j]
  }

  // ---------------------------------------------------------------------------
  // Lemmas
  // ---------------------------------------------------------------------------

  /** The cells with 0 <= x < w and 0 <= y < n. */
  function Block(w: int, n: int): (cells: set<Cell>)
    ensures forall c :: c in cells <==> 0 <= c.x < w && 0 <= c.y < n
  {
    var cells := set x, y | 0 <= x < w && 0 <= y < n :: Cell(x, y);
    assert forall c: Cell | 0 <= c.x < w && 0 <= c.y < n :: c == Cell(c.x, c.y) && c in cells;
    cells
  }

  /** The cells (x, y) with 0 <= y < n. */
  function ColumnSet(x: int, n: int): (cells: set<Cell>)
    ensures forall c :: c in cells <==> c.x == x && 0 <= c.y < n
  {
    var cells := set y | 0 <= y < n :: Cell(x, y);
    assert forall c: Cell | c.x == x && 0 <= c.y < n :: c == Cell(x, c.y) && c in cells;
    cells
  }

  lemma {:induction false} ColumnCount(x: int, n: nat)
    ensures |ColumnSet(x, n)| == n
  {
    if n > 0 {
      ColumnCount(x, n - 1);
      assert ColumnSet(x, n) == ColumnSet(x, n - 1) + {Cell(x, n - 1)};
    }
  }

  lemma {:induction false} BlockCount(w: nat, n: nat)
    ensures |Block(w, n)| == w * n
  {
    if w > 0 {
      BlockCount(w - 1, n);
      ColumnCount(w - 1, n);
      var left, column := Block(w - 1, n), ColumnSet(w - 1, n);
      assert Block(w, n) == left + column;
      assert left !! column;
      assert |left + column| == |left| + |column|;
      assert (w - 1) * n + n == w * n;
    }
  }

  /** An n-by-n board has n * n cells. */
  lemma CellsCount(n: nat)
    ensures |Cells(n)| == n * n
  {
    assert Cells(n) == Block(n, n);
    BlockCount(n, n);
  }

  /** A freshly initialised board: exactly the n * n in-range cells, all vacant, and no line
      owned by anyone. */
  lemma EmptyGridFacts(n: int)
    ensures EmptyGrid(n).Keys == Cells(n)
    ensures VacantSet(EmptyGrid(n)) == Cells(n) && Occupied(EmptyGrid(n)) == {}
    ensures 0 <= n ==> |VacantSet(EmptyGrid(n))| == n * n
    ensures 0 < n ==> Vacant(EmptyGrid(n), Cell(0, 0))
    ensures !Won(EmptyGrid(n), n, X) && !Won(EmptyGrid(n), n, O)
  {
    var g := EmptyGrid(n);
    assert VacantSet(g) == Cells(n);
    if 0 <= n {
      CellsCount(n);
    }
    forall s: BoardSymbol ensures !Won(g, n, s) {
      if 0 < n {
        forall y | 0 <= y < n ensures !Owns(g, Row(n, y), s) {
          assert Row(n, y)[0] == Cell(0, y);
        }
        forall x | 0 <= x < n ensures !Owns(g, Column(n, x), s) {
          assert Column(n, x)[0] == Cell(x, 0);
        }
        assert MainDiagonal(n)[0] == Cell(0, 0);
        assert AntiDiagonal(n)[0] == Cell(0, n - 1);
      }
    }
  }

  /** Placing on a vacant cell: same keys, that cell leaves the vacant set and joins the
      occupied one, so the occupied count grows by one and the vacant count shrinks by one. */
  lemma PlacementCounts(g: Grid, pos: Cell, s: BoardSymbol)
    requires Vacant(g, pos)
    ensures g[pos := Some(s)].Keys == g.Keys
    ensures VacantSet(g[pos := Some(s)]) == VacantSet(g) - {pos}
    ensures Occupied(g[pos := Some(s)]) == Occupied(g) + {pos}
    ensures |VacantSet(g[pos := Some(s)])| == |VacantSet(g)| - 1
    ensures |Occupied(g[pos := Some(s)])| == |Occupied(g)| + 1
  {
  }

  /** A check loop over cells that are all board keys never throws, and answers whether
      `s` owns the rest of the line. */
  lemma {:induction false} ScanMeaning(g: Grid, line: seq<Cell>, s: BoardSymbol, i: nat)
    requires i <= |line|
    requires forall k | i <= k < |line| :: line[k] in g
    ensures ScanFrom(g, line, s, i) == Answer(forall k | i <= k < |line| :: g[line[k]] == Some(s))
    decreases |line| - i
  {
    if i < |line| && g[line[i]] == Some(s) {
      ScanMeaning(g, line, s, i + 1);
    }
  }

  /** A check loop throws only on a cell of the line that is not a board key, after
      every earlier cell held `s`. */
  lemma {:induction false} ScanThrows(g: Grid, line: seq<Cell>, s: BoardSymbol, i: nat)
    requires i <= |line|
    requires ScanFrom(g, line, s, i).KeyNotFound?
    ensures exists k | i <= k < |line| ::
              && line[k] == ScanFrom(g, line, s, i).key
              && forall j | i <= j < k :: line[j] in g && g[line[j]] == Some(s)
    ensures ScanFrom(g, line, s, i).key !in g
    decreases |line| - i
  {
    if line[i] in g {
      ScanThrows(g, line, s, i + 1);
      var k :| i + 1 <= k < |line| && line[k] == ScanFrom(g, line, s, i + 1).key
                && forall j | i + 1 <= j < k :: line[j] in g && g[line[j]] == Some(s);
      assert forall j | i <= j < k :: line[j] in g && g[line[j]] == Some(s);
    } else {
      assert line[i] == ScanFrom(g, line, s, i).key;
    }
  }

  /** On an initialised board, the win check for a piece on a board cell never throws and
      answers exactly whether `s` owns row pos.y, column pos.x or one of the two diagonals. */
  lemma WinCheckOnBoard(g: Grid, n: int, pos: Cell, s: BoardSymbol)
    requires g.Keys == Cells(n) && pos in g
    ensures WinCheck(g, n, pos, s) == Answer(HasLine(g, n, pos, s))
  {
    ScanMeaning(g, Row(n, pos.y), s, 0);
    ScanMeaning(g, Column(n, pos.x), s, 0);
    ScanMeaning(g, MainDiagonal(n), s, 0);
    ScanMeaning(g, AntiDiagonal(n), s, 0);
  }

  /** On an initialised non-empty board, a position whose row is off the board makes the
      very first lookup, of (0, pos.y), throw. */
  lemma WinCheckOffBoardRow(g: Grid, n: int, pos: Cell, s: BoardSymbol)
    requires g.Keys == Cells(n) && 0 < n && !(0 <= pos.y < n)
    ensures WinCheck(g, n, pos, s) == KeyNotFound(Cell(0, pos.y))
  {
  }

  /** If a line is owned after placing `s` on the vacant `pos` but not before, it runs
      through `pos` and its owner is `s`. */
  lemma OwnershipAfterPlacement(g: Grid, line: seq<Cell>, pos: Cell, s: BoardSymbol, t: BoardSymbol)
    requires Vacant(g, pos)
    requires Owns(g[pos := Some(s)], line, t) && !Owns(g, line, t)
    ensures pos in line && t == s
  {
  }

  /** Placing `s` on a vacant cell of a board on which `t` owns no line: afterwards `t` owns
      a line anywhere on the board only if `t` is `s` and the line is one that the win check
      examines for `pos`; and each line that check examines does count as a win. So checking
      four lines after each move misses no win, and a placement never completes a line for
      the other symbol. */
  lemma WinIsLocal(g: Grid, n: int, pos: Cell, s: BoardSymbol, t: BoardSymbol)
    requires g.Keys == Cells(n) && Vacant(g, pos) && !Won(g, n, t)
    ensures Won(g[pos := Some(s)], n, t) <==> t == s && HasLine(g[pos := Some(s)], n, pos, s)
  {
  }

  /** A sequence without repeats has as many distinct elements as entries. */
  lemma {:induction false} DistinctCount(s: seq<Cell>)
    requires Distinct(s)
    ensures |set x | x in s| == |s|
  {
    if s != [] {
      DistinctCount(s[1..]);
      assert (set x | x in s) == (set x | x in s[1..]) + {s[0]};
      assert s[0] !in s[1..];
    }
  }

  /** A 3x3 game in which X took (0,0), (1,1), (2,2) and O took (0,1), (0,2): the check after
      X's last move finds the main diagonal, and before that move nobody owned a line. */
  lemma DiagonalWinScenario()
    ensures var before := EmptyGrid(3)[Cell(0, 0) := Some(X)][Cell(0, 1) := Some(O)]
                          [Cell(1, 1) := Some(X)][Cell(0, 2) := Some(O)];
            && Vacant(before, Cell(2, 2))
            && !Won(before, 3, X) && !Won(before, 3, O)
            && WinCheck(before[Cell(2, 2) := Some(X)], 3, Cell(2, 2), X) == Answer(true)
  {
    var before := EmptyGrid(3)[Cell(0, 0) := Some(X)][Cell(0, 1) := Some(O)]
                  [Cell(1, 1) := Some(X)][Cell(0, 2) := Some(O)];
    assert Cell(2, 2) in Cells(3) && Cell(1, 0) in Cells(3) && Cell(2, 0) in Cells(3);
    assert Cell(1, 2) in Cells(3) && Cell(2, 1) in Cells(3);
    forall s: BoardSymbol ensures !Won(before, 3, s) {
      forall y | 0 <= y < 3 ensures !Owns(before, Row(3, y), s) {
        assert Row(3, y)[2] == Cell(2, y);
        if y == 1 { assert Row(3, y)[0] == Cell(0, 1); }
      }
      forall x | 0 <= x < 3 ensures !Owns(before, Column(3, x), s) {
        if x == 0 { assert Column(3, x)[1] == Cell(0, 1) && Column(3, x)[0] == Cell(0, 0); }
        else { assert Column(3, x)[x] == Cell(x, x) && Column(3, x)[0] == Cell(x, 0); }
      }
      assert MainDiagonal(3)[2] == Cell(2, 2);
      assert AntiDiagonal(3)[0] == Cell(0, 2) && AntiDiagonal(3)[1] == Cell(1, 1);
    }
    var after := before[Cell(2, 2) := Some(X)];
    assert Row(3, 2)[0] == Cell(0, 2);
    assert Column(3, 2)[0] == Cell(2, 0);
    assert MainDiagonal(3) == [Cell(0, 0), Cell(1, 1), Cell(2, 2)];
  }

  /** A full 3x3 board on which nobody owns a line (rows, bottom to top in y:
      X O X / X O O / O X X): the draw outcome is reachable. */
  lemma DrawScenario()
    ensures var full := EmptyGrid(3)
              [Cell(0, 0) := Some(X)][Cell(1, 0) := Some(O)][Cell(2, 0) := Some(X)]
              [Cell(0, 1) := Some(X)][Cell(1, 1) := Some(O)][Cell(2, 1) := Some(O)]
              [Cell(0, 2) := Some(O)][Cell(1, 2) := Some(X)][Cell(2, 2) := Some(X)];
            && full.Keys == Cells(3) && VacantSet(full) == {}
            && !Won(full, 3, X) && !Won(full, 3, O)
  {
    var full := EmptyGrid(3)
      [Cell(0, 0) := Some(X)][Cell(1, 0) := Some(O)][Cell(2, 0) := Some(X)]
      [Cell(0, 1) := Some(X)][Cell(1, 1) := Some(O)][Cell(2, 1) := Some(O)]
      [Cell(0, 2) := Some(O)][Cell(1, 2) := Some(X)][Cell(2, 2) := Some(X)];
    forall c | c in full ensures full[c] != None {
      assert InRange(3, c);
      assert c.x == 0 || c.x == 1 || c.x == 2;
      assert c.y == 0 || c.y == 1 || c.y == 2;
    }
    forall s: BoardSymbol ensures !Won(full, 3, s) {
      forall y | 0 <= y < 3 ensures !Owns(full, Row(3, y), s) {
        assert Row(3, y)[0] == Cell(0, y) && Row(3, y)[1] == Cell(1, y);
      }
      forall x | 0 <= x < 3 ensures !Owns(full, Column(3, x), s) {
        assert Column(3, x)[1] == Cell(x, 1) && Column(3, x)[2] == Cell(x, 2);
      }
      assert MainDiagonal(3)[0] == Cell(0, 0) && MainDiagonal(3)[1] == Cell(1, 1);
      assert AntiDiagonal(3)[1] == Cell(1, 1) && AntiDiagonal(3)[2] == Cell(2, 0);
    }
  }
}
