/**
  The layout of one card: the drawn traits fill an `n_rows` by `n_rows` grid
  row by row, and each cell is a square of side `cell_size` whose corner
  moves right with the column and down with the row.

  The markup is kept as its structure: one Cell per grid cell, in the order
  the program emits them.
 */
module Layout {
  import opened Traits
  import opened Draw

  /** One cell as drawn: the corner of its rectangle, the rectangle's side,
      and the trait written in it (`text`). */
  datatype Cell = Cell(x: int, y: int, side: int, text: string)

  /** One card's markup: the cell size it declares and its cells. */
  datatype Fragment = Fragment(cellSize: int, cells: seq<Cell>)

  /** The board index that cell (row, col) reads: row-major order. It lies
      inside the grid and gives back its row and column by division. */
  function BoardIndex(n: nat, row: nat, col: nat): (k: nat)
    requires row < n && col < n
    ensures k < n * n
    ensures k / n == row && k % n == col
  {
    RowMajor(n, row, col);
    row * n + col
  }

  lemma RowMajor(n: nat, row: nat, col: nat)
    requires row < n && col < n
    ensures row * n + col < n * n
    ensures (row * n + col) / n == row && (row * n + col) % n == col
  {
    assert row * n + n == (row + 1) * n;
    MultiplyMonotone(row + 1, n, n);
    DivModUnique(row * n + col, n, row, col);
  }

  lemma MultiplyMonotone(a: nat, b: nat, n: nat)
    requires a <= b
    ensures a * n <= b * n
  {
    assert b * n == a * n + (b - a) * n;
  }

  /** Euclidean division has one quotient and one remainder. */
  lemma DivModUnique(k: int, n: int, q: int, r: int)
    requires n > 0 && 0 <= r < n && k == q * n + r
    ensures k / n == q && k % n == r
  {
    var q', r' := k / n, k % n;
    assert (q - q') * n == r' - r by {
      assert q * n - q' * n == (q - q') * n;
    }
    SmallMultipleIsZero(q - q', n);
  }

  /** The only multiple of `n` strictly between `-n` and `n` is zero. */
  lemma SmallMultipleIsZero(d: int, n: int)
    requires n > 0 && -n < d * n < n
    ensures d == 0
  {
    if d >= 1 {
      MultipleAtLeast(d, n);
    } else if d <= -1 {
      MultipleAtLeast(-d, n);
    }
  }

  lemma MultipleAtLeast(d: int, n: int)
    requires d >= 1 && n > 0
    ensures d * n >= n
  {
    assert d * n == (d - 1) * n + n;
    assert (d - 1) * n >= 0;
  }

  /** The cell that reads board index `k`: the inverse of BoardIndex. */
  function CellOf(n: nat, k: nat): (rc: (nat, nat))
    requires k < n * n
    ensures rc.0 < n && rc.1 < n
    ensures BoardIndex(n, rc.0, rc.1) == k
  {
    QuotientInGrid(n, k);
    (k / n, k % n)
  }

  lemma QuotientInGrid(n: nat, k: nat)
    requires k < n * n
    ensures n > 0 && k / n < n && k == (k / n) * n + k % n
  {
    assert n > 0;
  }

  /** The corner of the rectangle of cell (row, col); rows grow downwards. */
  function Origin(cellSize: int, row: nat, col: nat): (int, int)
  {
    (col * cellSize, -(row * cellSize))
  }

  /** With a positive cell size, distinct cells have distinct corners, and
      the corner gives back the cell. */
  lemma OriginDeterminesCell(cellSize: int, r1: nat, c1: nat, r2: nat, c2: nat)
    requires cellSize > 0
    ensures Origin(cellSize, r1, c1) == Origin(cellSize, r2, c2) <==> r1 == r2 && c1 == c2
    ensures Origin(cellSize, r1, c1).0 / cellSize == c1 && -Origin(cellSize, r1, c1).1 / cellSize == r1
  {
    if c1 != c2 {
      assert (c1 - c2) * cellSize != 0;
    }
    if r1 != r2 {
      assert (r1 - r2) * cellSize != 0;
    }
    DivModUnique(c1 * cellSize, cellSize, c1, 0);
    DivModUnique(r1 * cellSize, cellSize, r1, 0);
  }

  /** The cell the program emits at position `k` of its output. */
  function CellAt(cfg: Config, board: seq<string>, k: nat): Cell
    requires k < Cells(cfg) <= |board|
  {
    var (row, col) := CellOf(cfg.nRows, k);
    var (x, y) := Origin(cfg.cellSize, row, col);
    Cell(x, y, cfg.cellSize, board[k])
  }

  /** The cells of a card drawn from `board`: one per grid cell; cell
      (row, col) reads board index `row * n_rows + col` and its square of
      side `cell_size` starts at `(col * cell_size, -row * cell_size)`. */
  predicate LaidOut(cfg: Config, board: seq<string>, cells: seq<Cell>)
    requires Cells(cfg) <= |board|
  {
    && |cells| == Cells(cfg)
    && forall row: nat, col: nat :: row < cfg.nRows && col < cfg.nRows ==>
         cells[BoardIndex(cfg.nRows, row, col)] ==
           Cell(col * cfg.cellSize, -(row * cfg.cellSize), cfg.cellSize, board[BoardIndex(cfg.nRows, row, col)])
  }

  /** The nested row and column loops of `generate_latex_bingo_card`,
      emitting one cell per iteration. */
  method LayOutGrid(cfg: Config, board: seq<string>) returns (cells: seq<Cell>)
    requires Cells(cfg) <= |board|
    ensures LaidOut(cfg, board, cells)
  {
    var n := cfg.nRows;
    cells := [];
    for row := 0 to n
      invariant |cells| == row * n
      invariant EmittedInOrder(cfg, board, cells)
    {
      for col := 0 to n
        invariant |cells| == row * n + col
        invariant EmittedInOrder(cfg, board, cells)
      {
        var k := BoardIndex(n, row, col);
        var number := board[k];
        var xPos := col * cfg.cellSize;
        var yPos := -(row * cfg.cellSize);
        EmitNext(cfg, board, cells, row, col);
        cells := cells + [Cell(xPos, yPos, cfg.cellSize, number)];
      }
      assert row * n + n == (row + 1) * n;
    }
    EmittedGridIsLaidOut(cfg, board, cells);
  }

  /** The cells emitted so far are the first cells of the grid, in order. */
  predicate EmittedInOrder(cfg: Config, board: seq<string>, cells: seq<Cell>)
    requires Cells(cfg) <= |board|
  {
    forall k :: 0 <= k < |cells| ==> k < Cells(cfg) && cells[k] == CellAt(cfg, board, k)
  }

  lemma EmitNext(cfg: Config, board: seq<string>, cells: seq<Cell>, row: nat, col: nat)
    requires Cells(cfg) <= |board| && row < cfg.nRows && col < cfg.nRows
    requires |cells| == row * cfg.nRows + col && EmittedInOrder(cfg, board, cells)
    ensures EmittedInOrder(cfg, board, cells + [Cell(col * cfg.cellSize, -(row * cfg.cellSize), cfg.cellSize,
                                                     board[BoardIndex(cfg.nRows, row, col)])])
  {
    var k := BoardIndex(cfg.nRows, row, col);
    assert CellOf(cfg.nRows, k) == (row, col);
  }

  lemma EmittedGridIsLaidOut(cfg: Config, board: seq<string>, cells: seq<Cell>)
    requires Cells(cfg) <= |board| && |cells| == Cells(cfg) && EmittedInOrder(cfg, board, cells)
    ensures LaidOut(cfg, board, cells)
  {
    var n := cfg.nRows;
    forall row: nat, col: nat | row < n && col < n
      ensures cells[BoardIndex(n, row, col)] ==
                Cell(col * cfg.cellSize, -(row * cfg.cellSize), cfg.cellSize, board[BoardIndex(n, row, col)])
    {
      var k := BoardIndex(n, row, col);
      assert CellOf(n, k) == (row, col);
    }
  }

  /** `generate_latex_bingo_card`: draw a card, then lay it out. */
  method GenerateBingoCard(cfg: Config, pool: Pool, o: Oracle) returns (f: Fragment)
    requires OracleFits(cfg, pool, o) && Cells(cfg) <= Total(cfg)
    ensures f.cellSize == cfg.cellSize && LaidOut(cfg, Card(cfg, pool, o), f.cells)
  {
    var board := SelectRandomCategories(cfg, pool, o);
    var cells := LayOutGrid(cfg, board);
    f := Fragment(cfg.cellSize, cells);
  }

  /** The grid shows the first `n_rows²` traits of the board, each exactly
      once and in board order; traits beyond those are drawn but not shown. */
  lemma {:induction false} GridShowsBoardPrefix(cfg: Config, board: seq<string>, cells: seq<Cell>)
    requires Cells(cfg) <= |board| && LaidOut(cfg, board, cells)
    ensures |cells| == Cells(cfg)
    ensures forall k :: 0 <= k < |cells| ==> cells[k].text == board[k]
  {
    forall k | 0 <= k < |cells| ensures cells[k].text == board[k] {
      var (row, col) := CellOf(cfg.nRows, k);
      assert BoardIndex(cfg.nRows, row, col) == k;
    }
  }

  /** Every trait shown on a card is a key of one of the three categories. */
  lemma CardShowsPoolTraits(cfg: Config, pool: Pool, o: Oracle, f: Fragment)
    requires OracleFits(cfg, pool, o) && Cells(cfg) <= Total(cfg)
    requires LaidOut(cfg, Card(cfg, pool, o), f.cells)
    ensures forall i :: 0 <= i < |f.cells| ==>
      exists k :: 0 <= k < |CategoryNames| && f.cells[i].text in Keys(pool[CategoryNames[k]])
  {
    var board := Card(cfg, pool, o);
    GridShowsBoardPrefix(cfg, board, f.cells);
    CardTraitsComeFromPool(cfg, pool, o);
    forall i | 0 <= i < |f.cells|
      ensures exists k :: 0 <= k < |CategoryNames| && f.cells[i].text in Keys(pool[CategoryNames[k]])
    {
      assert board[i] in board;
    }
  }
}
