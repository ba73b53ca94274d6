/** The board of the tile-merge puzzle: a GridSize x GridSize grid of
    cells (0 for empty, otherwise a tile value), the running score, and the
    moves that slide every row or column toward one side and then drop a
    new tile into an empty cell. */
module ManaMerge {
  import opened Tiles

  // ---------------------------------------------------------------------
  // Boards

  /** A board: GridSize rows of GridSize cells each. */
  predicate IsGrid(g: seq<seq<int>>) {
    |g| == GridSize && forall i :: 0 <= i < |g| ==> |g[i]| == GridSize
  }

  /** Every cell is empty or a power of two of at least 2. */
  predicate BoardTiles(g: seq<seq<int>>) {
    forall i :: 0 <= i < |g| ==> AllTiles(g[i])
  }

  /** `Array.from({length: size}, () => Array(size).fill(0))`. */
  function EmptyGrid(size: nat): (g: seq<seq<int>>)
    ensures |g| == size && forall i :: 0 <= i < size ==> g[i] == Zeros(size)
    ensures size == GridSize ==> IsGrid(g) && BoardTiles(g)
  {
    seq(size, _ => Zeros(size))
  }

  /** Two boards with the same cells are the same board. */
  lemma GridExt(a: seq<seq<int>>, b: seq<seq<int>>)
    requires IsGrid(a) && IsGrid(b)
    requires forall i, j :: 0 <= i < GridSize && 0 <= j < GridSize ==> a[i][j] == b[i][j]
    ensures a == b
  {
    forall i | 0 <= i < GridSize
      ensures a[i] == b[i]
    {
    }
  }

  /** Column j read top to bottom (`col.push(grid[i][j])` for each i). */
  function Column(g: seq<seq<int>>, j: nat): (col: seq<int>)
    requires IsGrid(g) && j < GridSize
    ensures |col| == GridSize && forall i :: 0 <= i < GridSize ==> col[i] == g[i][j]
  {
    seq(GridSize, i requires 0 <= i < GridSize => g[i][j])
  }

  /** The sum of all cells. */
  function Total(g: seq<seq<int>>): int {
    if g == [] then 0 else Sum(g[0]) + Total(g[1..])
  }

  // ---------------------------------------------------------------------
  // The four directions

  predicate IsRowDirection(direction: string) {
    direction == "left" || direction == "right"
  }

  predicate IsColumnDirection(direction: string) {
    direction == "up" || direction == "down"
  }

  /** What a move does to one line, read in board order: `left` and `up`
      slide toward the first cell, `right` and `down` toward the last one,
      and any other direction leaves the line alone. */
  function SlideLine(direction: string, line: seq<int>): (r: seq<int>)
    ensures |line| == GridSize ==> |r| == GridSize
  {
    if direction == "left" || direction == "up" then Slid(line)
    else if direction == "right" || direction == "down" then SlidBack(line)
    else line
  }

  /** The score the move earns on one line. */
  function LineGain(direction: string, line: seq<int>): int {
    if direction == "left" || direction == "up" then SlideGain(line)
    else if direction == "right" || direction == "down" then SlideBackGain(line)
    else 0
  }

  /** Line k of the move: row k, or column k for `up` and `down`. */
  function Line(g: seq<seq<int>>, direction: string, k: nat): (line: seq<int>)
    requires IsGrid(g) && k < GridSize
    ensures |line| == GridSize
  {
    if IsColumnDirection(direction) then Column(g, k) else g[k]
  }

  /** Does the move change line k? */
  predicate Changed(g: seq<seq<int>>, direction: string, k: nat)
    requires IsGrid(g) && k < GridSize
  {
    SlideLine(direction, Line(g, direction, k)) != Line(g, direction, k)
  }

  /** The board after the slides of a move, before any new tile. */
  function Transformed(g: seq<seq<int>>, direction: string): (t: seq<seq<int>>)
    requires IsGrid(g)
    ensures IsGrid(t)
  {
    if IsColumnDirection(direction) then
      seq(GridSize, i requires 0 <= i < GridSize =>
        seq(GridSize, j requires 0 <= j < GridSize => SlideLine(direction, Column(g, j))[i]))
    else
      seq(GridSize, i requires 0 <= i < GridSize => SlideLine(direction, g[i]))
  }

  /** The score earned on lines 0 .. n-1. */
  function GainUpTo(g: seq<seq<int>>, direction: string, n: nat): int
    requires IsGrid(g) && n <= GridSize
  {
    if n == 0 then 0 else GainUpTo(g, direction, n - 1) + LineGain(direction, Line(g, direction, n - 1))
  }

  /** The score a move earns. */
  function Gain(g: seq<seq<int>>, direction: string): int
    requires IsGrid(g)
  {
    GainUpTo(g, direction, GridSize)
  }

  // ---------------------------------------------------------------------
  // Empty cells and the new tile

  /** A grid position, `{i, j}` in the list of empty cells. */
  datatype Cell = Cell(i: nat, j: nat)

  /** The empty cells of row i among its first m cells, left to right. */
  function EmptyInRow(g: seq<seq<int>>, i: nat, m: nat): (r: seq<Cell>)
    requires IsGrid(g) && i < GridSize && m <= GridSize
    ensures forall c :: c in r ==> c.i == i && c.j < m && g[i][c.j] == 0
  {
    if m == 0 then []
    else EmptyInRow(g, i, m - 1) + (if g[i][m - 1] == 0 then [Cell(i, m - 1)] else [])
  }

  /** The empty cells of rows 0 .. n-1 in row-major order. */
  function EmptyRows(g: seq<seq<int>>, n: nat): (r: seq<Cell>)
    requires IsGrid(g) && n <= GridSize
    ensures forall c :: c in r ==> c.i < n && c.j < GridSize && g[c.i][c.j] == 0
  {
    if n == 0 then [] else EmptyRows(g, n - 1) + EmptyInRow(g, n - 1, GridSize)
  }

  /** The list `empty` that `addRandomTile` builds. */
  function EmptyCells(g: seq<seq<int>>): seq<Cell>
    requires IsGrid(g)
  {
    EmptyRows(g, GridSize)
  }

  /** `Math.floor(u * n)` for a draw u of `Math.random()`: an index into a
      list of length n. */
  function Pick(u: real, n: nat): (k: nat)
    requires 0.0 <= u < 1.0 && n > 0
    ensures k < n
  {
    assert 0.0 <= u * n as real < n as real by {
      assert (1.0 - u) * n as real > 0.0;
    }
    (u * n as real).Floor
  }

  /** The board after `addRandomTile` with draw u and the value `value`. */
  function PlaceTile(g: seq<seq<int>>, u: real, value: int): (r: seq<seq<int>>)
    requires IsGrid(g) && 0.0 <= u < 1.0
    ensures IsGrid(r)
  {
    var empty := EmptyCells(g);
    if |empty| == 0 then g
    else
      var spot := empty[Pick(u, |empty|)];
      g[spot.i := g[spot.i][spot.j := value]]
  }

  /** The board after a whole `move`: the slides, then a new tile only if
      some cell changed. */
  function AfterMove(g: seq<seq<int>>, direction: string, u: real, value: int): (r: seq<seq<int>>)
    requires IsGrid(g) && 0.0 <= u < 1.0
    ensures IsGrid(r)
  {
    var t := Transformed(g, direction);
    if t == g then g else PlaceTile(t, u, value)
  }

  /** The board `resetGrid` builds from its two tile draws. */
  function StartingBoard(u1: real, v1: int, u2: real, v2: int): (g: seq<seq<int>>)
    requires 0.0 <= u1 < 1.0 && 0.0 <= u2 < 1.0
    ensures IsGrid(g)
  {
    PlaceTile(PlaceTile(EmptyGrid(GridSize), u1, v1), u2, v2)
  }

  // ---------------------------------------------------------------------
  // The list of empty cells

  lemma {:induction false} EmptyInRowComplete(g: seq<seq<int>>, i: nat, m: nat)
    requires IsGrid(g) && i < GridSize && m <= GridSize
    ensures forall j :: 0 <= j < m && g[i][j] == 0 ==> Cell(i, j) in EmptyInRow(g, i, m)
  {
    if m > 0 {
      EmptyInRowComplete(g, i, m - 1);
    }
  }

  lemma {:induction false} EmptyRowsComplete(g: seq<seq<int>>, n: nat)
    requires IsGrid(g) && n <= GridSize
    ensures forall i, j :: 0 <= i < n && 0 <= j < GridSize && g[i][j] == 0 ==> Cell(i, j) in EmptyRows(g, n)
  {
    if n > 0 {
      EmptyRowsComplete(g, n - 1);
      EmptyInRowComplete(g, n - 1, GridSize);
    }
  }

  /** The list holds exactly the empty cells of the board. */
  lemma EmptyCellsExact(g: seq<seq<int>>)
    requires IsGrid(g)
    ensures forall c: Cell :: c in EmptyCells(g) <==> c.i < GridSize && c.j < GridSize && g[c.i][c.j] == 0
  {
    EmptyRowsComplete(g, GridSize);
    forall c: Cell | c.i < GridSize && c.j < GridSize && g[c.i][c.j] == 0
      ensures c in EmptyCells(g)
    {
      assert c == Cell(c.i, c.j);
    }
  }

  /** Filling the empty cell (i0, j0) of row i takes it off the row's part
      of the list and nothing else. */
  lemma {:induction false} EmptyInRowFill(g: seq<seq<int>>, i0: nat, j0: nat, v: int, i: nat, m: nat)
    requires IsGrid(g) && i0 < GridSize && j0 < GridSize && g[i0][j0] == 0 && v != 0
    requires i < GridSize && m <= GridSize
    ensures var g' := g[i0 := g[i0][j0 := v]];
      |EmptyInRow(g', i, m)| == |EmptyInRow(g, i, m)| - (if i == i0 && j0 < m then 1 else 0)
  {
    if m > 0 {
      EmptyInRowFill(g, i0, j0, v, i, m - 1);
    }
  }

  lemma {:induction false} EmptyRowsFill(g: seq<seq<int>>, i0: nat, j0: nat, v: int, n: nat)
    requires IsGrid(g) && i0 < GridSize && j0 < GridSize && g[i0][j0] == 0 && v != 0
    requires n <= GridSize
    ensures var g' := g[i0 := g[i0][j0 := v]];
      |EmptyRows(g', n)| == |EmptyRows(g, n)| - (if i0 < n then 1 else 0)
  {
    if n > 0 {
      EmptyRowsFill(g, i0, j0, v, n - 1);
      EmptyInRowFill(g, i0, j0, v, n - 1, GridSize);
    }
  }

  /** `addRandomTile`: on a full board nothing changes; otherwise exactly
      one cell from the row-major list of empty cells receives the new
      tile, every other cell keeps its value, and one empty cell fewer
      remains. */
  lemma PlaceTileSpec(g: seq<seq<int>>, u: real, value: int)
    requires IsGrid(g) && 0.0 <= u < 1.0
    ensures EmptyCells(g) == [] <==> forall i, j :: 0 <= i < GridSize && 0 <= j < GridSize ==> g[i][j] != 0
    ensures EmptyCells(g) == [] ==> PlaceTile(g, u, value) == g
    ensures EmptyCells(g) != [] ==>
      exists c :: c in EmptyCells(g) && g[c.i][c.j] == 0 && PlaceTile(g, u, value)[c.i][c.j] == value &&
        forall i, j :: 0 <= i < GridSize && 0 <= j < GridSize && (i != c.i || j != c.j) ==>
          PlaceTile(g, u, value)[i][j] == g[i][j]
    ensures EmptyCells(g) != [] && value != 0 ==>
      |EmptyCells(PlaceTile(g, u, value))| == |EmptyCells(g)| - 1
  {
    EmptyCellsExact(g);
    var empty := EmptyCells(g);
    if empty == [] {
      forall i, j | 0 <= i < GridSize && 0 <= j < GridSize
        ensures g[i][j] != 0
      {
        assert Cell(i, j) !in empty;
      }
    } else {
      var c := empty[Pick(u, |empty|)];
      assert c in empty;
      if value != 0 {
        EmptyRowsFill(g, c.i, c.j, value, GridSize);
      }
    }
  }

  /** Every tile on the board is a 2 or a 4. */
  predicate FreshTiles(g: seq<seq<int>>)
    requires IsGrid(g)
  {
    forall i, j :: 0 <= i < GridSize && 0 <= j < GridSize && g[i][j] != 0 ==> g[i][j] == 2 || g[i][j] == 4
  }

  lemma PlaceFreshTile(g: seq<seq<int>>, u: real, value: int)
    requires IsGrid(g) && 0.0 <= u < 1.0 && FreshTiles(g) && (value == 2 || value == 4)
    ensures FreshTiles(PlaceTile(g, u, value))
  {
  }

  /** `resetGrid` leaves exactly two tiles on the board, each a 2 or a 4. */
  lemma StartingBoardSpec(u1: real, v1: int, u2: real, v2: int)
    requires 0.0 <= u1 < 1.0 && 0.0 <= u2 < 1.0
    requires (v1 == 2 || v1 == 4) && (v2 == 2 || v2 == 4)
    ensures |EmptyCells(StartingBoard(u1, v1, u2, v2))| == GridSize * GridSize - 2
    ensures FreshTiles(StartingBoard(u1, v1, u2, v2))
  {
    var e := EmptyGrid(GridSize);
    var e1 := PlaceTile(e, u1, v1);
    EmptyCountAll(e, GridSize);
    PlaceTileSpec(e, u1, v1);
    PlaceTileSpec(e1, u2, v2);
    PlaceFreshTile(e, u1, v1);
    PlaceFreshTile(e1, u2, v2);
  }

  /** On the empty board every cell is on the list. */
  lemma {:induction false} EmptyCountAll(g: seq<seq<int>>, n: nat)
    requires IsGrid(g) && n <= GridSize
    requires forall i, j :: 0 <= i < GridSize && 0 <= j < GridSize ==> g[i][j] == 0
    ensures |EmptyRows(g, n)| == n * GridSize
  {
    if n > 0 {
      EmptyCountAll(g, n - 1);
      EmptyRowCountAll(g, n - 1, GridSize);
    }
  }

  lemma {:induction false} EmptyRowCountAll(g: seq<seq<int>>, i: nat, m: nat)
    requires IsGrid(g) && i < GridSize && m <= GridSize
    requires forall j :: 0 <= j < GridSize ==> g[i][j] == 0
    ensures |EmptyInRow(g, i, m)| == m
  {
    if m > 0 {
      EmptyRowCountAll(g, i, m - 1);
    }
  }

  // ---------------------------------------------------------------------
  // What a move conserves

  lemma Sum4(s: seq<int>)
    requires |s| == GridSize
    ensures Sum(s) == s[0] + s[1] + s[2] + s[3]
  {
    assert s[1..][1..] == s[2..];
    assert s[2..][1..] == s[3..];
    assert s[3..][1..] == [];
    assert Sum(s[3..]) == s[3];
    assert Sum(s[2..]) == s[2] + Sum(s[3..]);
    assert Sum(s[1..]) == s[1] + Sum(s[2..]);
  }

  lemma Total4(g: seq<seq<int>>)
    requires |g| == GridSize
    ensures Total(g) == Sum(g[0]) + Sum(g[1]) + Sum(g[2]) + Sum(g[3])
  {
    assert g[1..][1..] == g[2..];
    assert g[2..][1..] == g[3..];
    assert g[3..][1..] == [];
    assert Total(g[3..]) == Sum(g[3]);
    assert Total(g[2..]) == Sum(g[2]) + Total(g[3..]);
    assert Total(g[1..]) == Sum(g[1]) + Total(g[2..]);
  }

  /** The sum of all cells, cell by cell. */
  lemma TotalCells(g: seq<seq<int>>)
    requires IsGrid(g)
    ensures Total(g) ==
      g[0][0] + g[0][1] + g[0][2] + g[0][3] + g[1][0] + g[1][1] + g[1][2] + g[1][3] +
      g[2][0] + g[2][1] + g[2][2] + g[2][3] + g[3][0] + g[3][1] + g[3][2] + g[3][3]
  {
    Total4(g);
    Sum4(g[0]);
    Sum4(g[1]);
    Sum4(g[2]);
    Sum4(g[3]);
  }

  /** Sliding one line conserves its total, keeps its tiles and earns a
      non-negative score on tiles. */
  lemma SlideLineProperties(direction: string, line: seq<int>)
    ensures Sum(SlideLine(direction, line)) == Sum(line)
    ensures AllTiles(line) ==> AllTiles(SlideLine(direction, line)) && LineGain(direction, line) >= 0
  {
    SlideSum(line);
    SlideBackProperties(line);
    if AllTiles(line) {
      SlideKeepsTiles(line);
    }
  }

  /** A move conserves the total value on the board before the new tile:
      merging two equal tiles into one of twice the value keeps the sum of
      every line. */
  lemma TransformedConserves(g: seq<seq<int>>, direction: string)
    requires IsGrid(g)
    ensures Total(Transformed(g, direction)) == Total(g)
  {
    var t := Transformed(g, direction);
    Total4(t);
    Total4(g);
    if IsColumnDirection(direction) {
      TotalCells(g);
      Sum4(t[0]);
      Sum4(t[1]);
      Sum4(t[2]);
      Sum4(t[3]);
      forall j | 0 <= j < GridSize
        ensures Sum(SlideLine(direction, Column(g, j))) == g[0][j] + g[1][j] + g[2][j] + g[3][j]
      {
        SlideLineProperties(direction, Column(g, j));
        Sum4(Column(g, j));
      }
      forall j | 0 <= j < GridSize
        ensures var l := SlideLine(direction, Column(g, j)); Sum(l) == l[0] + l[1] + l[2] + l[3]
      {
        Sum4(SlideLine(direction, Column(g, j)));
      }
    } else {
      forall i | 0 <= i < GridSize
        ensures Sum(t[i]) == Sum(g[i])
      {
        SlideLineProperties(direction, g[i]);
      }
    }
  }

  /** A row or column that a move changes is left with an empty cell. */
  lemma SlideLineLeavesRoom(direction: string, line: seq<int>)
    requires |line| == GridSize && SlideLine(direction, line) != line
    ensures exists p :: 0 <= p < GridSize && SlideLine(direction, line)[p] == 0
  {
    SlideBackProperties(line);
    if direction == "left" || direction == "up" {
      SlideLeavesRoom(line);
    }
  }

  /** `moved` is set exactly when some line changes, and that happens
      exactly when the board changes. */
  lemma TransformedChanged(g: seq<seq<int>>, direction: string)
    requires IsGrid(g)
    ensures Transformed(g, direction) != g <==> exists k :: 0 <= k < GridSize && Changed(g, direction, k)
  {
    var t := Transformed(g, direction);
    if IsColumnDirection(direction) {
      if exists k :: 0 <= k < GridSize && Changed(g, direction, k) {
        var k :| 0 <= k < GridSize && Changed(g, direction, k);
        var line := SlideLine(direction, Column(g, k));
        assert line != Column(g, k);
        var i :| 0 <= i < GridSize && line[i] != Column(g, k)[i];
        assert t[i][k] != g[i][k];
      } else {
        forall i, j | 0 <= i < GridSize && 0 <= j < GridSize
          ensures t[i][j] == g[i][j]
        {
          assert !Changed(g, direction, j);
        }
        GridExt(t, g);
      }
    } else {
      if exists k :: 0 <= k < GridSize && Changed(g, direction, k) {
        var k :| 0 <= k < GridSize && Changed(g, direction, k);
        assert t[k] != g[k];
      } else {
        forall i | 0 <= i < GridSize
          ensures t[i] == g[i]
        {
          assert !Changed(g, direction, i);
        }
      }
    }
  }

  /** A move that changes the board leaves at least one empty cell, so the
      new tile always finds a place. */
  lemma MovedLeavesRoom(g: seq<seq<int>>, direction: string)
    requires IsGrid(g) && Transformed(g, direction) != g
    ensures EmptyCells(Transformed(g, direction)) != []
  {
    TransformedChanged(g, direction);
    var k :| 0 <= k < GridSize && Changed(g, direction, k);
    ChangedLineLeavesRoom(g, direction, k);
  }

  lemma ChangedLineLeavesRoom(g: seq<seq<int>>, direction: string, k: nat)
    requires IsGrid(g) && k < GridSize && Changed(g, direction, k)
    ensures EmptyCells(Transformed(g, direction)) != []
  {
    var t := Transformed(g, direction);
    var line := SlideLine(direction, Line(g, direction, k));
    SlideLineLeavesRoom(direction, Line(g, direction, k));
    var p :| 0 <= p < GridSize && line[p] == 0;
    EmptyCellsExact(t);
    if IsColumnDirection(direction) {
      assert t[p][k] == 0;
      assert Cell(p, k) in EmptyCells(t);
    } else {
      assert t[k][p] == 0;
      assert Cell(k, p) in EmptyCells(t);
    }
  }

  lemma {:induction false} SumUpdate(s: seq<int>, j: nat, v: int)
    requires j < |s|
    ensures Sum(s[j := v]) == Sum(s) - s[j] + v
  {
    if j > 0 {
      assert s[j := v][1..] == s[1..][j - 1 := v];
      SumUpdate(s[1..], j - 1, v);
    }
  }

  lemma {:induction false} TotalUpdate(g: seq<seq<int>>, i: nat, row: seq<int>)
    requires i < |g|
    ensures Total(g[i := row]) == Total(g) - Sum(g[i]) + Sum(row)
  {
    if i > 0 {
      assert g[i := row][1..] == g[1..][i - 1 := row];
      TotalUpdate(g[1..], i - 1, row);
    }
  }

  /** The new tile adds its value to the board's total. */
  lemma PlaceTileTotal(g: seq<seq<int>>, u: real, value: int)
    requires IsGrid(g) && 0.0 <= u < 1.0
    ensures Total(PlaceTile(g, u, value)) == Total(g) + (if EmptyCells(g) == [] then 0 else value)
  {
    var empty := EmptyCells(g);
    if empty != [] {
      var c := empty[Pick(u, |empty|)];
      assert c in empty;
      SumUpdate(g[c.i], c.j, value);
      TotalUpdate(g, c.i, g[c.i][c.j := value]);
    }
  }

  /** A whole move adds exactly the new tile's value to the total when it
      changes the board, and changes nothing otherwise. */
  lemma AfterMoveTotal(g: seq<seq<int>>, direction: string, u: real, value: int)
    requires IsGrid(g) && 0.0 <= u < 1.0
    ensures Total(AfterMove(g, direction, u, value)) ==
      Total(g) + (if Transformed(g, direction) != g then value else 0)
  {
    var t := Transformed(g, direction);
    if t != g {
      TransformedConserves(g, direction);
      MovedLeavesRoom(g, direction);
      PlaceTileTotal(t, u, value);
    }
  }

  lemma {:induction false} GainUpToNonNegative(g: seq<seq<int>>, direction: string, n: nat)
    requires IsGrid(g) && BoardTiles(g) && n <= GridSize
    ensures GainUpTo(g, direction, n) >= 0
  {
    if n > 0 {
      GainUpToNonNegative(g, direction, n - 1);
      ColumnTiles(g, direction, n - 1);
      SlideLineProperties(direction, Line(g, direction, n - 1));
    }
  }

  lemma ColumnTiles(g: seq<seq<int>>, direction: string, k: nat)
    requires IsGrid(g) && BoardTiles(g) && k < GridSize
    ensures AllTiles(Line(g, direction, k))
  {
    if IsColumnDirection(direction) {
      forall i | 0 <= i < GridSize
        ensures IsTile(Column(g, k)[i])
      {
        assert AllTiles(g[i]);
      }
    }
  }

  /** Merges only double equal tiles, so a move keeps every cell empty or
      a power of two of at least 2 and never lowers the score. */
  lemma TransformedKeepsTiles(g: seq<seq<int>>, direction: string)
    requires IsGrid(g) && BoardTiles(g)
    ensures BoardTiles(Transformed(g, direction))
    ensures Gain(g, direction) >= 0
  {
    var t := Transformed(g, direction);
    GainUpToNonNegative(g, direction, GridSize);
    if !IsColumnDirection(direction) {
      forall i | 0 <= i < GridSize
        ensures AllTiles(t[i])
      {
        SlideLineProperties(direction, g[i]);
      }
    } else {
      forall i | 0 <= i < GridSize
        ensures AllTiles(t[i])
      {
        forall j | 0 <= j < GridSize
          ensures IsTile(t[i][j])
        {
          ColumnTiles(g, direction, j);
          SlideLineProperties(direction, Column(g, j));
        }
      }
    }
  }

  /** The new tile (a 2 or a 4) keeps the board made of tiles. */
  lemma PlaceTileKeepsTiles(g: seq<seq<int>>, u: real, value: int)
    requires IsGrid(g) && BoardTiles(g) && 0.0 <= u < 1.0 && (value == 2 || value == 4)
    ensures BoardTiles(PlaceTile(g, u, value))
  {
    assert IsPow2(4) by {
      assert IsPow2(2);
    }
    var empty := EmptyCells(g);
    if empty != [] {
      var c := empty[Pick(u, |empty|)];
      assert c in empty;
      assert AllTiles(g[c.i]);
    }
  }

  /** `move` with a direction other than the four it knows changes
      nothing: no line slides, no score, no new tile. */
  lemma UnknownDirection(g: seq<seq<int>>, direction: string, u: real, value: int)
    requires IsGrid(g) && 0.0 <= u < 1.0
    requires !IsRowDirection(direction) && !IsColumnDirection(direction)
    ensures Transformed(g, direction) == g
    ensures Gain(g, direction) == 0
    ensures AfterMove(g, direction, u, value) == g
  {
    assert Transformed(g, direction) == g;
    GainUnknown(g, direction, GridSize);
  }

  lemma {:induction false} GainUnknown(g: seq<seq<int>>, direction: string, n: nat)
    requires IsGrid(g) && n <= GridSize
    requires !IsRowDirection(direction) && !IsColumnDirection(direction)
    ensures GainUpTo(g, direction, n) == 0
  {
    if n > 0 {
      GainUnknown(g, direction, n - 1);
    }
  }

  // ---------------------------------------------------------------------
  // How the four directions relate

  /** The board read column by column. */
  function Transpose(g: seq<seq<int>>): (t: seq<seq<int>>)
    requires IsGrid(g)
    ensures IsGrid(t)
    ensures forall i, j :: 0 <= i < GridSize && 0 <= j < GridSize ==> t[i][j] == g[j][i]
  {
    seq(GridSize, j requires 0 <= j < GridSize => Column(g, j))
  }

  /** The board with its rows in the opposite order. */
  function FlipRows(g: seq<seq<int>>): (f: seq<seq<int>>)
    requires IsGrid(g)
    ensures IsGrid(f)
    ensures forall i :: 0 <= i < GridSize ==> f[i] == g[GridSize - 1 - i]
  {
    seq(GridSize, i requires 0 <= i < GridSize => g[GridSize - 1 - i])
  }

  /** Moving up is moving left on the transposed board. */
  lemma UpIsTransposedLeft(g: seq<seq<int>>)
    requires IsGrid(g)
    ensures Transformed(g, "up") == Transpose(Transformed(Transpose(g), "left"))
  {
    var t := Transformed(g, "up");
    var s := Transpose(Transformed(Transpose(g), "left"));
    forall i, j | 0 <= i < GridSize && 0 <= j < GridSize
      ensures t[i][j] == s[i][j]
    {
      assert Transpose(g)[j] == Column(g, j);
    }
    GridExt(t, s);
  }

  /** Moving down is moving up on the board turned upside down, turned
      back. */
  lemma DownIsFlippedUp(g: seq<seq<int>>)
    requires IsGrid(g)
    ensures Transformed(g, "down") == FlipRows(Transformed(FlipRows(g), "up"))
  {
    var t := Transformed(g, "down");
    var f := FlipRows(g);
    var s := FlipRows(Transformed(f, "up"));
    forall i, j | 0 <= i < GridSize && 0 <= j < GridSize
      ensures t[i][j] == s[i][j]
    {
      assert Column(f, j) == Reverse(Column(g, j));
      SlideShape(Column(f, j));
    }
    GridExt(t, s);
  }

  // ---------------------------------------------------------------------
  // The game

  /** Row k of a row move is the slid row k. */
  lemma TransformedRow(g: seq<seq<int>>, direction: string, k: nat)
    requires IsGrid(g) && !IsColumnDirection(direction) && k < GridSize
    ensures Transformed(g, direction)[k] == SlideLine(direction, g[k])
  {
  }

  /** Column k of a column move is the slid column k. */
  lemma TransformedColumn(g: seq<seq<int>>, direction: string, k: nat)
    requires IsGrid(g) && IsColumnDirection(direction) && k < GridSize
    ensures Column(Transformed(g, direction), k) == SlideLine(direction, Column(g, k))
  {
  }

  /** A board differs from another exactly when some cell does. */
  lemma GridDiffers(a: seq<seq<int>>, b: seq<seq<int>>)
    requires IsGrid(a) && IsGrid(b)
    ensures a != b <==> exists i, j :: 0 <= i < GridSize && 0 <= j < GridSize && a[i][j] != b[i][j]
  {
    if forall i, j :: 0 <= i < GridSize && 0 <= j < GridSize ==> a[i][j] == b[i][j] {
      GridExt(a, b);
    }
  }

  /** The board during a column move from g to t: columns 0 .. j-1 and
      the top r cells of column j are as in t, every other cell as in g. */
  ghost predicate ColumnsDone(grid: seq<seq<int>>, g: seq<seq<int>>, t: seq<seq<int>>, j: nat, r: nat)
    requires IsGrid(g) && IsGrid(t)
  {
    && IsGrid(grid)
    && forall i, k :: 0 <= i < GridSize && 0 <= k < GridSize ==>
         grid[i][k] == (if k < j || (k == j && i < r) then t[i][k] else g[i][k])
  }

  /** Some cell among columns 0 .. j-1 and the top r of column j differs
      between g and t. */
  ghost predicate DiffersBefore(g: seq<seq<int>>, t: seq<seq<int>>, j: nat, r: nat)
    requires IsGrid(g) && IsGrid(t)
  {
    exists i, k :: 0 <= i < GridSize && 0 <= k < GridSize && (k < j || (k == j && i < r)) && g[i][k] != t[i][k]
  }

  /** Writing cell r of column j. */
  lemma ColumnsDoneStep(grid: seq<seq<int>>, g: seq<seq<int>>, t: seq<seq<int>>, j: nat, r: nat, x: int)
    requires IsGrid(g) && IsGrid(t) && j < GridSize && r < GridSize
    requires ColumnsDone(grid, g, t, j, r) && x == t[r][j]
    ensures ColumnsDone(grid[r := grid[r][j := x]], g, t, j, r + 1)
    ensures grid[r][j] == g[r][j]
    ensures DiffersBefore(g, t, j, r + 1) <==> DiffersBefore(g, t, j, r) || grid[r][j] != x
  {
    if grid[r][j] != x {
      assert g[r][j] != t[r][j];
    }
  }

  /** Column j is done once all its cells are written. */
  lemma ColumnsDoneNext(grid: seq<seq<int>>, g: seq<seq<int>>, t: seq<seq<int>>, j: nat)
    requires IsGrid(g) && IsGrid(t) && ColumnsDone(grid, g, t, j, GridSize)
    ensures ColumnsDone(grid, g, t, j + 1, 0)
    ensures DiffersBefore(g, t, j, GridSize) <==> DiffersBefore(g, t, j + 1, 0)
  {
    if DiffersBefore(g, t, j, GridSize) {
      var i, k :| 0 <= i < GridSize && 0 <= k < GridSize && (k < j || (k == j && i < GridSize)) && g[i][k] != t[i][k];
      assert k < j + 1;
    }
  }

  /** The column about to be read still holds its cells from g. */
  lemma ColumnsDoneUnread(grid: seq<seq<int>>, g: seq<seq<int>>, t: seq<seq<int>>, j: nat)
    requires IsGrid(g) && IsGrid(t) && j < GridSize && ColumnsDone(grid, g, t, j, 0)
    ensures Column(grid, j) == Column(g, j)
  {
  }

  /** With every column done the board is t, and it differs from g
      exactly when some written cell did. */
  lemma ColumnsDoneAll(grid: seq<seq<int>>, g: seq<seq<int>>, t: seq<seq<int>>)
    requires IsGrid(g) && IsGrid(t) && ColumnsDone(grid, g, t, GridSize, 0)
    ensures grid == t
    ensures DiffersBefore(g, t, GridSize, 0) <==> t != g
  {
    GridExt(grid, t);
    GridDiffers(t, g);
  }

  /** The page's state: the board, the score, and whether the start button
      has been pressed. */
  class Game {
    var grid: seq<seq<int>>
    var score: int
    var started: bool

    /** Before the first start the board is the empty list; from then on it
        is a board of tiles, and the score is never negative. */
    ghost predicate Valid()
      reads this
    {
      && score >= 0
      && (grid == [] ==> !started)
      && (grid != [] ==> IsGrid(grid) && BoardTiles(grid))
    }

    /** The script's top-level `let` declarations. */
    constructor ()
      ensures grid == [] && score == 0 && !started
      ensures Valid()
    {
      grid := [];
      score := 0;
      started := false;
    }

    /** `addRandomTile`: collect the empty cells in row-major order, then
        place `value` (the 2 or 4 the second draw picks) at the cell the
        draw u picks. */
    method AddRandomTile(u: real, value: int)
      requires IsGrid(grid) && 0.0 <= u < 1.0
      modifies this
      ensures grid == PlaceTile(old(grid), u, value)
      ensures score == old(score) && started == old(started)
    {
      var empty: seq<Cell> := [];
      var i := 0;
      while i < GridSize
        invariant 0 <= i <= GridSize
        invariant empty == EmptyRows(grid, i)
      {
        var j := 0;
        while j < GridSize
          invariant 0 <= j <= GridSize
          invariant empty == EmptyRows(grid, i) + EmptyInRow(grid, i, j)
        {
          if grid[i][j] == 0 {
            empty := empty + [Cell(i, j)];
          }
          j := j + 1;
        }
        i := i + 1;
      }
      if |empty| == 0 {
        return;
      }
      var spot := empty[Pick(u, |empty|)];
      assert spot in EmptyCells(grid);
      grid := grid[spot.i := grid[spot.i][spot.j := value]];
    }

    /** `resetGrid`: an empty board, score 0, and two new tiles. */
    method ResetGrid(u1: real, v1: int, u2: real, v2: int)
      requires 0.0 <= u1 < 1.0 && 0.0 <= u2 < 1.0
      requires (v1 == 2 || v1 == 4) && (v2 == 2 || v2 == 4)
      modifies this
      ensures grid == StartingBoard(u1, v1, u2, v2)
      ensures score == 0 && started == old(started)
      ensures Valid()
    {
      grid := EmptyGrid(GridSize);
      score := 0;
      ghost var e := grid;
      AddRandomTile(u1, v1);
      ghost var e1 := grid;
      PlaceTileKeepsTiles(e, u1, v1);
      AddRandomTile(u2, v2);
      PlaceTileKeepsTiles(e1, u2, v2);
    }

    /** The start button: mark the game started and reset the board. */
    method Start(u1: real, v1: int, u2: real, v2: int)
      requires 0.0 <= u1 < 1.0 && 0.0 <= u2 < 1.0
      requires (v1 == 2 || v1 == 4) && (v2 == 2 || v2 == 4)
      modifies this
      ensures started
      ensures grid == StartingBoard(u1, v1, u2, v2) && score == 0
      ensures Valid()
    {
      started := true;
      ResetGrid(u1, v1, u2, v2);
    }

    /** The `left` and `right` branches of `move`: slide every row in turn,
        adding what it earns to the score, and note whether any row
        changed. */
    method SlideRows(direction: string) returns (moved: bool)
      requires IsGrid(grid) && IsRowDirection(direction)
      modifies this
      ensures grid == Transformed(old(grid), direction)
      ensures score == old(score) + Gain(old(grid), direction)
      ensures moved <==> grid != old(grid)
      ensures started == old(started)
    {
      ghost var g := grid;
      ghost var t := Transformed(g, direction);
      moved := false;
      var i := 0;
      while i < GridSize
        invariant 0 <= i <= GridSize && |grid| == GridSize
        invariant forall k :: 0 <= k < i ==> grid[k] == t[k]
        invariant forall k :: i <= k < GridSize ==> grid[k] == g[k]
        invariant score == old(score) + GainUpTo(g, direction, i)
        invariant moved <==> exists k :: 0 <= k < i && t[k] != g[k]
        invariant started == old(started)
      {
        TransformedRow(g, direction, i);
        var newRow, gained;
        if direction == "left" {
          var row := grid[i];
          newRow, gained := Slide(row);
        } else {
          var row := Reverse(grid[i]);
          var slid;
          slid, gained := Slide(row);
          newRow := Reverse(slid);
        }
        assert newRow == t[i] && gained == LineGain(direction, g[i]);
        score := score + gained;
        if grid[i] != newRow {
          moved := true;
        }
        grid := grid[i := newRow];
        i := i + 1;
      }
      assert grid == t;
    }

    /** The `up` and `down` branches of `move`: for each column, copy it
        out, slide it, and write it back, noting whether any cell
        changed. */
    method SlideColumns(direction: string) returns (moved: bool)
      requires IsGrid(grid) && IsColumnDirection(direction)
      modifies this
      ensures grid == Transformed(old(grid), direction)
      ensures score == old(score) + Gain(old(grid), direction)
      ensures moved <==> grid != old(grid)
      ensures started == old(started)
    {
      ghost var g := grid;
      ghost var t := Transformed(g, direction);
      moved := false;
      var j := 0;
      while j < GridSize
        invariant 0 <= j <= GridSize
        invariant ColumnsDone(grid, g, t, j, 0)
        invariant score == old(score) + GainUpTo(g, direction, j)
        invariant moved <==> DiffersBefore(g, t, j, 0)
        invariant started == old(started)
      {
        moved := SlideColumn(direction, j, moved, g, t);
        j := j + 1;
      }
      ColumnsDoneAll(grid, g, t);
    }

    /** One pass of the column loop of `move`: copy column j out, slide it
        (reversed for `down`), and write it back cell by cell, setting
        `moved` when a cell changes. */
    method SlideColumn(direction: string, j: nat, moved: bool, ghost g: seq<seq<int>>, ghost t: seq<seq<int>>)
      returns (moved': bool)
      requires IsGrid(g) && IsColumnDirection(direction) && t == Transformed(g, direction)
      requires j < GridSize && ColumnsDone(grid, g, t, j, 0)
      requires moved <==> DiffersBefore(g, t, j, 0)
      modifies this
      ensures ColumnsDone(grid, g, t, j + 1, 0)
      ensures score == old(score) + LineGain(direction, Line(g, direction, j))
      ensures moved' <==> DiffersBefore(g, t, j + 1, 0)
      ensures started == old(started)
    {
      ColumnsDoneUnread(grid, g, t, j);
      TransformedColumn(g, direction, j);
      ghost var line := Column(g, j);
      var col: seq<int> := [];
      var i := 0;
      while i < GridSize
        invariant 0 <= i <= GridSize
        invariant col == line[..i]
      {
        col := col + [grid[i][j]];
        i := i + 1;
      }
      assert col == line;
      var newCol, gained;
      if direction == "up" {
        newCol, gained := Slide(col);
      } else {
        var slid;
        slid, gained := Slide(Reverse(col));
        newCol := Reverse(slid);
      }
      assert newCol == Column(t, j) && gained == LineGain(direction, line);
      score := score + gained;
      moved' := moved;
      i := 0;
      while i < GridSize
        invariant 0 <= i <= GridSize
        invariant ColumnsDone(grid, g, t, j, i)
        invariant moved' <==> DiffersBefore(g, t, j, i)
        invariant score == old(score) + gained && started == old(started)
      {
        ColumnsDoneStep(grid, g, t, j, i, newCol[i]);
        if grid[i][j] != newCol[i] {
          moved' := true;
        }
        grid := grid[i := grid[i][j := newCol[i]]];
        i := i + 1;
      }
      ColumnsDoneNext(grid, g, t, j);
    }

    /** `move(direction)`: slide the rows or columns, and add a tile only if
        some cell changed (an unknown direction changes nothing).  The touch
        buttons call it directly. */
    method Move(direction: string, u: real, value: int)
      requires Valid() && IsGrid(grid)
      requires 0.0 <= u < 1.0 && (value == 2 || value == 4)
      modifies this
      ensures grid == AfterMove(old(grid), direction, u, value)
      ensures score == old(score) + Gain(old(grid), direction)
      ensures started == old(started)
      ensures Valid()
    {
      ghost var g := grid;
      TransformedKeepsTiles(g, direction);
      var moved := false;
      if IsRowDirection(direction) {
        moved := SlideRows(direction);
      } else if IsColumnDirection(direction) {
        moved := SlideColumns(direction);
      } else {
        UnknownDirection(grid, direction, u, value);
      }
      if moved {
        PlaceTileKeepsTiles(grid, u, value);
        AddRandomTile(u, value);
      }
    }

    /** The keydown listener: ignored until the game has started, then the
        four arrow keys move in their direction and every other key does
        nothing. */
    method KeyDown(code: string, u: real, value: int)
      requires Valid()
      requires 0.0 <= u < 1.0 && (value == 2 || value == 4)
      modifies this
      ensures !old(started) || KeyDirection(code) == "" ==>
        grid == old(grid) && score == old(score)
      ensures old(started) && KeyDirection(code) != "" ==>
        IsGrid(old(grid)) &&
        grid == AfterMove(old(grid), KeyDirection(code), u, value) &&
        score == old(score) + Gain(old(grid), KeyDirection(code))
      ensures started == old(started)
      ensures Valid()
    {
      if !started {
        return;
      }
      if code == "ArrowLeft" {
        Move("left", u, value);
      }
      if code == "ArrowRight" {
        Move("right", u, value);
      }
      if code == "ArrowUp" {
        Move("up", u, value);
      }
      if code == "ArrowDown" {
        Move("down", u, value);
      }
    }
  }

  /** The direction an arrow key moves in, or "" for any other key. */
  function KeyDirection(code: string): (d: string)
    ensures d == "" || IsRowDirection(d) || IsColumnDirection(d)
    ensures code == "ArrowLeft" ==> d == "left"
    ensures code == "ArrowRight" ==> d == "right"
    ensures code == "ArrowUp" ==> d == "up"
    ensures code == "ArrowDown" ==> d == "down"
    ensures d == "" <==> code !in {"ArrowLeft", "ArrowRight", "ArrowUp", "ArrowDown"}
  {
    if code == "ArrowLeft" then "left"
    else if code == "ArrowRight" then "right"
    else if code == "ArrowUp" then "up"
    else if code == "ArrowDown" then "down"
    else ""
  }
}
