/** The bulk-write extension of the grid: `bulkSet` validates the whole
    region first and only then writes the value into every cell of the
    inclusive rectangle, row by row and, within a row, column by column. */
module RegionWriter {
  import opened Wrappers
  import opened Failures
  import opened SparseGrid

  /** Whether a cell lies in the rectangle with inclusive, 0-based corners
      (startRow, startCol) and (endRow, endCol). */
  predicate InRegion(p: Cell, startRow: int, startCol: int, endRow: int, endCol: int) {
    startRow <= p.0 <= endRow && startCol <= p.1 <= endCol
  }

  /** The inner loop: writes columns `col` through `endCol` of one row. */
  function FillColumns<V>(g: Grid<V>, row: nat, col: nat, endCol: int, v: V): (r: Grid<V>)
    decreases endCol + 1 - col
    ensures forall p :: p in r.cells <==> p in g.cells || InRegion(p, row, col, row, endCol)
    ensures forall p :: InRegion(p, row, col, row, endCol) ==> p in r.cells && r.cells[p] == v
    ensures forall p :: p in g.cells && !InRegion(p, row, col, row, endCol) ==> r.cells[p] == g.cells[p]
    ensures col <= endCol ==> r.width == Max(g.width, endCol + 1) && r.height == Max(g.height, row + 1)
    ensures col > endCol ==> r.width == g.width && r.height == g.height
  {
    if col > endCol then
      assert forall p :: !InRegion(p, row, col, row, endCol);
      g
    else
      var g' := Write(g, row, col, v);
      var r := FillColumns(g', row, col + 1, endCol, v);
      assert forall p :: InRegion(p, row, col, row, endCol) <==> p == (row, col) || InRegion(p, row, col + 1, row, endCol);
      assert forall p :: p in r.cells <==> p in g.cells || InRegion(p, row, col, row, endCol);
      assert forall p :: InRegion(p, row, col, row, endCol) ==> p in r.cells && r.cells[p] == v;
      assert forall p :: p in g.cells && !InRegion(p, row, col, row, endCol) ==>
        p in g'.cells && r.cells[p] == g'.cells[p] == g.cells[p];
      r
  }

  /** The outer loop: fills rows `row` through `endRow`, each between
      `startCol` and `endCol`. */
  function FillRows<V>(g: Grid<V>, row: nat, endRow: int, startCol: nat, endCol: int, v: V): (r: Grid<V>)
    decreases endRow + 1 - row
    ensures forall p :: p in r.cells <==> p in g.cells || InRegion(p, row, startCol, endRow, endCol)
    ensures forall p :: InRegion(p, row, startCol, endRow, endCol) ==> p in r.cells && r.cells[p] == v
    ensures forall p :: p in g.cells && !InRegion(p, row, startCol, endRow, endCol) ==> r.cells[p] == g.cells[p]
    ensures row <= endRow && startCol <= endCol ==>
      r.width == Max(g.width, endCol + 1) && r.height == Max(g.height, endRow + 1)
    ensures row > endRow || startCol > endCol ==> r.width == g.width && r.height == g.height
  {
    if row > endRow then
      assert forall p :: !InRegion(p, row, startCol, endRow, endCol);
      g
    else
      var g' := FillColumns(g, row, startCol, endCol, v);
      var r := FillRows(g', row + 1, endRow, startCol, endCol, v);
      assert forall p :: InRegion(p, row, startCol, endRow, endCol) <==>
        InRegion(p, row, startCol, row, endCol) || InRegion(p, row + 1, startCol, endRow, endCol);
      assert forall p :: p in r.cells <==> p in g.cells || InRegion(p, row, startCol, endRow, endCol);
      assert forall p :: InRegion(p, row, startCol, endRow, endCol) ==> p in r.cells && r.cells[p] == v;
      assert startCol <= endCol ==> r.width == Max(g.width, endCol + 1) && r.height == Max(g.height, endRow + 1);
      r
  }

  /** `bulkSet(startRow, startCol, endRow, endCol, value)`. A negative corner
      is rejected first, an inverted region second; in either case the grid
      is returned untouched (the caller keeps the grid it had). Otherwise every
      cell of the rectangle holds the value and is non-empty, every other cell
      is as before, and the dimensions grow to cover the far corner. */
  function BulkSet<V>(g: Grid<V>, startRow: int, startCol: int, endRow: int, endCol: int, v: V): (r: Result<Grid<V>, Error>)
    ensures r.Failure? <==>
      startRow < 0 || startCol < 0 || endRow < 0 || endCol < 0 || endRow < startRow || endCol < startCol
    ensures startRow < 0 || startCol < 0 || endRow < 0 || endCol < 0 ==> r == Failure(NegativeCoordinate)
    ensures startRow >= 0 && startCol >= 0 && endRow >= 0 && endCol >= 0 && (endRow < startRow || endCol < startCol) ==>
      r == Failure(InvertedRegion)
    ensures r.Success? ==> forall p :: InRegion(p, startRow, startCol, endRow, endCol) ==>
      p in r.value.cells && r.value.cells[p] == v
    ensures r.Success? ==> forall p :: !InRegion(p, startRow, startCol, endRow, endCol) ==>
      (p in r.value.cells <==> p in g.cells)
    ensures r.Success? ==> forall p :: p in g.cells && !InRegion(p, startRow, startCol, endRow, endCol) ==>
      r.value.cells[p] == g.cells[p]
    ensures r.Success? ==> r.value.width == Max(g.width, endCol + 1) && r.value.height == Max(g.height, endRow + 1)
    ensures r.Success? && Valid(g) ==> Valid(r.value)
  {
    if startRow < 0 || startCol < 0 || endRow < 0 || endCol < 0 then Failure(NegativeCoordinate)
    else if endRow < startRow || endCol < startCol then Failure(InvertedRegion)
    else
      var r := FillRows(g, startRow, endRow, startCol, endCol, v);
      assert Valid(g) ==> Valid(r) by {
        if Valid(g) {
          CoverKeepsValid(g, r, startRow, startCol, endRow, endCol);
        }
      }
      Success(r)
  }

  /** Writing a non-empty rectangle keeps the grid's invariant: the far
      corner witnesses any dimension the rectangle stretched, and the old
      witnesses serve for the rest. */
  lemma CoverKeepsValid<V>(g: Grid<V>, r: Grid<V>, startRow: nat, startCol: nat, endRow: int, endCol: int)
    requires Valid(g) && startRow <= endRow && startCol <= endCol
    requires forall p :: p in r.cells <==> p in g.cells || InRegion(p, startRow, startCol, endRow, endCol)
    requires r.width == Max(g.width, endCol + 1) && r.height == Max(g.height, endRow + 1)
    ensures Valid(r)
  {
    var corner := (endRow, endCol);
    assert InRegion(corner, startRow, startCol, endRow, endCol);
    if r.width != endCol + 1 {
      var p :| p in g.cells && p.1 == g.width - 1;
      assert p in r.cells;
    }
    if r.height != endRow + 1 {
      var p :| p in g.cells && p.0 == g.height - 1;
      assert p in r.cells;
    }
  }

  /** After a legal bulk write, `get` on any cell of the rectangle reads
      the value written. */
  lemma BulkSetReadsBack<V>(g: Grid<V>, startRow: int, startCol: int, endRow: int, endCol: int, v: V, zero: V)
    requires 0 <= startRow <= endRow && 0 <= startCol <= endCol
    ensures forall row, col :: startRow <= row <= endRow && startCol <= col <= endCol ==>
      Get(BulkSet(g, startRow, startCol, endRow, endCol, v).value, row, col, zero) == Success(v)
  {
    var r := BulkSet(g, startRow, startCol, endRow, endCol, v).value;
    forall row, col | startRow <= row <= endRow && startCol <= col <= endCol
      ensures Get(r, row, col, zero) == Success(v)
    {
      assert InRegion((row, col), startRow, startCol, endRow, endCol);
    }
  }

  /** A one-cell region is legal and has exactly the effect of `set` on
      that cell. */
  lemma SingleCellBulkSetIsSet<V>(g: Grid<V>, row: int, col: int, v: V)
    requires row >= 0 && col >= 0
    ensures BulkSet(g, row, col, row, col, v) == Set(g, row, col, v)
  {
    var b := BulkSet(g, row, col, row, col, v).value;
    var s := Set(g, row, col, v).value;
    assert b.cells.Keys == s.cells.Keys;
    assert b.cells == s.cells;
  }
}
