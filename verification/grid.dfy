/** The sparse grid: a finite map from written coordinates to values, plus
    the two growth-only dimension counters. Only the contract its users rely
    on is modelled: absent cells read as the designated zero, writing a cell
    makes it non-empty whatever the value, and the width and height track
    one past the largest column and row ever written. */
module SparseGrid {
  import opened Wrappers
  import opened Failures

  /** A (row, column) coordinate. */
  type Cell = (int, int)

  datatype Grid<V> = Grid(cells: map<Cell, V>, width: nat, height: nat)

  function Max(a: int, b: int): int {
    if a < b then b else a
  }

  /** Every written cell lies inside the dimensions, and each non-zero
      dimension is witnessed by a written cell on its last column or row,
      so width = 1 + max column and height = 1 + max row. */
  ghost predicate Valid<V>(g: Grid<V>) {
    && (forall p :: p in g.cells ==> 0 <= p.0 < g.height && 0 <= p.1 < g.width)
    && (g.width == 0 || exists p :: p in g.cells && p.1 == g.width - 1)
    && (g.height == 0 || exists p :: p in g.cells && p.0 == g.height - 1)
  }

  /** A freshly constructed grid. */
  function Empty<V>(): (g: Grid<V>)
    ensures Valid(g)
    ensures g.width == 0 && g.height == 0
    ensures forall p :: p !in g.cells
  {
    Grid(map[], 0, 0)
  }

  /** The unchecked write that `set` performs once its coordinates are known
      to be non-negative. */
  function Write<V>(g: Grid<V>, row: nat, col: nat, v: V): (r: Grid<V>)
    ensures (row, col) in r.cells && r.cells[(row, col)] == v
    ensures r.cells.Keys == g.cells.Keys + {(row, col)}
    ensures forall p :: p in g.cells && p != (row, col) ==> r.cells[p] == g.cells[p]
    ensures r.width == Max(g.width, col + 1) && r.height == Max(g.height, row + 1)
    ensures Valid(g) ==> Valid(r)
  {
    var r := Grid(g.cells[(row, col) := v], Max(g.width, col + 1), Max(g.height, row + 1));
    assert Valid(g) ==> Valid(r) by {
      if Valid(g) {
        if r.width != 0 && r.width != col + 1 {
          var p :| p in g.cells && p.1 == g.width - 1;
          assert p in r.cells;
        }
        if r.height != 0 && r.height != row + 1 {
          var p :| p in g.cells && p.0 == g.height - 1;
          assert p in r.cells;
        }
      }
    }
    r
  }

  /** `set(row, col, value)`: rejects a negative coordinate, otherwise stores
      the value (overwriting) and grows the dimensions. */
  function Set<V>(g: Grid<V>, row: int, col: int, v: V): (r: Result<Grid<V>, Error>)
    ensures r.Failure? <==> row < 0 || col < 0
    ensures r.Failure? ==> r.error == NegativeCoordinate
    ensures r.Success? ==> (row, col) in r.value.cells && r.value.cells[(row, col)] == v
    ensures r.Success? ==> r.value.cells.Keys == g.cells.Keys + {(row, col)}
    ensures r.Success? ==> forall p :: p in g.cells && p != (row, col) ==> r.value.cells[p] == g.cells[p]
    ensures r.Success? ==> r.value.width == Max(g.width, col + 1) && r.value.height == Max(g.height, row + 1)
    ensures r.Success? && Valid(g) ==> Valid(r.value)
  {
    if row < 0 || col < 0 then Failure(NegativeCoordinate)
    else Success(Write(g, row, col, v))
  }

  /** `get(row, col)`: rejects a negative coordinate, otherwise the stored
      value, or zero for a cell never written, however far outside the
      current dimensions it lies. */
  function Get<V>(g: Grid<V>, row: int, col: int, zero: V): (r: Result<V, Error>)
    ensures r.Failure? <==> row < 0 || col < 0
    ensures r.Failure? ==> r.error == NegativeCoordinate
    ensures r.Success? && (row, col) in g.cells ==> r.value == g.cells[(row, col)]
    ensures r.Success? && (row, col) !in g.cells ==> r.value == zero
  {
    if row < 0 || col < 0 then Failure(NegativeCoordinate)
    else if (row, col) in g.cells then Success(g.cells[(row, col)])
    else Success(zero)
  }

  /** `isEmpty(row, col)`: rejects a negative coordinate, otherwise whether
      the cell has never been written, whatever value a write stored. */
  function IsEmpty<V>(g: Grid<V>, row: int, col: int): (r: Result<bool, Error>)
    ensures r.Failure? <==> row < 0 || col < 0
    ensures r.Failure? ==> r.error == NegativeCoordinate
    ensures r.Success? ==> (r.value <==> (row, col) !in g.cells)
  {
    if row < 0 || col < 0 then Failure(NegativeCoordinate)
    else Success((row, col) !in g.cells)
  }

  /** A fresh grid has zero dimensions, reads zero everywhere and is empty
      everywhere. */
  lemma FreshGridIsEmpty<V>(row: int, col: int, zero: V)
    requires row >= 0 && col >= 0
    ensures Empty<V>().width == 0 && Empty<V>().height == 0
    ensures Get(Empty<V>(), row, col, zero) == Success(zero)
    ensures IsEmpty(Empty<V>(), row, col) == Success(true)
  {
  }

  /** Reading a cell right after writing it gives the value written, and the
      cell is no longer empty, even when the value written is zero. */
  lemma GetAfterSet<V>(g: Grid<V>, row: int, col: int, v: V, zero: V)
    requires row >= 0 && col >= 0
    ensures Get(Set(g, row, col, v).value, row, col, zero) == Success(v)
    ensures IsEmpty(Set(g, row, col, v).value, row, col) == Success(false)
  {
  }

  /** A write touches no other cell: reads and emptiness elsewhere are as
      before. */
  lemma SetLeavesOtherCells<V>(g: Grid<V>, row: int, col: int, v: V, row': int, col': int, zero: V)
    requires row >= 0 && col >= 0
    requires (row', col') != (row, col)
    ensures Get(Set(g, row, col, v).value, row', col', zero) == Get(g, row', col', zero)
    ensures IsEmpty(Set(g, row, col, v).value, row', col') == IsEmpty(g, row', col')
  {
  }

  /** A later write to the same cell overwrites the earlier one, and the
      dimensions are those the second write alone would give. */
  lemma SetOverwrites<V>(g: Grid<V>, row: int, col: int, v: V, v': V)
    requires row >= 0 && col >= 0
    ensures Set(Set(g, row, col, v).value, row, col, v') == Set(g, row, col, v')
  {
    var once := Set(g, row, col, v').value;
    var twice := Set(Set(g, row, col, v).value, row, col, v').value;
    assert twice.cells == once.cells;
  }
}
