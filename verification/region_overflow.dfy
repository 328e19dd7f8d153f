/** `bulkSet` exactly as written: its two loop counters are Java `int`s.
    When an end corner is the largest `int`, the counter steps past it to
    the smallest `int`, the loop test `counter <= end` still holds, and the
    next `set` throws on the negative coordinate after every cell before it
    has been written. The rest of the model uses the intended `BulkSet`;
    this module relates the two. */
module RegionOverflow {
  import opened Wrappers
  import opened Failures
  import opened JavaInt
  import opened SparseGrid
  import opened RegionWriter

  /** What a mutating call leaves behind: the grid as it stands when the
      call returns or throws, and the error thrown, if any. */
  datatype Written<V> = Written(grid: Grid<V>, thrown: Option<Error>)

  /** The inner loop with an `int` counter. It throws exactly when it
      reaches a `set` with a negative coordinate: at once for a negative
      row, or after the last column when that column is the largest `int`.
      The cells it writes before throwing are those the exact loop writes. */
  function FillColumnsInt<V>(g: Grid<V>, row: int, col: int, endCol: int, v: V): (r: Written<V>)
    requires IsInt(col) && IsInt(endCol)
    decreases if col < 0 then 0 else IntMax + 2 - col
    ensures r.thrown.Some? ==> r.thrown == Some(NegativeCoordinate)
    ensures r.thrown.Some? <==> col <= endCol && (row < 0 || col < 0 || endCol == IntMax)
    ensures row >= 0 && col >= 0 ==> r.grid == FillColumns(g, row, col, endCol, v)
  {
    if col > endCol then Written(g, None)
    else match Set(g, row, col, v)
      case Failure(e) => Written(g, Some(e))
      case Success(g') => FillColumnsInt(g', row, Increment(col), endCol, v)
  }

  /** The outer loop with an `int` counter, over a column range the
      validation has already accepted. */
  function FillRowsInt<V>(g: Grid<V>, row: int, endRow: int, startCol: int, endCol: int, v: V): (r: Written<V>)
    requires IsInt(row) && IsInt(endRow) && IsInt(startCol) && IsInt(endCol)
    requires 0 <= startCol <= endCol
    decreases if row < 0 then 0 else IntMax + 2 - row
    ensures r.thrown.Some? ==> r.thrown == Some(NegativeCoordinate)
    ensures r.thrown.Some? <==> row <= endRow && (row < 0 || endRow == IntMax || endCol == IntMax)
    ensures row >= 0 && endCol < IntMax ==> r.grid == FillRows(g, row, endRow, startCol, endCol, v)
    ensures 0 <= row <= endRow && endCol == IntMax ==> r.grid == FillColumns(g, row, startCol, endCol, v)
  {
    if row > endRow then Written(g, None)
    else
      var w := FillColumnsInt(g, row, startCol, endCol, v);
      if w.thrown.Some? then w
      else FillRowsInt(w.grid, Increment(row), endRow, startCol, endCol, v)
  }

  /** `bulkSet` as written. It rejects what the intended `BulkSet` rejects,
      with the same error and the grid untouched. On a region it accepts it
      throws exactly when an end corner is the largest `int`: after writing
      the whole region when only the end row is, after writing the first
      row alone when the end column is. */
  function BulkSetAsWritten<V>(g: Grid<V>, startRow: int, startCol: int, endRow: int, endCol: int, v: V): (r: Written<V>)
    requires IsInt(startRow) && IsInt(startCol) && IsInt(endRow) && IsInt(endCol)
    ensures var b := BulkSet(g, startRow, startCol, endRow, endCol, v);
      b.Failure? ==> r == Written(g, Some(b.error))
    ensures var b := BulkSet(g, startRow, startCol, endRow, endCol, v);
      b.Success? ==> (r.thrown.Some? <==> endRow == IntMax || endCol == IntMax)
    ensures r.thrown.Some? && BulkSet(g, startRow, startCol, endRow, endCol, v).Success? ==>
      r.thrown == Some(NegativeCoordinate)
    ensures var b := BulkSet(g, startRow, startCol, endRow, endCol, v);
      b.Success? && endCol < IntMax ==> r.grid == b.value
    ensures BulkSet(g, startRow, startCol, endRow, endCol, v).Success? && endCol == IntMax ==>
      r.grid == BulkSet(g, startRow, startCol, startRow, endCol, v).value
  {
    if startRow < 0 || startCol < 0 || endRow < 0 || endCol < 0 then Written(g, Some(NegativeCoordinate))
    else if endRow < startRow || endCol < startCol then Written(g, Some(InvertedRegion))
    else FillRowsInt(g, startRow, endRow, startCol, endCol, v)
  }

  /** The one-cell region in the last column: the intended `bulkSet` is
      `set` on that cell, while as written the cell is set and then the
      call throws. */
  lemma AsWrittenThrowsAtLastColumn<V>(g: Grid<V>, row: int, v: V)
    requires 0 <= row <= IntMax
    ensures BulkSet(g, row, IntMax, row, IntMax, v) == Set(g, row, IntMax, v)
    ensures BulkSetAsWritten(g, row, IntMax, row, IntMax, v) ==
      Written(Set(g, row, IntMax, v).value, Some(NegativeCoordinate))
  {
    SingleCellBulkSetIsSet(g, row, IntMax, v);
  }
}
