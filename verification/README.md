# A verified model of the spreadsheet controllers and `bulkSet`

This project models the core of a small Java spreadsheet program in Dafny:

- the sparse grid, through the contract its callers rely on;
- `bulkSet`, the rectangular bulk write of `BetterSparseSpreadSheet`, together with the contract that `BetterSpreadSheet` declares for it;
- the two text controllers, `SpreadSheetController` and `BetterSpreadSheetController`, each with its `go()` loop and its `getRowNum` row-letter decoder.

Everything is modelled as pure functions over immutable values:

- The grid is a finite map from written cells to values, plus the width and height counters. Cell values have a type parameter `V`, so the number format stays abstract.
- The program's input is the sequence of tokens the `Scanner` would split it into.
- A session (`Session`) records four things:
  - the final grid;
  - every message the controller appends;
  - the sequence of grid calls it made (`Call`), which is what the recording test doubles log;
  - how it ended: `Quit` after `q`/`quit`, or `Abort` when an input exception escapes `go()` (tokens exhausted, or a number token that does not parse).
- Number parsing and value formatting are the parameters of `Console.Env`.

Modules:

| module | file | contents |
|---|---|---|
| `Wrappers`, `Failures` | wrappers.dfy, failures.dfy | `Option`/`Result`; the three `IllegalArgumentException` messages |
| `JavaInt` | java_int.dfy | the 32-bit `int` range, two's-complement wrap-around and `n++` |
| `SparseGrid` | grid.dfy | `set`, `get`, `isEmpty`, the dimension counters and their invariant |
| `RegionWriter` | region.dfy | `bulkSet` as its two nested loops with unbounded loop counters, with its validation order; the controllers use this definition |
| `RegionOverflow` | region_overflow.dfy | `bulkSet` exactly as written, with `int` loop counters that wrap round after `Integer.MAX_VALUE` (see Findings) |
| `RowLetters` | rows.dfy | `getRowNum` over exact integers, plus an independent reference meaning (bijective base 26) and its inverse `RowName` |
| `RowOverflow` | row_overflow.dfy | `getRowNum` exactly as written, with a 32-bit running number (see Findings) |
| `Console` | console.dfy | what both controllers share: token readers, the call trace and its replay, output lines, `print-value` |
| `BasicController`, `BetterController` | basic_controller.dfy, better_controller.dfy | each controller's instructions, one loop iteration (`Step`), the loop (`Loop`) and `go()` (`Go`). The source's two classes repeat the same loop, and so do these two modules; `Variants` relates them |
| `Variants` | variants.dfy | the two controllers agree on every input without `bulk-assign` |
| `Scenarios` | scenarios.dfy | whole sessions on concrete inputs, most of them those of the repository's controller tests |

## Model

| member | source | states |
|---|---|---|
| SparseGrid.Set | src/test/ExSparseSpreadSheetTest.java:21-62 | `set` fails with the negative-coordinate error exactly when a coordinate is negative; otherwise it stores the value (even zero), adds exactly that key, leaves every other cell alone, grows width and height to cover the cell but never shrinks them, and keeps the dimension invariant |
| SparseGrid.Get | src/test/ExSparseSpreadSheetTest.java:64-68 | `get` fails exactly on a negative coordinate; otherwise it returns the stored value, or zero for a cell never written, wherever it lies |
| SparseGrid.IsEmpty | src/test/ExSparseSpreadSheetTest.java:70-89 | `isEmpty` fails exactly on a negative coordinate; otherwise it is true exactly when the cell was never written, whatever value a write stored |
| SparseGrid.FreshGridIsEmpty | src/test/ExSparseSpreadSheetTest.java:21-26 | a new grid is 0 by 0, reads zero and is empty at every legal cell |
| SparseGrid.GetAfterSet | src/test/ExSparseSpreadSheetTest.java:76-89 | after `set(r, c, v)`, `get(r, c)` is `v` and `isEmpty(r, c)` is false, even for `v` equal to zero |
| SparseGrid.SetLeavesOtherCells | src/test/ExSparseSpreadSheetTest.java:104-139 | a write changes neither the value nor the emptiness of any other cell |
| SparseGrid.SetOverwrites | src/test/ExSparseSpreadSheetTest.java:91-102 | two writes to one cell leave the same grid as the second write alone |
| RegionWriter.FillColumns | src/spreadsheet/BetterSparseSpreadSheet.java:30-32 | with an unbounded counter, the inner loop writes exactly the cells of one row from the start column to the end column, leaves other cells unchanged, and grows the dimensions only when it writes something |
| RegionWriter.FillRows | src/spreadsheet/BetterSparseSpreadSheet.java:29-33 | with unbounded counters, the outer loop writes exactly the rectangle's cells, row by row, and leaves every other cell unchanged |
| RegionWriter.BulkSet | src/spreadsheet/BetterSpreadSheet.java:9-21 | the intended `bulkSet` (the interface's contract and the method's checks at BetterSparseSpreadSheet.java:16-34, with loop counters that do not wrap): it fails exactly when a corner is negative or the region is inverted; a negative corner is reported before an inverted region; on success every cell of the inclusive rectangle holds the value, no cell outside it is added or changed, the dimensions cover the far corner, and the grid invariant is kept |
| RegionWriter.CoverKeepsValid | src/spreadsheet/BetterSparseSpreadSheet.java:29-33 | writing a non-empty rectangle keeps the invariant that width and height are one past the largest written column and row |
| RegionWriter.BulkSetReadsBack | src/test/BetterSparseSpreadSheetTest.java:31-47 | after a legal `bulkSet`, `get` on every cell of the rectangle returns the value |
| RegionWriter.SingleCellBulkSetIsSet | src/test/BetterSparseSpreadSheetTest.java:22-29 | `bulkSet` on a one-cell region is exactly `set` on that cell |
| RegionOverflow.FillColumnsInt | src/spreadsheet/BetterSparseSpreadSheet.java:30-32 | the inner loop with an `int` counter throws the negative-coordinate error exactly when the range is non-empty and the row or start column is negative or the end column is `Integer.MAX_VALUE`; with legal start coordinates its grid is the unbounded loop's grid, including the cells written before the throw |
| RegionOverflow.FillRowsInt | src/spreadsheet/BetterSparseSpreadSheet.java:29-33 | the outer loop with `int` counters throws exactly when some row is to be written and the row is negative or an end corner is `Integer.MAX_VALUE`; below the last column from a legal row its grid is the unbounded loop's grid, and at the last column it stops after the first row |
| RegionOverflow.BulkSetAsWritten | src/spreadsheet/BetterSparseSpreadSheet.java:16-34 | `bulkSet` as written rejects the same regions as the intended one without writing; on an accepted region it throws exactly when an end corner is `Integer.MAX_VALUE`, and then only the negative-coordinate error; otherwise it leaves the intended grid, and at the last column the grid holds only the first row of the region |
| RegionOverflow.AsWrittenThrowsAtLastColumn | src/spreadsheet/BetterSparseSpreadSheet.java:29-33 | on the one cell (row, 2147483647) the intended `bulkSet` is `set` on that cell, while as written the cell is set and then the call throws the negative-coordinate error |
| RowLetters.DecodeRow | src/spreadsheet/BetterSpreadSheetController.java:112-123 | a token fails with "Invalid row" exactly when it holds a non-letter; otherwise the row is the reference base-26 value minus one (the empty token gives -1) |
| RowLetters.AccumulateIsValue | src/spreadsheet/BetterSpreadSheetController.java:115-121 | the left-to-right loop `26 * n + digit` computes the reference value of the letters |
| RowLetters.AccumulateAppend | src/spreadsheet/BetterSpreadSheetController.java:115-121 | running the loop over a concatenation is running it over the second part from the first part's result |
| RowLetters.DecodeRowIgnoresCase | src/test/EnhancedSpreadSheetControllerTest.java:55-65 | a token and its lower-case or upper-case form decode alike ("aB" is row 27) |
| RowLetters.RowNameRoundTrip | src/spreadsheet/BetterSpreadSheetController.java:105-123 | every row number has a non-empty letter name, and that name decodes back to the row |
| RowLetters.DecodeRowNamesRow | src/spreadsheet/BetterSpreadSheetController.java:112-123 | every non-empty letter token decodes to a row of at least 0 whose canonical name is the token in upper case |
| RowLetters.DecodeRowInjective | src/spreadsheet/BetterSpreadSheetController.java:112-123 | two tokens that decode to the same row are the same letters up to case |
| RowLetters.DecodeRowOrdersByLength | src/spreadsheet/BetterSpreadSheetController.java:112-123 | every token of a given length names a smaller row than every longer token |
| RowLetters.DecodeRowExamples | src/test/BetterSpreadSheetControllerTest.java:119-128 | worked decodings: A is 0, Z is 25, AA is 26, aB is 27, ZZ is 701, AAA is 702, ABC is 730; the empty token is -1; "123" is rejected |
| RowOverflow.AccumulateIntWraps | src/spreadsheet/BetterSpreadSheetController.java:120 | with a 32-bit running number the loop computes the exact value wrapped to 32 bits, for every letter token |
| RowOverflow.DecodeRowAsWritten | src/spreadsheet/BetterSpreadSheetController.java:112-123 | the decoder with `int` arithmetic rejects exactly the tokens with a non-letter, returns the exact row wrapped to 32 bits, and agrees with the exact decoder on every token of at most six letters |
| RowOverflow.AsWrittenOverflows | src/spreadsheet/BetterSpreadSheetController.java:120-122 | "ZZZZZZZ" is row 8353082581 exactly but -236852011 as written |
| RowOverflow.AsWrittenCollides | src/spreadsheet/BetterSpreadSheetController.java:120-122 | as written, "MWLQKWW" and "A" decode to the same row 0 although they are different letters |
| JavaInt.Wrap | src/spreadsheet/BetterSpreadSheetController.java:120 | the 32-bit result of an integer expression is the one `int` congruent to it modulo 2^32, and equals it when it is already in range |
| JavaInt.Increment | src/spreadsheet/BetterSparseSpreadSheet.java:29-30 | `n++` on an `int` is the wrapped `n + 1`: one more below `Integer.MAX_VALUE`, and `Integer.MIN_VALUE` after it |
| JavaInt.WrapAffine | src/spreadsheet/BetterSpreadSheetController.java:120 | wrapping the running number before `a * n + d` gives the same `int` as wrapping only the final result |
| Console.ColumnIndex | src/spreadsheet/BetterSpreadSheetController.java:58-59 | the 0-based column `col - 1` is the 32-bit wrap of the exact difference: one less than `col`, except that the smallest `int` wraps round to the largest |
| Console.ReplayNeverShrinks | src/test/ExSparseSpreadSheetTest.java:42-62 | across any sequence of accepted grid calls the width and height never decrease and the grid invariant is kept |
| Console.PrintValue | src/spreadsheet/BetterSpreadSheetController.java:65-73 | `print-value` aborts exactly when the tokens run out or the column token is not an `int`; otherwise it consumes its tokens, never changes the grid, writes one line and makes at most one call, a `get` |
| Console.Framed | src/spreadsheet/BetterSpreadSheetController.java:46-102 | the welcome text opens the transcript, the farewell closes it after a quit, and an aborted session ends on its last prompt |
| BetterController.AssignValue | src/spreadsheet/BetterSpreadSheetController.java:53-64 | `assign-value` aborts exactly when the tokens run out or a number token fails to parse after a good row; otherwise it consumes its tokens, writes one line, makes at most one call (a `set`), and the grid is that call's effect |
| BetterController.BulkAssign | src/spreadsheet/BetterSpreadSheetController.java:74-89 | `bulk-assign` aborts exactly when the tokens run out or a number token fails to parse after a good row token; otherwise it consumes its tokens, writes one line, makes at most one call (a `bulkSet`), and the grid is that call's effect |
| BetterController.Step | src/spreadsheet/BetterSpreadSheetController.java:48-100 | one iteration opens with the prompt and consumes at least one token unless it halts; it halts with `Quit` exactly on `q` or `quit`; it aborts only on no token or on an instruction that reads arguments; it makes at most one call |
| BetterController.Loop | src/spreadsheet/BetterSpreadSheetController.java:48-101 | the loop's transcript opens and ends with a prompt, and its final grid is the replay of the calls it made |
| BetterController.Go | src/spreadsheet/BetterSpreadSheetController.java:40-103 | the transcript starts with the welcome line and the menu, a quit ends it with the farewell, an abort ends it on a prompt with no farewell, the grid is the replay of the calls, and the dimensions only grow |
| BetterController.UnknownInstructionContinues | src/spreadsheet/BetterSpreadSheetController.java:97-99 | an unrecognised token costs one "Undefined instruction" line and the loop continues with the next token |
| BetterController.BadRowLeavesArgumentsUnread | src/spreadsheet/BetterSpreadSheetController.java:55-62 | a row token with a non-letter in any of the three instructions writes "Error: Invalid row" and leaves the remaining argument tokens to be read as instructions |
| BetterController.BadEndRowLeavesArgumentsUnread | src/spreadsheet/BetterSpreadSheetController.java:76-88 | in `bulk-assign` a bad end-row token is reported the same way after the start corner is read, and nothing is written |
| BetterController.AssignValueWrites | src/spreadsheet/BetterSpreadSheetController.java:53-64 | `assign-value R C V` calls `set(row of R, C - 1, V)`; the cell then reads V and the write is echoed; a negative coordinate gives one error line and leaves the grid unchanged |
| BetterController.PrintValueReads | src/spreadsheet/BetterSpreadSheetController.java:65-73 | `print-value R C` calls `get(row of R, C - 1)` and writes the stored value, or zero; a negative coordinate gives one error line; the grid is unchanged |
| BetterController.BulkAssignWrites | src/spreadsheet/BetterSpreadSheetController.java:74-89 | `bulk-assign R1 C1 R2 C2 V` on a legal region makes the one call `bulkSet(row R1, C1 - 1, row R2, C2 - 1, V)`, after which every cell of the region reads V, and it echoes the region |
| BetterController.BulkAssignSucceeds | src/spreadsheet/BetterSpreadSheetController.java:74-89 | on a legal region the whole iteration is determined: the tokens after the value, the grid `bulkSet` returns, the prompt and the echo line, and the one call |
| BetterController.BulkAssignRejects | src/spreadsheet/BetterSpreadSheetController.java:82-88 | on a negative or inverted region the iteration writes one error line naming the first check that fails, makes no call and leaves the grid unchanged |
| BetterController.BulkAssignConsumesArguments | src/spreadsheet/BetterSpreadSheetController.java:76-88 | well-formed arguments are all consumed, and the answer of `bulkSet` alone decides between the echo and the error line |
| BetterController.RejectedRegion | src/spreadsheet/BetterSparseSpreadSheet.java:19-26 | the error a rejected region produces is the negative-coordinate error when a corner is negative, and the inverted-region error otherwise |
| BetterController.MenuWritesMenuOnly | src/spreadsheet/BetterSpreadSheetController.java:90-92 | `menu` writes the instruction list but not the welcome line |
| BetterController.QuitEndsSession | src/spreadsheet/BetterSpreadSheetController.java:93-96 | `q` or `quit` ends the session at once with the farewell; no later token is read |
| BasicController.AssignValue | src/spreadsheet/SpreadSheetController.java:53-63 | `assign-value` aborts on the same inputs as in the other controller; otherwise it consumes its tokens and writes nothing exactly when it makes its one `set` call |
| BasicController.Step | src/spreadsheet/SpreadSheetController.java:49-83 | as in the other controller, except that `bulk-assign` is not an instruction and so never aborts |
| BasicController.Loop | src/spreadsheet/SpreadSheetController.java:49-84 | the loop's transcript opens and ends with a prompt, and its final grid is the replay of the calls it made |
| BasicController.Go | src/spreadsheet/SpreadSheetController.java:40-89 | welcome line and menu first; farewell after a quit and none after an abort; the grid is the replay of the calls |
| BasicController.UnknownInstructionContinues | src/spreadsheet/SpreadSheetController.java:81-82 | an unrecognised token, `bulk-assign` among them, costs one "Undefined instruction" line and the loop continues |
| BasicController.BadRowLeavesArgumentsUnread | src/spreadsheet/SpreadSheetController.java:55-62 | a row token with a non-letter writes "Error: Invalid row" and leaves the other argument tokens unread |
| BasicController.AssignValueWritesSilently | src/spreadsheet/SpreadSheetController.java:53-63 | `assign-value R C V` calls `set(row of R, C - 1, V)` and writes nothing but the prompt; a negative coordinate gives one error line and leaves the grid unchanged |
| BasicController.PrintValueReads | src/spreadsheet/SpreadSheetController.java:64-73 | `print-value R C` calls `get(row of R, C - 1)` and writes the stored value or zero; the grid is unchanged |
| BasicController.MenuRepeatsWelcome | src/spreadsheet/SpreadSheetController.java:74-76 | `menu` writes the welcome line again and then the instruction list |
| BasicController.QuitEndsSession | src/spreadsheet/SpreadSheetController.java:77-80 | `q` or `quit` ends the session at once with the farewell |
| Variants.AssignValueAgrees | src/spreadsheet/SpreadSheetController.java:53-63 | both controllers' `assign-value` abort on the same tokens and otherwise consume the same tokens, make the same call and leave the same grid |
| Variants.StepAgrees | src/spreadsheet/SpreadSheetController.java:49-83 | on any token but `bulk-assign` one iteration of either loop consumes the same tokens, makes the same calls, leaves the same grid and has the same outcome |
| Variants.SessionsAgree | src/spreadsheet/BetterSpreadSheetController.java:48-101 | on input without a `bulk-assign` token the two loops make the same calls, leave the same grid and end the same way |
| Scenarios.BasicAssignThenPrint | src/test/EnhancedSpreadSheetControllerTest.java:31-41 | in the basic controller "assign-value A 1 10.5 print-value A 1 q" makes the calls `set(0, 0, v)` then `get(0, 0)`, writes nothing for the assignment, prints the value written, and writes the exact transcript through to the farewell |
| Scenarios.AssignThenPrint | src/spreadsheet/BetterSpreadSheetController.java:53-73 | in the bulk-capable controller "assign-value A 1 42.5 print-value A 1 q" echoes the write and makes the calls `set(0, 0, v)` then `get(0, 0)`, prints the value written, and writes the exact transcript through to the farewell |
| Scenarios.BulkAssignBlock | src/test/BetterSpreadSheetControllerTest.java:85-95 | "bulk-assign A 1 C 3 10.5 q" makes the one call `bulkSet(0, 0, 2, 2, v)`, writes exactly the 3 by 3 block at the origin with v, and leaves the grid 3 wide and 3 high |
| Scenarios.InvertedBulkAssign | src/test/BetterSparseSpreadSheetTest.java:81-84 | a `bulk-assign` whose end row precedes its start row writes the inverted-region error, makes no call and leaves the grid empty |
| Scenarios.SilentAssign | src/test/SpreadSheetEdgeCasesTest.java:98-108 | in the basic controller "assign-value a 1 0 q" makes exactly the call `set(0, 0, v)` and writes nothing between the prompts |
| Scenarios.NegativeColumn | src/test/EnhancedSpreadSheetControllerTest.java:43-53 | "assign-value A -1 10.5 q" gets column -2, writes one error line, makes no call, and goes on to the quit |
| Scenarios.BadRowTokensReread | src/test/BetterSpreadSheetControllerTest.java:108-117 | "assign-value 123 1 10 q" reports the bad row, then reports "1" and "10" as undefined instructions, makes no call, and quits |
| Scenarios.EdgeColumnBulkAssign | src/spreadsheet/BetterSpreadSheetController.java:74-89 | "bulk-assign A -2147483648 A -2147483648 1" reaches `bulkSet(0, 2147483647, 0, 2147483647, v)`: the controller echoes the write and the intended grid has the cell set, while `bulkSet` as written sets the cell and throws |
| Scenarios.InputRunsOut | src/spreadsheet/BetterSpreadSheetController.java:40-57 | input that ends in the middle of `assign-value` aborts the session after the prompt: no call and no farewell |

## Left out

- Output failures: every `writeMessage` that turns an `IOException` into an `IllegalStateException` is left out. The appendable is modelled as a sequence of messages that never fails.
- The line separator is modelled as "\n".
- The `System.out` debug line in the basic controller's `assign-value` is left out. It goes to the process's standard output, not to the controller's appendable.
- `Scanner` tokenisation is modelled as a ready-made token sequence. `nextInt` and `nextDouble` are the abstract parsers `Env.parseInt` and `Env.parseValue`. `nextInt` aborts on a value outside the `int` range.
- `double` values and their string form are abstract: the value type `V`, `Env.show` and `Env.zero`. Floating point is not modelled.
- RowLetters.DecodeRow accepts only ASCII letters. Java's `Character.isAlphabetic` also accepts other alphabetic characters, which the source then maps through `toLowerCase(c) - 'a' + 1` to digits outside 1 to 26.
- Both controllers use the exact decoder `RowLetters.DecodeRow`. The 32-bit overflow of the decoder as written is modelled separately in `RowOverflow` (see Findings).
- SparseSpreadSheet is not part of this model. Its contract comes from the repository's tests: `set`, `get` and `isEmpty` reject a negative coordinate with an `IllegalArgumentException`. The message text is modelled as `bulkSet`'s "Row or column cannot be negative", because the original text is not available.
- `getWidth` and `getHeight` are modelled as the grid's `width` and `height` fields.
- The entry points (`SpreadSheetProgram`, `BetterSpreadSheetRunner`), the mock spreadsheets, and the constructors' null-argument checks are not modelled.
- RegionWriter.BulkSet: uses unbounded loop counters. When an end corner is `Integer.MAX_VALUE`, `bulkSet` as written writes part of the region and then throws the negative-coordinate error; here it returns the whole region (see Findings; the code as written is `RegionOverflow.BulkSetAsWritten`).
- RegionWriter.FillColumns: the counter does not wrap, so the loop ends normally at the end column `Integer.MAX_VALUE` instead of throwing (see `RegionOverflow.FillColumnsInt`).
- RegionWriter.FillRows: the counters do not wrap, so the loop writes every row at the last row or column `Integer.MAX_VALUE` instead of throwing (see `RegionOverflow.FillRowsInt`).
- BetterController.BulkAssign: uses the intended `RegionWriter.BulkSet`, so when an end corner is `Integer.MAX_VALUE` (reachable through the column token -2147483648) it echoes the write, while the code as written would reach the error line after a partial write.
- BetterController.Loop: its grid is the replay of its calls through the intended `bulkSet`; at an end corner of `Integer.MAX_VALUE` the code as written writes only part of the region.
- BetterController.Go: the same as `BetterController.Loop`.
- BetterController.BulkAssignWrites: the echo and the read-back are promised for every legal region, including one with an end corner of `Integer.MAX_VALUE`, where the code as written throws.
- BetterController.BulkAssignSucceeds: the same as `BetterController.BulkAssignWrites`.
- `BetterSpreadSheetControllerTest` calls an `executeBetterProgram()` that does not exist. Its scenarios are modelled against `go()` instead.

## Findings

| source | as written | input that shows it | evidently intended | confidence | as-written member | corrected member |
|---|---|---|---|---|---|---|
| src/spreadsheet/BetterSpreadSheetController.java:112-123 | the running row number `rownumber` is a Java `int`, so `26 * rownumber + digit` wraps round once a token has seven or more letters; `SpreadSheetController` repeats the same loop | "ZZZZZZZ" decodes to -236852011 instead of 8353082581. "MWLQKWW" decodes to 0, the same row as "A" | every letter token names its own row: the exact base-26 value minus one | medium, not executed | RowOverflow.DecodeRowAsWritten, RowOverflow.AsWrittenOverflows, RowOverflow.AsWrittenCollides | RowLetters.DecodeRow, with RowLetters.RowNameRoundTrip and RowLetters.DecodeRowInjective |
| src/spreadsheet/BetterSparseSpreadSheet.java:29-33 | the loop counters `row` and `col` are Java `int`s, so after `Integer.MAX_VALUE` they wrap round to `Integer.MIN_VALUE`, the loop goes on, and `set` throws the negative-coordinate error after part of the region has been written. The controller reaches this through the column token -2147483648, whose `- 1` wraps to 2147483647 | `bulkSet(0, 2147483647, 0, 2147483647, v)`, as from "bulk-assign A -2147483648 A -2147483648 1": the cell is set and then the call throws | a region that passes the checks is written in full and the call returns; BetterSpreadSheet.java:9-21 documents only the negative and inverted errors | medium, not executed | RegionOverflow.BulkSetAsWritten, RegionOverflow.AsWrittenThrowsAtLastColumn, Scenarios.EdgeColumnBulkAssign | RegionWriter.BulkSet, with RegionWriter.BulkSetReadsBack and RegionWriter.SingleCellBulkSetIsSet |
