/** The controller of the bulk-capable spreadsheet: a loop that prompts,
    reads an instruction token and its arguments, drives the grid, and
    writes one line per instruction, until `q` or `quit`. */
module BetterController {
  import opened Wrappers
  import opened JavaInt
  import opened Failures
  import opened SparseGrid
  import opened RegionWriter
  import opened RowLetters
  import opened Console

  const Welcome: string := "Welcome to the better spreadsheet program!\n"

  const Menu: seq<string> := [
    "Supported user instructions are: \n",
    "assign-value row-num col-num value (set a cell to a value)\n",
    "print-value row-num col-num (print the value at a given cell)\n",
    "bulk-assign start-row start-col end-row end-col value (set a region to a value)\n",
    "menu (Print supported instruction list)\n",
    "q or quit (quit the program) \n"
  ]

  const Farewell: string := "Thank you for using this enhanced program!"

  function SetLine<V>(row: int, col: int, v: V, env: Env<V>): string {
    "Set cell (" + IntToString(row) + "," + IntToString(col) + ") to " + env.show(v) + NL
  }

  function BulkLine<V>(v: V, startRow: int, startCol: int, endRow: int, endCol: int, env: Env<V>): string {
    "Bulk assigned " + env.show(v) + " to region (" + IntToString(startRow) + "," + IntToString(startCol)
      + ") to (" + IntToString(endRow) + "," + IntToString(endCol) + ")" + NL
  }

  /** `assign-value row col value`: a bad row token is reported at once,
      leaving the other two tokens unread; otherwise the column and value
      are read, the cell written and the write echoed, or the grid's
      rejection reported. */
  function AssignValue<V>(args: seq<string>, g: Grid<V>, env: Env<V>): (d: Option<Done<V>>)
    ensures d.Some? ==> IsSuffix(d.value.rest, args) && |d.value.rest| < |args|
    ensures d.Some? ==> |d.value.out| == 1 && d.value.grid == Replay(g, d.value.calls)
    ensures d.Some? ==> |d.value.calls| <= 1 && forall i :: 0 <= i < |d.value.calls| ==> d.value.calls[i].SetCall?
    ensures d.None? <==> (|args| == 0 ||
      (DecodeRow(args[0]).Success? && (NextInt(args[1..], env).None? || NextValue(args[2..], env).None?)))
  {
    var rowToken :- NextToken(args);
    match DecodeRow(rowToken.value)
    case Failure(e) => Some(Done(rowToken.rest, g, [ErrorLine(e)], []))
    case Success(row) =>
      var col :- NextInt(rowToken.rest, env);
      var value :- NextValue(col.rest, env);
      var c := ColumnIndex(col.value);
      match Set(g, row, c, value.value)
      case Failure(e) => Some(Done(value.rest, g, [ErrorLine(e)], []))
      case Success(g') => Some(Done(value.rest, g', [SetLine(row, c, value.value, env)], [SetCall(row, c, value.value)]))
  }

  /** `bulk-assign startRow startCol endRow endCol value`: each row token is
      decoded as soon as it is read, and a bad one is reported at once,
      leaving the tokens after it unread; otherwise the region is written and
      echoed with 0-based corners, or the grid's rejection reported. */
  function BulkAssign<V>(args: seq<string>, g: Grid<V>, env: Env<V>): (d: Option<Done<V>>)
    ensures d.Some? ==> IsSuffix(d.value.rest, args) && |d.value.rest| < |args|
    ensures d.Some? ==> |d.value.out| == 1 && d.value.grid == Replay(g, d.value.calls)
    ensures d.Some? ==> |d.value.calls| <= 1 && forall i :: 0 <= i < |d.value.calls| ==> d.value.calls[i].BulkSetCall?
    ensures d.None? <==> (|args| == 0 ||
      (DecodeRow(args[0]).Success? && (NextInt(args[1..], env).None? || |args| < 3 ||
        (DecodeRow(args[2]).Success? && (NextInt(args[3..], env).None? || NextValue(args[4..], env).None?)))))
  {
    var startRowToken :- NextToken(args);
    match DecodeRow(startRowToken.value)
    case Failure(e) => Some(Done(startRowToken.rest, g, [ErrorLine(e)], []))
    case Success(startRow) =>
      var startCol :- NextInt(startRowToken.rest, env);
      var endRowToken :- NextToken(startCol.rest);
      match DecodeRow(endRowToken.value)
      case Failure(e) => Some(Done(endRowToken.rest, g, [ErrorLine(e)], []))
      case Success(endRow) =>
        var endCol :- NextInt(endRowToken.rest, env);
        var value :- NextValue(endCol.rest, env);
        var sc, ec := ColumnIndex(startCol.value), ColumnIndex(endCol.value);
        match BulkSet(g, startRow, sc, endRow, ec, value.value)
        case Failure(e) => Some(Done(value.rest, g, [ErrorLine(e)], []))
        case Success(g') =>
          Some(Done(value.rest, g', [BulkLine(value.value, startRow, sc, endRow, ec, env)],
                    [BulkSetCall(startRow, sc, endRow, ec, value.value)]))
  }

  /** One iteration of the loop. */
  function Step<V>(ts: seq<string>, g: Grid<V>, env: Env<V>): (s: StepResult<V>)
    ensures |s.out| >= 1 && s.out[0] == Prompt
    ensures IsSuffix(s.rest, ts)
    ensures s.outcome == Continue ==> |s.rest| < |ts|
    ensures s.outcome == Halt(Quit) <==> |ts| > 0 && (ts[0] == "q" || ts[0] == "quit")
    ensures s.outcome == Halt(Abort) ==>
      |ts| == 0 || ts[0] == "assign-value" || ts[0] == "print-value" || ts[0] == "bulk-assign"
    ensures s.outcome.Halt? ==> s.grid == g && s.calls == [] && s.out == [Prompt]
    ensures s.grid == Replay(g, s.calls) && |s.calls| <= 1
  {
    if |ts| == 0 then StepResult(ts, g, [Prompt], [], Halt(Abort))
    else
      var instruction, args := ts[0], ts[1..];
      if instruction == "assign-value" then Finish(ts, g, AssignValue(args, g, env))
      else if instruction == "print-value" then Finish(ts, g, PrintValue(args, g, env))
      else if instruction == "bulk-assign" then Finish(ts, g, BulkAssign(args, g, env))
      else if instruction == "menu" then StepResult(args, g, [Prompt] + Menu, [], Continue)
      else if instruction == "q" || instruction == "quit" then StepResult(args, g, [Prompt], [], Halt(Quit))
      else StepResult(args, g, [Prompt, UndefinedLine(instruction)], [], Continue)
  }

  /** The instruction loop, from the first prompt to the quit instruction or
      the input exception that ends it. */
  function Loop<V>(ts: seq<string>, g: Grid<V>, env: Env<V>): (r: Session<V>)
    decreases |ts|
    ensures Prompted(r.out)
    ensures r.grid == Replay(g, r.calls)
  {
    var s := Step(ts, g, env);
    match s.outcome
    case Halt(status) => Session(s.grid, s.out, s.calls, status)
    case Continue =>
      Continued(g, s, Loop(s.rest, s.grid, env))
  }

  /** A continuing iteration is followed by the rest of the loop, its
      output before the rest's and its calls before the rest's. */
  lemma LoopContinues<V>(ts: seq<string>, g: Grid<V>, env: Env<V>)
    requires Step(ts, g, env).outcome == Continue
    ensures var s := Step(ts, g, env);
      var l := Loop(s.rest, s.grid, env);
      Loop(ts, g, env) == Session(l.grid, s.out + l.out, s.calls + l.calls, l.status)
  {
  }

  /** The quit instruction ends the loop after its one prompt. */
  lemma LoopQuits<V>(ts: seq<string>, g: Grid<V>, env: Env<V>)
    requires |ts| > 0 && (ts[0] == "q" || ts[0] == "quit")
    ensures Loop(ts, g, env) == Session(g, [Prompt], [], Quit)
  {
  }

  /** A halting iteration ends the loop after its one prompt. */
  lemma LoopHalts<V>(ts: seq<string>, g: Grid<V>, env: Env<V>)
    requires Step(ts, g, env).outcome.Halt?
    ensures Loop(ts, g, env) == Session(g, [Prompt], [], Step(ts, g, env).outcome.status)
  {
  }

  /** `go()`: the welcome text and menu, the loop, and the farewell text
      once the user quits. An input exception escapes before the farewell,
      so such a session's output ends with the last prompt. */
  function Go<V>(ts: seq<string>, g: Grid<V>, env: Env<V>): (r: Session<V>)
    ensures |r.out| > |Menu| + 1 && r.out[..|Menu| + 1] == [Welcome] + Menu
    ensures r.status == Quit ==> r.out[|r.out| - 1] == Farewell
    ensures r.status == Abort ==> r.out[|r.out| - 1] == Prompt
    ensures r.grid == Replay(g, r.calls)
    ensures r.grid.width >= g.width && r.grid.height >= g.height
    ensures Valid(g) ==> Valid(r.grid)
  {
    var r := Loop(ts, g, env);
    ReplayNeverShrinks(g, r.calls);
    Framed([Welcome] + Menu, r, Farewell)
  }

  /** An unrecognised token is reported and the loop carries on with the
      very next token as an instruction; the grid and the calls are those
      of the rest of the session alone. */
  lemma UnknownInstructionContinues<V>(instruction: string, rest: seq<string>, g: Grid<V>, env: Env<V>)
    requires instruction !in {"assign-value", "print-value", "bulk-assign", "menu", "q", "quit"}
    ensures var r := Loop(rest, g, env);
      Loop([instruction] + rest, g, env) == Session(r.grid, [Prompt, UndefinedLine(instruction)] + r.out, r.calls, r.status)
  {
    assert ([instruction] + rest)[1..] == rest;
  }

  /** A row token that does not decode costs exactly one error line, and
      the argument tokens after it are not consumed: the loop reads them
      next as instructions. */
  lemma BadRowLeavesArgumentsUnread<V>(instruction: string, row: string, rest: seq<string>, g: Grid<V>, env: Env<V>)
    requires instruction in {"assign-value", "print-value", "bulk-assign"}
    requires !AllLetters(row)
    ensures Step([instruction, row] + rest, g, env) ==
      StepResult(rest, g, [Prompt, "Error: Invalid row\n"], [], Continue)
  {
    var args := [row] + rest;
    assert [instruction, row] + rest == [instruction] + args;
    assert args[0] == row && args[1..] == rest;
    var done := Some(Done(rest, g, [ErrorLine(InvalidRow)], []));
    if instruction == "assign-value" {
      assert AssignValue(args, g, env) == done;
    } else if instruction == "print-value" {
      assert PrintValue(args, g, env) == done;
    } else {
      assert BulkAssign(args, g, env) == done;
    }
    assert ErrorLine(InvalidRow) == "Error: Invalid row\n";
  }

  /** In `bulk-assign` a bad end-row token is reported the same way, after
      the start row and start column have been consumed, and the end column
      and value tokens are left unread. */
  lemma BadEndRowLeavesArgumentsUnread<V>(startRow: string, startCol: string, endRow: string, rest: seq<string>,
                                          g: Grid<V>, env: Env<V>)
    requires AllLetters(startRow) && !AllLetters(endRow)
    requires env.parseInt(startCol).Some? && IsInt(env.parseInt(startCol).value)
    ensures Step(["bulk-assign", startRow, startCol, endRow] + rest, g, env) ==
      StepResult(rest, g, [Prompt, "Error: Invalid row\n"], [], Continue)
  {
    var args := [startRow, startCol, endRow] + rest;
    assert ["bulk-assign", startRow, startCol, endRow] + rest == ["bulk-assign"] + args;
    assert args[0] == startRow && args[1..] == [startCol, endRow] + rest;
    assert ([startCol, endRow] + rest)[1..] == [endRow] + rest;
    assert ([endRow] + rest)[1..] == rest;
    assert BulkAssign(args, g, env) == Some(Done(rest, g, [ErrorLine(InvalidRow)], []));
    assert ErrorLine(InvalidRow) == "Error: Invalid row\n";
  }

  /** `assign-value R C V` writes V at (row of R, C - 1) and echoes that
      0-based cell, or reports the grid's rejection of a negative column and
      leaves the grid alone; either way the three argument tokens are used. */
  lemma AssignValueWrites<V>(rowToken: string, colToken: string, valueToken: string, rest: seq<string>,
                             g: Grid<V>, env: Env<V>)
    requires AllLetters(rowToken)
    requires env.parseInt(colToken).Some? && IsInt(env.parseInt(colToken).value)
    requires env.parseValue(valueToken).Some?
    ensures var s := Step(["assign-value", rowToken, colToken, valueToken] + rest, g, env);
      var row, col, v := DecodeRow(rowToken).value, ColumnIndex(env.parseInt(colToken).value), env.parseValue(valueToken).value;
      && s.rest == rest && s.outcome == Continue
      && (row >= 0 && col >= 0 ==>
            && s.calls == [SetCall(row, col, v)]
            && Get(s.grid, row, col, env.zero) == Success(v)
            && s.out == [Prompt, SetLine(row, col, v, env)])
      && (row < 0 || col < 0 ==> s.grid == g && s.calls == [] && s.out == [Prompt, ErrorLine(NegativeCoordinate)])
  {
    var args := [rowToken, colToken, valueToken] + rest;
    assert ["assign-value", rowToken, colToken, valueToken] + rest == ["assign-value"] + args;
    assert args[0] == rowToken && args[1..] == [colToken, valueToken] + rest;
    assert ([colToken, valueToken] + rest)[1..] == [valueToken] + rest;
    assert ([valueToken] + rest)[1..] == rest;
    var row, col, v := DecodeRow(rowToken).value, ColumnIndex(env.parseInt(colToken).value), env.parseValue(valueToken).value;
    var d := AssignValue(args, g, env);
    if row >= 0 && col >= 0 {
      assert d == Some(Done(rest, Set(g, row, col, v).value, [SetLine(row, col, v, env)], [SetCall(row, col, v)]));
      GetAfterSet(g, row, col, v, env.zero);
    } else {
      assert d == Some(Done(rest, g, [ErrorLine(NegativeCoordinate)], []));
    }
  }

  /** `print-value R C` reads (row of R, C - 1) and writes its value (zero
      for a cell never written) without changing the grid. */
  lemma PrintValueReads<V>(rowToken: string, colToken: string, rest: seq<string>, g: Grid<V>, env: Env<V>)
    requires AllLetters(rowToken)
    requires env.parseInt(colToken).Some? && IsInt(env.parseInt(colToken).value)
    ensures var s := Step(["print-value", rowToken, colToken] + rest, g, env);
      var row, col := DecodeRow(rowToken).value, ColumnIndex(env.parseInt(colToken).value);
      && s.rest == rest && s.outcome == Continue && s.grid == g
      && (row >= 0 && col >= 0 ==>
            && s.calls == [GetCall(row, col)]
            && s.out == [Prompt, ValueLine(if (row, col) in g.cells then g.cells[(row, col)] else env.zero, env)])
      && (row < 0 || col < 0 ==> s.calls == [] && s.out == [Prompt, ErrorLine(NegativeCoordinate)])
  {
    var args := [rowToken, colToken] + rest;
    assert ["print-value", rowToken, colToken] + rest == ["print-value"] + args;
    assert args[0] == rowToken && args[1..] == [colToken] + rest;
    assert ([colToken] + rest)[1..] == rest;
  }

  /** The 0-based region a well-formed `bulk-assign` names. */
  predicate LegalRegion(sr: int, sc: int, er: int, ec: int) {
    sr >= 0 && sc >= 0 && er >= 0 && ec >= 0 && sr <= er && sc <= ec
  }

  /** `bulk-assign R1 C1 R2 C2 V` forwards the 0-based region (C1 - 1 and
      C2 - 1 for the columns) to the grid; when the region is legal every
      cell of it reads V afterwards and the region is echoed. */
  lemma BulkAssignWrites<V>(startRowToken: string, startColToken: string, endRowToken: string, endColToken: string,
                            valueToken: string, rest: seq<string>, g: Grid<V>, env: Env<V>)
    requires AllLetters(startRowToken) && AllLetters(endRowToken)
    requires env.parseInt(startColToken).Some? && IsInt(env.parseInt(startColToken).value)
    requires env.parseInt(endColToken).Some? && IsInt(env.parseInt(endColToken).value)
    requires env.parseValue(valueToken).Some?
    requires LegalRegion(DecodeRow(startRowToken).value, ColumnIndex(env.parseInt(startColToken).value),
                         DecodeRow(endRowToken).value, ColumnIndex(env.parseInt(endColToken).value))
    ensures var s := Step(["bulk-assign", startRowToken, startColToken, endRowToken, endColToken, valueToken] + rest, g, env);
      var sr, er := DecodeRow(startRowToken).value, DecodeRow(endRowToken).value;
      var sc, ec := ColumnIndex(env.parseInt(startColToken).value), ColumnIndex(env.parseInt(endColToken).value);
      var v := env.parseValue(valueToken).value;
      && s.rest == rest && s.outcome == Continue
      && s.calls == [BulkSetCall(sr, sc, er, ec, v)]
      && (forall r, c :: sr <= r <= er && sc <= c <= ec ==> Get(s.grid, r, c, env.zero) == Success(v))
      && s.out == [Prompt, BulkLine(v, sr, sc, er, ec, env)]
  {
    var sr, er := DecodeRow(startRowToken).value, DecodeRow(endRowToken).value;
    var sc, ec := ColumnIndex(env.parseInt(startColToken).value), ColumnIndex(env.parseInt(endColToken).value);
    var v := env.parseValue(valueToken).value;
    BulkAssignSucceeds(startRowToken, startColToken, endRowToken, endColToken, valueToken, rest, g, env);
    BulkSetReadsBack(g, sr, sc, er, ec, v, env.zero);
  }

  /** The step half of BulkAssignWrites: the whole step, with the grid the
      bulk write produces. */
  lemma BulkAssignSucceeds<V>(startRowToken: string, startColToken: string, endRowToken: string, endColToken: string,
                              valueToken: string, rest: seq<string>, g: Grid<V>, env: Env<V>)
    requires AllLetters(startRowToken) && AllLetters(endRowToken)
    requires env.parseInt(startColToken).Some? && IsInt(env.parseInt(startColToken).value)
    requires env.parseInt(endColToken).Some? && IsInt(env.parseInt(endColToken).value)
    requires env.parseValue(valueToken).Some?
    requires LegalRegion(DecodeRow(startRowToken).value, ColumnIndex(env.parseInt(startColToken).value),
                         DecodeRow(endRowToken).value, ColumnIndex(env.parseInt(endColToken).value))
    ensures var sr, er := DecodeRow(startRowToken).value, DecodeRow(endRowToken).value;
      var sc, ec := ColumnIndex(env.parseInt(startColToken).value), ColumnIndex(env.parseInt(endColToken).value);
      var v := env.parseValue(valueToken).value;
      BulkSet(g, sr, sc, er, ec, v).Success? &&
      Step(["bulk-assign", startRowToken, startColToken, endRowToken, endColToken, valueToken] + rest, g, env) ==
        StepResult(rest, BulkSet(g, sr, sc, er, ec, v).value, [Prompt, BulkLine(v, sr, sc, er, ec, env)],
                   [BulkSetCall(sr, sc, er, ec, v)], Continue)
  {
    var sr, er := DecodeRow(startRowToken).value, DecodeRow(endRowToken).value;
    var sc, ec := ColumnIndex(env.parseInt(startColToken).value), ColumnIndex(env.parseInt(endColToken).value);
    var v := env.parseValue(valueToken).value;
    BulkAssignConsumesArguments(startRowToken, startColToken, endRowToken, endColToken, valueToken, rest, g, env);
    BulkAssignDispatch(startRowToken, startColToken, endRowToken, endColToken, valueToken, rest, g, env);
    Pair(Prompt, BulkLine(v, sr, sc, er, ec, env));
  }

  /** A negative or inverted region costs one error line naming the first
      check it fails, and the grid is left untouched. */
  lemma BulkAssignRejects<V>(startRowToken: string, startColToken: string, endRowToken: string, endColToken: string,
                             valueToken: string, rest: seq<string>, g: Grid<V>, env: Env<V>)
    requires AllLetters(startRowToken) && AllLetters(endRowToken)
    requires env.parseInt(startColToken).Some? && IsInt(env.parseInt(startColToken).value)
    requires env.parseInt(endColToken).Some? && IsInt(env.parseInt(endColToken).value)
    requires env.parseValue(valueToken).Some?
    requires !LegalRegion(DecodeRow(startRowToken).value, ColumnIndex(env.parseInt(startColToken).value),
                          DecodeRow(endRowToken).value, ColumnIndex(env.parseInt(endColToken).value))
    ensures var s := Step(["bulk-assign", startRowToken, startColToken, endRowToken, endColToken, valueToken] + rest, g, env);
      var sr, er := DecodeRow(startRowToken).value, DecodeRow(endRowToken).value;
      var sc, ec := ColumnIndex(env.parseInt(startColToken).value), ColumnIndex(env.parseInt(endColToken).value);
      && s == StepResult(rest, g, [Prompt, ErrorLine(if sr < 0 || sc < 0 || er < 0 || ec < 0 then NegativeCoordinate else InvertedRegion)], [], Continue)
  {
    var e := RejectedRegion(startRowToken, startColToken, endRowToken, endColToken, valueToken, rest, g, env);
    BulkAssignDispatch(startRowToken, startColToken, endRowToken, endColToken, valueToken, rest, g, env);
    Pair(Prompt, ErrorLine(e));
  }

  /** The step for a `bulk-assign` token is the bulk handler on the tokens
      after it. */
  lemma BulkAssignDispatch<V>(startRowToken: string, startColToken: string, endRowToken: string, endColToken: string,
                              valueToken: string, rest: seq<string>, g: Grid<V>, env: Env<V>)
    ensures var ts := ["bulk-assign", startRowToken, startColToken, endRowToken, endColToken, valueToken] + rest;
      Step(ts, g, env) == Finish(ts, g, BulkAssign([startRowToken, startColToken, endRowToken, endColToken, valueToken] + rest, g, env))
  {
    var args := [startRowToken, startColToken, endRowToken, endColToken, valueToken] + rest;
    assert ["bulk-assign", startRowToken, startColToken, endRowToken, endColToken, valueToken] + rest == ["bulk-assign"] + args;
    assert (["bulk-assign"] + args)[1..] == args;
    assert "bulk-assign"[0] != "print-value"[0];
  }

  /** The handler half of BulkAssignRejects. */
  lemma RejectedRegion<V>(startRowToken: string, startColToken: string, endRowToken: string, endColToken: string,
                          valueToken: string, rest: seq<string>, g: Grid<V>, env: Env<V>) returns (e: Error)
    requires AllLetters(startRowToken) && AllLetters(endRowToken)
    requires env.parseInt(startColToken).Some? && IsInt(env.parseInt(startColToken).value)
    requires env.parseInt(endColToken).Some? && IsInt(env.parseInt(endColToken).value)
    requires env.parseValue(valueToken).Some?
    requires !LegalRegion(DecodeRow(startRowToken).value, ColumnIndex(env.parseInt(startColToken).value),
                          DecodeRow(endRowToken).value, ColumnIndex(env.parseInt(endColToken).value))
    ensures e == (var sr, er := DecodeRow(startRowToken).value, DecodeRow(endRowToken).value;
      var sc, ec := ColumnIndex(env.parseInt(startColToken).value), ColumnIndex(env.parseInt(endColToken).value);
      if sr < 0 || sc < 0 || er < 0 || ec < 0 then NegativeCoordinate else InvertedRegion)
    ensures BulkAssign([startRowToken, startColToken, endRowToken, endColToken, valueToken] + rest, g, env) ==
      Some(Done(rest, g, [ErrorLine(e)], []))
  {
    var sr, er := DecodeRow(startRowToken).value, DecodeRow(endRowToken).value;
    var sc, ec := ColumnIndex(env.parseInt(startColToken).value), ColumnIndex(env.parseInt(endColToken).value);
    var b := BulkSet(g, sr, sc, er, ec, env.parseValue(valueToken).value);
    e := if sr < 0 || sc < 0 || er < 0 || ec < 0 then NegativeCoordinate else InvertedRegion;
    assert b == Failure(e);
    BulkAssignConsumesArguments(startRowToken, startColToken, endRowToken, endColToken, valueToken, rest, g, env);
  }

  /** Well-formed `bulk-assign` arguments are all consumed and the grid's
      answer decides the rest. */
  lemma BulkAssignConsumesArguments<V>(startRowToken: string, startColToken: string, endRowToken: string, endColToken: string,
                                       valueToken: string, rest: seq<string>, g: Grid<V>, env: Env<V>)
    requires AllLetters(startRowToken) && AllLetters(endRowToken)
    requires env.parseInt(startColToken).Some? && IsInt(env.parseInt(startColToken).value)
    requires env.parseInt(endColToken).Some? && IsInt(env.parseInt(endColToken).value)
    requires env.parseValue(valueToken).Some?
    ensures var sr, er := DecodeRow(startRowToken).value, DecodeRow(endRowToken).value;
      var sc, ec := ColumnIndex(env.parseInt(startColToken).value), ColumnIndex(env.parseInt(endColToken).value);
      var v := env.parseValue(valueToken).value;
      var b := BulkSet(g, sr, sc, er, ec, v);
      BulkAssign([startRowToken, startColToken, endRowToken, endColToken, valueToken] + rest, g, env) ==
        if b.Success? then Some(Done(rest, b.value, [BulkLine(v, sr, sc, er, ec, env)], [BulkSetCall(sr, sc, er, ec, v)]))
        else Some(Done(rest, g, [ErrorLine(b.error)], []))
  {
    var t4 := [valueToken] + rest;
    var t3 := [endColToken] + t4;
    var t2 := [endRowToken] + t3;
    var t1 := [startColToken] + t2;
    var args := [startRowToken] + t1;
    assert args == [startRowToken, startColToken, endRowToken, endColToken, valueToken] + rest;
    assert t4[1..] == rest && t3[1..] == t4 && t2[1..] == t3 && t1[1..] == t2 && args[1..] == t1;
    assert NextToken(args) == Some(Read(startRowToken, t1));
    assert NextInt(t1, env) == Some(Read(env.parseInt(startColToken).value, t2));
    assert NextToken(t2) == Some(Read(endRowToken, t3));
    assert NextInt(t3, env) == Some(Read(env.parseInt(endColToken).value, t4));
    assert NextValue(t4, env) == Some(Read(env.parseValue(valueToken).value, rest));
  }

  /** `menu` writes the instruction list alone, not the welcome line. */
  lemma MenuWritesMenuOnly<V>(rest: seq<string>, g: Grid<V>, env: Env<V>)
    ensures Step(["menu"] + rest, g, env) == StepResult(rest, g, [Prompt] + Menu, [], Continue)
  {
    assert (["menu"] + rest)[1..] == rest;
  }

  /** `q` or `quit` ends the session at once: nothing after it is read and
      the farewell text is the last thing written. */
  lemma QuitEndsSession<V>(quit: string, rest: seq<string>, g: Grid<V>, env: Env<V>)
    requires quit == "q" || quit == "quit"
    ensures Go([quit] + rest, g, env) == Session(g, [Welcome] + Menu + [Prompt, Farewell], [], Quit)
  {
  }
}
