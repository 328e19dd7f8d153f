/** The controller of the basic spreadsheet: the same loop as the
    bulk-capable one, without `bulk-assign`, with a silent `assign-value`,
    and with a `menu` that repeats the whole welcome text. */
module BasicController {
  import opened Wrappers
  import opened JavaInt
  import opened Failures
  import opened SparseGrid
  import opened RowLetters
  import opened Console

  const Welcome: string := "Welcome to the spreadsheet program!\n"

  const Menu: seq<string> := [
    "Supported user instructions are: \n",
    "assign-value row-num col-num value (set a cell to a value)\n",
    "print-value row-num col-num (print the value at a given cell)\n",
    "menu (Print supported instruction list)\n",
    "q or quit (quit the program) \n"
  ]

  const Farewell: string := "Thank you for using this program!"

  /** `assign-value row col value`: a bad row token is reported at once,
      leaving the other two tokens unread; otherwise the column and value
      are read and the cell written with nothing echoed, or the grid's
      rejection reported. */
  function AssignValue<V>(args: seq<string>, g: Grid<V>, env: Env<V>): (d: Option<Done<V>>)
    ensures d.Some? ==> IsSuffix(d.value.rest, args) && |d.value.rest| < |args|
    ensures d.Some? ==> d.value.grid == Replay(g, d.value.calls)
    ensures d.Some? ==> (d.value.out == [] <==> d.value.calls != [])
    ensures d.Some? ==> |d.value.out| <= 1 && |d.value.calls| <= 1
    ensures d.Some? ==> forall i :: 0 <= i < |d.value.calls| ==> d.value.calls[i].SetCall?
    ensures d.None? <==> (|args| == 0 ||
      (DecodeRow(args[0]).Success? && (NextInt(args[1..], env).None? || NextValue(args[2..], env).None?)))
  {
    var rowToken :- NextToken(args);
    match DecodeRow(rowToken.value)
    case Failure(e) => Some(Done(rowToken.rest, g, [ErrorLine(e)], []))
    case Success(row) =>
      var col :- NextInt(rowToken.rest, env);
      var value :- NextValue(col.rest, env);
      var c := ColumnIndex(col.value);
      match Set(g, row, c, value.value)
      case Failure(e) => Some(Done(value.rest, g, [ErrorLine(e)], []))
      case Success(g') => Some(Done(value.rest, g', [], [SetCall(row, c, value.value)]))
  }

  /** One iteration of the loop. */
  function Step<V>(ts: seq<string>, g: Grid<V>, env: Env<V>): (s: StepResult<V>)
    ensures |s.out| >= 1 && s.out[0] == Prompt
    ensures IsSuffix(s.rest, ts)
    ensures s.outcome == Continue ==> |s.rest| < |ts|
    ensures s.outcome == Halt(Quit) <==> |ts| > 0 && (ts[0] == "q" || ts[0] == "quit")
    ensures s.outcome == Halt(Abort) ==> |ts| == 0 || ts[0] == "assign-value" || ts[0] == "print-value"
    ensures s.outcome.Halt? ==> s.grid == g && s.calls == [] && s.out == [Prompt]
    ensures s.grid == Replay(g, s.calls) && |s.calls| <= 1
  {
    if |ts| == 0 then StepResult(ts, g, [Prompt], [], Halt(Abort))
    else
      var instruction, args := ts[0], ts[1..];
      if instruction == "assign-value" then Finish(ts, g, AssignValue(args, g, env))
      else if instruction == "print-value" then Finish(ts, g, PrintValue(args, g, env))
      else if instruction == "menu" then StepResult(args, g, [Prompt, Welcome] + Menu, [], Continue)
      else if instruction == "q" || instruction == "quit" then StepResult(args, g, [Prompt], [], Halt(Quit))
      else StepResult(args, g, [Prompt, UndefinedLine(instruction)], [], Continue)
  }

  /** The instruction loop, from the first prompt to the quit instruction or
      the input exception that ends it. */
  function Loop<V>(ts: seq<string>, g: Grid<V>, env: Env<V>): (r: Session<V>)
    decreases |ts|
    ensures Prompted(r.out)
    ensures r.grid == Replay(g, r.calls)
  {
    var s := Step(ts, g, env);
    match s.outcome
    case Halt(status) => Session(s.grid, s.out, s.calls, status)
    case Continue =>
      Continued(g, s, Loop(s.rest, s.grid, env))
  }

  /** A continuing iteration is followed by the rest of the loop, its
      output before the rest's and its calls before the rest's. */
  lemma LoopContinues<V>(ts: seq<string>, g: Grid<V>, env: Env<V>)
    requires Step(ts, g, env).outcome == Continue
    ensures var s := Step(ts, g, env);
      var l := Loop(s.rest, s.grid, env);
      Loop(ts, g, env) == Session(l.grid, s.out + l.out, s.calls + l.calls, l.status)
  {
  }

  /** The quit instruction ends the loop after its one prompt. */
  lemma LoopQuits<V>(ts: seq<string>, g: Grid<V>, env: Env<V>)
    requires |ts| > 0 && (ts[0] == "q" || ts[0] == "quit")
    ensures Loop(ts, g, env) == Session(g, [Prompt], [], Quit)
  {
  }

  /** `go()`: the welcome text and menu, the loop, and the farewell text
      once the user quits; an input exception escapes before the farewell. */
  function Go<V>(ts: seq<string>, g: Grid<V>, env: Env<V>): (r: Session<V>)
    ensures |r.out| > |Menu| + 1 && r.out[..|Menu| + 1] == [Welcome] + Menu
    ensures r.status == Quit ==> r.out[|r.out| - 1] == Farewell
    ensures r.status == Abort ==> r.out[|r.out| - 1] == Prompt
    ensures r.grid == Replay(g, r.calls)
    ensures r.grid.width >= g.width && r.grid.height >= g.height
    ensures Valid(g) ==> Valid(r.grid)
  {
    var r := Loop(ts, g, env);
    ReplayNeverShrinks(g, r.calls);
    Framed([Welcome] + Menu, r, Farewell)
  }

  /** An unrecognised token, `bulk-assign` among them, is reported and the
      loop carries on with the very next token as an instruction. */
  lemma UnknownInstructionContinues<V>(instruction: string, rest: seq<string>, g: Grid<V>, env: Env<V>)
    requires instruction !in {"assign-value", "print-value", "menu", "q", "quit"}
    ensures var r := Loop(rest, g, env);
      Loop([instruction] + rest, g, env) == Session(r.grid, [Prompt, UndefinedLine(instruction)] + r.out, r.calls, r.status)
  {
    assert ([instruction] + rest)[1..] == rest;
  }

  /** A row token that does not decode costs exactly one error line, and
      the argument tokens after it are left for the loop to read as
      instructions. */
  lemma BadRowLeavesArgumentsUnread<V>(instruction: string, row: string, rest: seq<string>, g: Grid<V>, env: Env<V>)
    requires instruction in {"assign-value", "print-value"}
    requires !AllLetters(row)
    ensures Step([instruction, row] + rest, g, env) ==
      StepResult(rest, g, [Prompt, "Error: Invalid row\n"], [], Continue)
  {
    var args := [row] + rest;
    assert [instruction, row] + rest == [instruction] + args;
    assert args[0] == row && args[1..] == rest;
    var done := Some(Done(rest, g, [ErrorLine(InvalidRow)], []));
    if instruction == "assign-value" {
      assert AssignValue(args, g, env) == done;
    } else {
      assert PrintValue(args, g, env) == done;
    }
    assert ErrorLine(InvalidRow) == "Error: Invalid row\n";
  }

  /** `assign-value R C V` makes exactly the call set(row of R, C - 1, V)
      and writes nothing but the prompt; a negative column is reported and
      leaves the grid alone. */
  lemma AssignValueWritesSilently<V>(rowToken: string, colToken: string, valueToken: string, rest: seq<string>,
                                     g: Grid<V>, env: Env<V>)
    requires AllLetters(rowToken)
    requires env.parseInt(colToken).Some? && IsInt(env.parseInt(colToken).value)
    requires env.parseValue(valueToken).Some?
    ensures var s := Step(["assign-value", rowToken, colToken, valueToken] + rest, g, env);
      var row, col, v := DecodeRow(rowToken).value, ColumnIndex(env.parseInt(colToken).value), env.parseValue(valueToken).value;
      && s.rest == rest && s.outcome == Continue
      && (row >= 0 && col >= 0 ==>
            && s.calls == [SetCall(row, col, v)]
            && Get(s.grid, row, col, env.zero) == Success(v)
            && s.out == [Prompt])
      && (row < 0 || col < 0 ==> s.grid == g && s.calls == [] && s.out == [Prompt, ErrorLine(NegativeCoordinate)])
  {
    var args := [rowToken, colToken, valueToken] + rest;
    assert ["assign-value", rowToken, colToken, valueToken] + rest == ["assign-value"] + args;
    assert args[0] == rowToken && args[1..] == [colToken, valueToken] + rest;
    assert ([colToken, valueToken] + rest)[1..] == [valueToken] + rest;
    assert ([valueToken] + rest)[1..] == rest;
    var row, col, v := DecodeRow(rowToken).value, ColumnIndex(env.parseInt(colToken).value), env.parseValue(valueToken).value;
    var d := AssignValue(args, g, env);
    if row >= 0 && col >= 0 {
      assert d == Some(Done(rest, Set(g, row, col, v).value, [], [SetCall(row, col, v)]));
      GetAfterSet(g, row, col, v, env.zero);
    } else {
      assert d == Some(Done(rest, g, [ErrorLine(NegativeCoordinate)], []));
    }
  }

  /** `print-value R C` reads (row of R, C - 1) and writes "Value: " with
      its value (zero for a cell never written); the grid is unchanged. */
  lemma PrintValueReads<V>(rowToken: string, colToken: string, rest: seq<string>, g: Grid<V>, env: Env<V>)
    requires AllLetters(rowToken)
    requires env.parseInt(colToken).Some? && IsInt(env.parseInt(colToken).value)
    ensures var s := Step(["print-value", rowToken, colToken] + rest, g, env);
      var row, col := DecodeRow(rowToken).value, ColumnIndex(env.parseInt(colToken).value);
      && s.rest == rest && s.outcome == Continue && s.grid == g
      && (row >= 0 && col >= 0 ==>
            && s.calls == [GetCall(row, col)]
            && s.out == [Prompt, ValueLine(if (row, col) in g.cells then g.cells[(row, col)] else env.zero, env)])
      && (row < 0 || col < 0 ==> s.calls == [] && s.out == [Prompt, ErrorLine(NegativeCoordinate)])
  {
    var args := [rowToken, colToken] + rest;
    assert ["print-value", rowToken, colToken] + rest == ["print-value"] + args;
    assert args[0] == rowToken && args[1..] == [colToken] + rest;
    assert ([colToken] + rest)[1..] == rest;
  }

  /** `menu` writes the welcome line again, then the instruction list. */
  lemma MenuRepeatsWelcome<V>(rest: seq<string>, g: Grid<V>, env: Env<V>)
    ensures Step(["menu"] + rest, g, env) == StepResult(rest, g, [Prompt, Welcome] + Menu, [], Continue)
  {
    assert (["menu"] + rest)[1..] == rest;
  }

  /** `q` or `quit` ends the session at once: nothing after it is read and
      the farewell text is the last thing written. */
  lemma QuitEndsSession<V>(quit: string, rest: seq<string>, g: Grid<V>, env: Env<V>)
    requires quit == "q" || quit == "quit"
    ensures Go([quit] + rest, g, env) == Session(g, [Welcome] + Menu + [Prompt, Farewell], [], Quit)
  {
  }
}
