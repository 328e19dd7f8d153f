/** Whole sessions on concrete input. The number reader and the formatter
    stay abstract: each scenario only assumes how the reader reads the
    number tokens it uses. */
module Scenarios {
  import opened Wrappers
  import opened Failures
  import opened JavaInt
  import opened SparseGrid
  import opened RegionWriter
  import opened RowLetters
  import opened Console
  import Basic = BasicController
  import Better = BetterController
  import RegionOverflow

  /** Concatenation regroups freely; used to line a session's transcript
      up with one group of lines per instruction. */
  lemma Regroup<T>(a: seq<T>, b: seq<T>, c: seq<T>)
    ensures a + b + c == a + (b + c)
  {
  }

  /** The shape of a session that ends with the quit instruction: the
      opening text, one group per instruction, the last prompt and the
      farewell. */
  lemma Frame<T>(head: seq<T>, body: seq<T>, last: T, farewell: T)
    ensures head + (body + [last]) + [farewell] == head + body + [last, farewell]
  {
  }

  /** "assign-value A 1 42.5 print-value A 1 q" on a fresh grid in the
      bulk-capable controller: one write, echoed, and one read that prints
      the value written, then the farewell. */
  lemma AssignThenPrint<V>(ts: seq<string>, env: Env<V>, v: V) returns (r: Session<V>)
    requires ts == ["assign-value", "A", "1", "42.5", "print-value", "A", "1", "q"]
    requires env.parseInt("1") == Some(1) && env.parseValue("42.5") == Some(v)
    ensures r == Better.Go(ts, Empty(), env)
    ensures r.status == Quit
    ensures r.calls == [SetCall(0, 0, v), GetCall(0, 0)]
    ensures r.out == [Better.Welcome] + Better.Menu
      + [Prompt, Better.SetLine(0, 0, v, env)] + [Prompt, ValueLine(v, env)] + [Prompt, Better.Farewell]
  {
    var l := AssignThenPrintLoop(ts, env, v);
    r := Better.Go(ts, Empty(), env);
    var head, g1, g2 := [Better.Welcome] + Better.Menu, [Prompt, Better.SetLine(0, 0, v, env)], [Prompt, ValueLine(v, env)];
    Frame(head, g1 + g2, Prompt, Better.Farewell);
    Regroup(head, g1, g2);
    Pair(SetCall(0, 0, v), GetCall(0, 0));
  }

  /** The loop part of AssignThenPrint. */
  lemma AssignThenPrintLoop<V>(ts: seq<string>, env: Env<V>, v: V) returns (l: Session<V>)
    requires ts == ["assign-value", "A", "1", "42.5", "print-value", "A", "1", "q"]
    requires env.parseInt("1") == Some(1) && env.parseValue("42.5") == Some(v)
    ensures l == Better.Loop(ts, Empty(), env)
    ensures l.status == Quit && l.calls == [SetCall(0, 0, v)] + [GetCall(0, 0)]
    ensures l.out == [Prompt, Better.SetLine(0, 0, v, env)] + [Prompt, ValueLine(v, env)] + [Prompt]
  {
    var ts1 := ["print-value", "A", "1", "q"];
    assert ["assign-value", "A", "1", "42.5"] + ts1 == ts;
    var s0 := AssignFirst(ts1, env, v);
    Better.LoopContinues(ts, Empty(), env);
    var l1 := PrintThenQuitLoop(ts1, s0.grid, env, v);
    l := Better.Loop(ts, Empty(), env);
    Regroup(s0.out, [Prompt, ValueLine(v, env)], [Prompt]);
  }

  lemma PrintThenQuitLoop<V>(ts: seq<string>, g: Grid<V>, env: Env<V>, v: V) returns (l: Session<V>)
    requires ts == ["print-value", "A", "1", "q"]
    requires env.parseInt("1") == Some(1) && g == Set(Empty(), 0, 0, v).value
    ensures l == Better.Loop(ts, g, env)
    ensures l.status == Quit && l.calls == [GetCall(0, 0)]
    ensures l.out == [Prompt, ValueLine(v, env)] + [Prompt]
  {
    var ts2 := ["q"];
    assert ["print-value", "A", "1"] + ts2 == ts;
    var s1 := PrintSecond(ts2, g, env, v);
    Better.LoopContinues(ts, g, env);
    Better.LoopQuits(ts2, g, env);
    l := Better.Loop(ts, g, env);
  }

  lemma AssignFirst<V>(rest: seq<string>, env: Env<V>, v: V) returns (s: StepResult<V>)
    requires env.parseInt("1") == Some(1) && env.parseValue("42.5") == Some(v)
    ensures s == Better.Step(["assign-value", "A", "1", "42.5"] + rest, Empty(), env)
    ensures s.outcome == Continue && s.rest == rest && s.calls == [SetCall(0, 0, v)]
    ensures s.out == [Prompt, Better.SetLine(0, 0, v, env)]
    ensures s.grid == Set(Empty(), 0, 0, v).value
  {
    assert DecodeRow("A") == Success(0);
    assert ColumnIndex(1) == 0;
    Better.AssignValueWrites("A", "1", "42.5", rest, Empty(), env);
    s := Better.Step(["assign-value", "A", "1", "42.5"] + rest, Empty(), env);
  }

  lemma PrintSecond<V>(rest: seq<string>, g: Grid<V>, env: Env<V>, v: V) returns (s: StepResult<V>)
    requires env.parseInt("1") == Some(1) && g == Set(Empty(), 0, 0, v).value
    ensures s == Better.Step(["print-value", "A", "1"] + rest, g, env)
    ensures s.outcome == Continue && s.rest == rest && s.calls == [GetCall(0, 0)] && s.grid == g
    ensures s.out == [Prompt, ValueLine(v, env)]
  {
    assert DecodeRow("A") == Success(0);
    assert ColumnIndex(1) == 0;
    GetAfterSet(Empty(), 0, 0, v, env.zero);
    Better.PrintValueReads("A", "1", rest, g, env);
    s := Better.Step(["print-value", "A", "1"] + rest, g, env);
  }

  /** "assign-value A 1 10.5 print-value A 1 q" on a fresh grid in the
      basic controller: the calls set(0, 0, v) then get(0, 0); the write is
      silent and the read prints the value written. */
  lemma BasicAssignThenPrint<V>(ts: seq<string>, env: Env<V>, v: V) returns (r: Session<V>)
    requires ts == ["assign-value", "A", "1", "10.5", "print-value", "A", "1", "q"]
    requires env.parseInt("1") == Some(1) && env.parseValue("10.5") == Some(v)
    ensures r == Basic.Go(ts, Empty(), env)
    ensures r.status == Quit
    ensures r.calls == [SetCall(0, 0, v), GetCall(0, 0)]
    ensures r.out == [Basic.Welcome] + Basic.Menu + [Prompt] + [Prompt, ValueLine(v, env)] + [Prompt, Basic.Farewell]
  {
    var l := BasicAssignThenPrintLoop(ts, env, v);
    r := Basic.Go(ts, Empty(), env);
    var head, g1, g2 := [Basic.Welcome] + Basic.Menu, [Prompt], [Prompt, ValueLine(v, env)];
    Frame(head, g1 + g2, Prompt, Basic.Farewell);
    Regroup(head, g1, g2);
    Pair(SetCall(0, 0, v), GetCall(0, 0));
  }

  /** The loop part of BasicAssignThenPrint. */
  lemma BasicAssignThenPrintLoop<V>(ts: seq<string>, env: Env<V>, v: V) returns (l: Session<V>)
    requires ts == ["assign-value", "A", "1", "10.5", "print-value", "A", "1", "q"]
    requires env.parseInt("1") == Some(1) && env.parseValue("10.5") == Some(v)
    ensures l == Basic.Loop(ts, Empty(), env)
    ensures l.status == Quit && l.calls == [SetCall(0, 0, v)] + [GetCall(0, 0)]
    ensures l.out == [Prompt] + [Prompt, ValueLine(v, env)] + [Prompt]
  {
    var ts1 := ["print-value", "A", "1", "q"];
    assert ["assign-value", "A", "1", "10.5"] + ts1 == ts;
    var s0 := BasicAssignFirst(ts1, env, v);
    Basic.LoopContinues(ts, Empty(), env);
    var l1 := BasicPrintThenQuitLoop(ts1, s0.grid, env, v);
    l := Basic.Loop(ts, Empty(), env);
    Regroup(s0.out, [Prompt, ValueLine(v, env)], [Prompt]);
  }

  lemma BasicPrintThenQuitLoop<V>(ts: seq<string>, g: Grid<V>, env: Env<V>, v: V) returns (l: Session<V>)
    requires ts == ["print-value", "A", "1", "q"]
    requires env.parseInt("1") == Some(1) && g == Set(Empty(), 0, 0, v).value
    ensures l == Basic.Loop(ts, g, env)
    ensures l.status == Quit && l.calls == [GetCall(0, 0)]
    ensures l.out == [Prompt, ValueLine(v, env)] + [Prompt]
  {
    var ts2 := ["q"];
    assert ["print-value", "A", "1"] + ts2 == ts;
    var s1 := BasicPrintSecond(ts2, g, env, v);
    Basic.LoopContinues(ts, g, env);
    Basic.LoopQuits(ts2, g, env);
    l := Basic.Loop(ts, g, env);
  }

  lemma BasicAssignFirst<V>(rest: seq<string>, env: Env<V>, v: V) returns (s: StepResult<V>)
    requires env.parseInt("1") == Some(1) && env.parseValue("10.5") == Some(v)
    ensures s == Basic.Step(["assign-value", "A", "1", "10.5"] + rest, Empty(), env)
    ensures s.outcome == Continue && s.rest == rest && s.calls == [SetCall(0, 0, v)]
    ensures s.out == [Prompt]
    ensures s.grid == Set(Empty(), 0, 0, v).value
  {
    assert DecodeRow("A") == Success(0);
    assert ColumnIndex(1) == 0;
    Basic.AssignValueWritesSilently("A", "1", "10.5", rest, Empty(), env);
    s := Basic.Step(["assign-value", "A", "1", "10.5"] + rest, Empty(), env);
  }

  lemma BasicPrintSecond<V>(rest: seq<string>, g: Grid<V>, env: Env<V>, v: V) returns (s: StepResult<V>)
    requires env.parseInt("1") == Some(1) && g == Set(Empty(), 0, 0, v).value
    ensures s == Basic.Step(["print-value", "A", "1"] + rest, g, env)
    ensures s.outcome == Continue && s.rest == rest && s.calls == [GetCall(0, 0)] && s.grid == g
    ensures s.out == [Prompt, ValueLine(v, env)]
  {
    assert DecodeRow("A") == Success(0);
    assert ColumnIndex(1) == 0;
    GetAfterSet(Empty(), 0, 0, v, env.zero);
    Basic.PrintValueReads("A", "1", rest, g, env);
    s := Basic.Step(["print-value", "A", "1"] + rest, g, env);
  }

  /** "bulk-assign A -2147483648 A -2147483648 1": the column number
      -2147483648 becomes the largest `int`, so the region is the one cell
      (0, 2147483647). The controller makes the call and echoes the write,
      and the intended `bulkSet` sets that cell; `bulkSet` as written sets
      it and then throws. */
  lemma EdgeColumnBulkAssign<V>(rest: seq<string>, g: Grid<V>, env: Env<V>, v: V) returns (s: StepResult<V>)
    requires env.parseInt("-2147483648") == Some(IntMin) && env.parseValue("1") == Some(v)
    ensures s == Better.Step(["bulk-assign", "A", "-2147483648", "A", "-2147483648", "1"] + rest, g, env)
    ensures s.outcome == Continue && s.rest == rest && s.calls == [BulkSetCall(0, IntMax, 0, IntMax, v)]
    ensures s.out == [Prompt, Better.BulkLine(v, 0, IntMax, 0, IntMax, env)]
    ensures s.grid == Set(g, 0, IntMax, v).value
    ensures RegionOverflow.BulkSetAsWritten(g, 0, IntMax, 0, IntMax, v) ==
      RegionOverflow.Written(s.grid, Some(NegativeCoordinate))
  {
    assert DecodeRow("A") == Success(0);
    assert ColumnIndex(IntMin) == IntMax;
    Better.BulkAssignSucceeds("A", "-2147483648", "A", "-2147483648", "1", rest, g, env);
    RegionOverflow.AsWrittenThrowsAtLastColumn(g, 0, v);
    s := Better.Step(["bulk-assign", "A", "-2147483648", "A", "-2147483648", "1"] + rest, g, env);
  }

  /** "bulk-assign A 1 C 3 10.5 q" makes the one call bulkSet(0, 0, 2, 2, v),
      writes exactly the 3 by 3 block at the origin and leaves the grid 3
      wide and 3 high. */
  lemma BulkAssignBlock<V>(ts: seq<string>, env: Env<V>, v: V) returns (r: Session<V>)
    requires ts == ["bulk-assign", "A", "1", "C", "3", "10.5", "q"]
    requires env.parseInt("1") == Some(1) && env.parseInt("3") == Some(3) && env.parseValue("10.5") == Some(v)
    ensures r == Better.Go(ts, Empty(), env)
    ensures r.status == Quit
    ensures r.calls == [BulkSetCall(0, 0, 2, 2, v)]
    ensures r.out == [Better.Welcome] + Better.Menu + [Prompt, Better.BulkLine(v, 0, 0, 2, 2, env)] + [Prompt, Better.Farewell]
    ensures r.grid.width == 3 && r.grid.height == 3
    ensures forall p :: p in r.grid.cells <==> 0 <= p.0 < 3 && 0 <= p.1 < 3
    ensures forall p :: p in r.grid.cells ==> r.grid.cells[p] == v
  {
    var l := BulkAssignBlockLoop(ts, env, v);
    r := Better.Go(ts, Empty(), env);
    var g := BlockReplay(v);
    Frame([Better.Welcome] + Better.Menu, [Prompt, Better.BulkLine(v, 0, 0, 2, 2, env)], Prompt, Better.Farewell);
  }

  lemma BulkAssignBlockLoop<V>(ts: seq<string>, env: Env<V>, v: V) returns (l: Session<V>)
    requires ts == ["bulk-assign", "A", "1", "C", "3", "10.5", "q"]
    requires env.parseInt("1") == Some(1) && env.parseInt("3") == Some(3) && env.parseValue("10.5") == Some(v)
    ensures l == Better.Loop(ts, Empty(), env)
    ensures l.status == Quit && l.calls == [BulkSetCall(0, 0, 2, 2, v)]
    ensures l.out == [Prompt, Better.BulkLine(v, 0, 0, 2, 2, env)] + [Prompt]
  {
    var ts1 := ["q"];
    assert ["bulk-assign", "A", "1", "C", "3", "10.5"] + ts1 == ts;
    var s0 := BulkBlockFirst(ts1, env, v);
    Better.LoopContinues(ts, Empty(), env);
    Better.LoopQuits(ts1, s0.grid, env);
    l := Better.Loop(ts, Empty(), env);
  }

  lemma BulkBlockFirst<V>(rest: seq<string>, env: Env<V>, v: V) returns (s: StepResult<V>)
    requires env.parseInt("1") == Some(1) && env.parseInt("3") == Some(3) && env.parseValue("10.5") == Some(v)
    ensures s == Better.Step(["bulk-assign", "A", "1", "C", "3", "10.5"] + rest, Empty(), env)
    ensures s.outcome == Continue && s.rest == rest && s.calls == [BulkSetCall(0, 0, 2, 2, v)]
    ensures s.out == [Prompt, Better.BulkLine(v, 0, 0, 2, 2, env)]
  {
    assert DecodeRow("A") == Success(0) && DecodeRow("C") == Success(2);
    assert ColumnIndex(1) == 0 && ColumnIndex(3) == 2;
    Better.BulkAssignWrites("A", "1", "C", "3", "10.5", rest, Empty(), env);
    s := Better.Step(["bulk-assign", "A", "1", "C", "3", "10.5"] + rest, Empty(), env);
  }

  /** The grid the one call of BulkAssignBlock leaves: exactly the 3 by 3
      block at the origin is written, all with the same value. */
  lemma BlockReplay<V>(v: V) returns (g: Grid<V>)
    ensures g == Replay(Empty(), [BulkSetCall(0, 0, 2, 2, v)])
    ensures g.width == 3 && g.height == 3
    ensures forall p :: p in g.cells <==> 0 <= p.0 < 3 && 0 <= p.1 < 3
    ensures forall p :: p in g.cells ==> g.cells[p] == v
  {
    ReplayOne(Empty(), BulkSetCall(0, 0, 2, 2, v));
    g := OriginBlockKeys(v);
    OriginBlockValues(v);
  }

  lemma OriginBlockKeys<V>(v: V) returns (g: Grid<V>)
    ensures g == BulkSet(Empty(), 0, 0, 2, 2, v).value
    ensures forall p :: p in g.cells <==> 0 <= p.0 < 3 && 0 <= p.1 < 3
  {
    g := BulkSet(Empty(), 0, 0, 2, 2, v).value;
    OriginBlockCovers(v);
    OriginBlockStaysInside(v);
  }

  lemma OriginBlockCovers<V>(v: V)
    ensures forall p: Cell :: 0 <= p.0 < 3 && 0 <= p.1 < 3 ==> p in BulkSet(Empty(), 0, 0, 2, 2, v).value.cells
  {
    assert forall p: Cell :: 0 <= p.0 < 3 && 0 <= p.1 < 3 ==> InRegion(p, 0, 0, 2, 2);
  }

  lemma OriginBlockStaysInside<V>(v: V)
    ensures forall p :: p in BulkSet(Empty(), 0, 0, 2, 2, v).value.cells ==> 0 <= p.0 < 3 && 0 <= p.1 < 3
  {
    var g0: Grid<V> := Empty();
    assert forall p :: p !in g0.cells;
  }

  lemma OriginBlockValues<V>(v: V)
    ensures var g := BulkSet(Empty(), 0, 0, 2, 2, v).value;
      g.width == 3 && g.height == 3 && forall p :: p in g.cells ==> g.cells[p] == v
  {
  }

  /** "bulk-assign C 1 A 3 10.5 q": the end row precedes the start row, so
      one error line is written and the grid is untouched. */
  lemma InvertedBulkAssign<V>(ts: seq<string>, env: Env<V>, v: V) returns (r: Session<V>)
    requires ts == ["bulk-assign", "C", "1", "A", "3", "10.5", "q"]
    requires env.parseInt("1") == Some(1) && env.parseInt("3") == Some(3) && env.parseValue("10.5") == Some(v)
    ensures r == Better.Go(ts, Empty(), env)
    ensures r.status == Quit && r.calls == [] && r.grid == Empty()
    ensures r.out == [Better.Welcome] + Better.Menu + [Prompt, ErrorLine(InvertedRegion)] + [Prompt, Better.Farewell]
  {
    var l := InvertedBulkAssignLoop(ts, env, v);
    r := Better.Go(ts, Empty(), env);
    Frame([Better.Welcome] + Better.Menu, [Prompt, ErrorLine(InvertedRegion)], Prompt, Better.Farewell);
  }

  lemma InvertedBulkAssignLoop<V>(ts: seq<string>, env: Env<V>, v: V) returns (l: Session<V>)
    requires ts == ["bulk-assign", "C", "1", "A", "3", "10.5", "q"]
    requires env.parseInt("1") == Some(1) && env.parseInt("3") == Some(3) && env.parseValue("10.5") == Some(v)
    ensures l == Better.Loop(ts, Empty(), env)
    ensures l.status == Quit && l.calls == [] && l.grid == Empty()
    ensures l.out == [Prompt, ErrorLine(InvertedRegion)] + [Prompt]
  {
    assert DecodeRow("A") == Success(0) && DecodeRow("C") == Success(2);
    assert ColumnIndex(1) == 0 && ColumnIndex(3) == 2;
    var ts1 := ["q"];
    assert ["bulk-assign", "C", "1", "A", "3", "10.5"] + ts1 == ts;
    Better.BulkAssignRejects("C", "1", "A", "3", "10.5", ts1, Empty(), env);
    Better.LoopContinues(ts, Empty(), env);
    Better.LoopQuits(ts1, Empty(), env);
    l := Better.Loop(ts, Empty(), env);
  }

  /** "assign-value a 1 0 q" in the basic controller: exactly the call
      set(0, 0, v), and nothing written between the two prompts. */
  lemma SilentAssign<V>(ts: seq<string>, env: Env<V>, v: V) returns (r: Session<V>)
    requires ts == ["assign-value", "a", "1", "0", "q"]
    requires env.parseInt("1") == Some(1) && env.parseValue("0") == Some(v)
    ensures r == Basic.Go(ts, Empty(), env)
    ensures r.status == Quit
    ensures r.calls == [SetCall(0, 0, v)]
    ensures r.out == [Basic.Welcome] + Basic.Menu + [Prompt] + [Prompt, Basic.Farewell]
  {
    var l := SilentAssignLoop(ts, env, v);
    r := Basic.Go(ts, Empty(), env);
    Frame([Basic.Welcome] + Basic.Menu, [Prompt], Prompt, Basic.Farewell);
  }

  lemma SilentAssignLoop<V>(ts: seq<string>, env: Env<V>, v: V) returns (l: Session<V>)
    requires ts == ["assign-value", "a", "1", "0", "q"]
    requires env.parseInt("1") == Some(1) && env.parseValue("0") == Some(v)
    ensures l == Basic.Loop(ts, Empty(), env)
    ensures l.status == Quit && l.calls == [SetCall(0, 0, v)]
    ensures l.out == [Prompt] + [Prompt]
  {
    assert DecodeRow("a") == Success(0);
    assert ColumnIndex(1) == 0;
    var ts1 := ["q"];
    assert ["assign-value", "a", "1", "0"] + ts1 == ts;
    Basic.AssignValueWritesSilently("a", "1", "0", ts1, Empty(), env);
    var s0 := Basic.Step(ts, Empty(), env);
    Basic.LoopContinues(ts, Empty(), env);
    Basic.LoopQuits(ts1, s0.grid, env);
    l := Basic.Loop(ts, Empty(), env);
  }

  /** "assign-value A -1 10.5 q": the column becomes -2, the grid rejects
      it, one error line is written and the session goes on to the quit. */
  lemma NegativeColumn<V>(ts: seq<string>, env: Env<V>, v: V) returns (r: Session<V>)
    requires ts == ["assign-value", "A", "-1", "10.5", "q"]
    requires env.parseInt("-1") == Some(-1) && env.parseValue("10.5") == Some(v)
    ensures r == Basic.Go(ts, Empty(), env)
    ensures r.status == Quit && r.calls == []
    ensures r.out == [Basic.Welcome] + Basic.Menu + [Prompt, ErrorLine(NegativeCoordinate)] + [Prompt, Basic.Farewell]
  {
    var l := NegativeColumnLoop(ts, env, v);
    r := Basic.Go(ts, Empty(), env);
    Frame([Basic.Welcome] + Basic.Menu, [Prompt, ErrorLine(NegativeCoordinate)], Prompt, Basic.Farewell);
  }

  lemma NegativeColumnLoop<V>(ts: seq<string>, env: Env<V>, v: V) returns (l: Session<V>)
    requires ts == ["assign-value", "A", "-1", "10.5", "q"]
    requires env.parseInt("-1") == Some(-1) && env.parseValue("10.5") == Some(v)
    ensures l == Basic.Loop(ts, Empty(), env)
    ensures l.status == Quit && l.calls == []
    ensures l.out == [Prompt, ErrorLine(NegativeCoordinate)] + [Prompt]
  {
    assert DecodeRow("A") == Success(0);
    assert ColumnIndex(-1) == -2;
    var ts1 := ["q"];
    assert ["assign-value", "A", "-1", "10.5"] + ts1 == ts;
    Basic.AssignValueWritesSilently("A", "-1", "10.5", ts1, Empty(), env);
    Basic.LoopContinues(ts, Empty(), env);
    Basic.LoopQuits(ts1, Empty(), env);
    l := Basic.Loop(ts, Empty(), env);
  }

  /** "assign-value 123 1 10 q": the bad row is reported, then "1" and "10"
      are read as instructions and reported as undefined, whatever the
      number reader makes of them. */
  lemma BadRowTokensReread<V>(ts: seq<string>, env: Env<V>) returns (r: Session<V>)
    requires ts == ["assign-value", "123", "1", "10", "q"]
    ensures r == Better.Go(ts, Empty(), env)
    ensures r.status == Quit && r.calls == []
    ensures r.out == [Better.Welcome] + Better.Menu + [Prompt, ErrorLine(InvalidRow)]
      + [Prompt, UndefinedLine("1")] + [Prompt, UndefinedLine("10")] + [Prompt, Better.Farewell]
  {
    var l := BadRowTokensRereadLoop(ts, env);
    r := Better.Go(ts, Empty(), env);
    var head, g1, g2, g3 := [Better.Welcome] + Better.Menu, [Prompt, ErrorLine(InvalidRow)],
      [Prompt, UndefinedLine("1")], [Prompt, UndefinedLine("10")];
    Frame(head, g1 + g2 + g3, Prompt, Better.Farewell);
    Regroup(head, g1 + g2, g3);
    Regroup(head, g1, g2);
  }

  lemma BadRowTokensRereadLoop<V>(ts: seq<string>, env: Env<V>) returns (l: Session<V>)
    requires ts == ["assign-value", "123", "1", "10", "q"]
    ensures l == Better.Loop(ts, Empty(), env)
    ensures l.status == Quit && l.calls == []
    ensures l.out == [Prompt, ErrorLine(InvalidRow)] + [Prompt, UndefinedLine("1")] + [Prompt, UndefinedLine("10")] + [Prompt]
  {
    var ts1 := ["1", "10", "q"];
    assert !AllLetters("123") by {
      assert !IsLetter("123"[0]);
    }
    assert ["assign-value", "123"] + ts1 == ts;
    Better.BadRowLeavesArgumentsUnread("assign-value", "123", ts1, Empty(), env);
    Better.LoopContinues(ts, Empty(), env);
    var l1 := UndefinedThenQuitLoop(ts1, env);
    var g1, g2, g3 := [Prompt, ErrorLine(InvalidRow)], [Prompt, UndefinedLine("1")], [Prompt, UndefinedLine("10")];
    assert g1 == [Prompt, "Error: Invalid row\n"];
    l := Better.Loop(ts, Empty(), env);
    assert l == Session(Empty(), g1 + l1.out, [], Quit);
    Regroup(g1 + g2, g3, [Prompt]);
    Regroup(g1, g2, g3 + [Prompt]);
    Regroup(g2, g3, [Prompt]);
  }

  lemma UndefinedThenQuitLoop<V>(ts: seq<string>, env: Env<V>) returns (l: Session<V>)
    requires ts == ["1", "10", "q"]
    ensures l == Better.Loop(ts, Empty(), env)
    ensures l.status == Quit && l.calls == []
    ensures l.out == [Prompt, UndefinedLine("1")] + [Prompt, UndefinedLine("10")] + [Prompt]
  {
    var quit := ["q"];
    Better.LoopQuits(quit, Empty(), env);
    Better.UnknownInstructionContinues("10", quit, Empty(), env);
    var l1 := Better.Loop(["10"] + quit, Empty(), env);
    assert l1 == Session(Empty(), [Prompt, UndefinedLine("10")] + [Prompt], [], Quit);
    Better.UnknownInstructionContinues("1", ["10"] + quit, Empty(), env);
    assert ["1"] + (["10"] + quit) == ts;
    l := Better.Loop(ts, Empty(), env);
    assert l == Session(Empty(), [Prompt, UndefinedLine("1")] + l1.out, [], Quit);
    Regroup([Prompt, UndefinedLine("1")], [Prompt, UndefinedLine("10")], [Prompt]);
  }

  /** Input that runs out in the middle of an instruction ends the session
      with the exception: no farewell is written. */
  lemma InputRunsOut<V>(ts: seq<string>, env: Env<V>) returns (r: Session<V>)
    requires ts == ["assign-value", "B", "2"]
    requires env.parseInt("2") == Some(2)
    ensures r == Better.Go(ts, Empty(), env)
    ensures r.status == Abort && r.calls == []
    ensures r.out == [Better.Welcome] + Better.Menu + [Prompt]
  {
    assert ts[1..] == ["B", "2"] && ts[1..][1..] == ["2"] && ts[1..][1..][1..] == [];
    assert Better.AssignValue(ts[1..], Empty(), env).None?;
    assert Better.Step(ts, Empty(), env).outcome == Halt(Abort);
    Better.LoopHalts(ts, Empty(), env);
    r := Better.Go(ts, Empty(), env);
  }
}
