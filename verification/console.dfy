/** What the two text controllers share: the collaborators they cannot see
    (number parsing and value formatting), the token readers standing in for
    the Scanner, the record of grid calls a session makes, the per-instruction
    result, and the message texts common to both. */
module Console {
  import opened Wrappers
  import opened JavaInt
  import opened Failures
  import opened SparseGrid
  import opened RegionWriter
  import opened RowLetters

  /** The Scanner's number readers and the value formatter, as abstract
      total functions, and the value `get` returns for an unwritten cell. */
  datatype Env<!V> = Env(
    parseInt: string -> Option<int>,
    parseValue: string -> Option<V>,
    show: V -> string,
    zero: V)

  /** A call the grid accepted, in the order the controller made it. */
  datatype Call<V> =
    | GetCall(row: int, col: int)
    | SetCall(row: int, col: int, value: V)
    | BulkSetCall(startRow: int, startCol: int, endRow: int, endCol: int, value: V)

  /** The effect of one call on the grid; a rejected call has none. */
  function Apply<V>(g: Grid<V>, c: Call<V>): Grid<V> {
    match c
    case GetCall(_, _) => g
    case SetCall(row, col, v) =>
      (match Set(g, row, col, v)
       case Success(g') => g'
       case Failure(_) => g)
    case BulkSetCall(sr, sc, er, ec, v) =>
      (match BulkSet(g, sr, sc, er, ec, v)
       case Success(g') => g'
       case Failure(_) => g)
  }

  /** The grid after a sequence of calls, applied in order. */
  function Replay<V>(g: Grid<V>, calls: seq<Call<V>>): Grid<V>
    decreases |calls|
  {
    if |calls| == 0 then g else Replay(Apply(g, calls[0]), calls[1..])
  }

  lemma {:induction false} ReplayAppend<V>(g: Grid<V>, a: seq<Call<V>>, b: seq<Call<V>>)
    ensures Replay(g, a + b) == Replay(Replay(g, a), b)
    decreases |a|
  {
    if |a| > 0 {
      assert (a + b)[0] == a[0];
      assert (a + b)[1..] == a[1..] + b;
      ReplayAppend(Apply(g, a[0]), a[1..], b);
    } else {
      assert a + b == b;
    }
  }

  /** Two one-element sequences joined are the two-element sequence. */
  lemma Pair<T>(a: T, b: T)
    ensures [a] + [b] == [a, b]
  {
  }

  /** Replaying a single call is applying it. */
  lemma ReplayOne<V>(g: Grid<V>, c: Call<V>)
    ensures Replay(g, [c]) == Apply(g, c)
  {
    assert [c][1..] == [];
  }

  /** Over any sequence of grid calls the dimensions never decrease and the
      grid stays well formed. */
  lemma {:induction false} ReplayNeverShrinks<V>(g: Grid<V>, calls: seq<Call<V>>)
    ensures Replay(g, calls).width >= g.width && Replay(g, calls).height >= g.height
    ensures Valid(g) ==> Valid(Replay(g, calls))
    decreases |calls|
  {
    if |calls| > 0 {
      ReplayNeverShrinks(Apply(g, calls[0]), calls[1..]);
    }
  }

  /** A token read together with the tokens after it. */
  datatype Read<T> = Read(value: T, rest: seq<string>)

  /** `next()`: the next token; none left is an exception that ends the
      session. */
  function NextToken(ts: seq<string>): Option<Read<string>> {
    if |ts| == 0 then None else Some(Read(ts[0], ts[1..]))
  }

  /** `nextInt()`: the next token read as a Java `int`; no token, or one
      that is not an `int`, ends the session. */
  function NextInt<V>(ts: seq<string>, env: Env<V>): Option<Read<int>> {
    if |ts| == 0 then None
    else match env.parseInt(ts[0])
      case Some(n) => if IsInt(n) then Some(Read(n, ts[1..])) else None
      case None => None
  }

  /** `nextDouble()`: the next token read as a value, or the end of the
      session. */
  function NextValue<V>(ts: seq<string>, env: Env<V>): Option<Read<V>> {
    if |ts| == 0 then None
    else match env.parseValue(ts[0])
      case Some(v) => Some(Read(v, ts[1..]))
      case None => None
  }

  /** The 0-based column of a 1-based column number: `col - 1` in 32-bit
      arithmetic, so the smallest `int` wraps round to the largest. */
  function ColumnIndex(col: int): (c: int)
    requires IsInt(col)
    ensures IsInt(c) && c == Wrap(col - 1)
    ensures col > IntMin ==> c + 1 == col
    ensures col == IntMin ==> c == IntMax
  {
    if col == IntMin then IntMax else col - 1
  }

  predicate IsSuffix(a: seq<string>, b: seq<string>) {
    |a| <= |b| && a == b[|b| - |a|..]
  }

  /** How a session ends: by a quit instruction, or by an input exception
      (tokens exhausted, or a number token that does not parse) that escapes
      the loop. */
  datatype Status = Quit | Abort

  datatype Outcome = Continue | Halt(status: Status)

  /** An instruction that ran to its end, whether it succeeded or reported
      a caught error: the tokens left, the grid, its output, its grid calls. */
  datatype Done<V> = Done(rest: seq<string>, grid: Grid<V>, out: seq<string>, calls: seq<Call<V>>)

  /** One iteration of the loop: prompt, instruction token, arguments. */
  datatype StepResult<V> = StepResult(rest: seq<string>, grid: Grid<V>, out: seq<string>, calls: seq<Call<V>>, outcome: Outcome)

  /** A whole session: final grid, every message written, the grid calls
      made, and how it ended. */
  datatype Session<V> = Session(grid: Grid<V>, out: seq<string>, calls: seq<Call<V>>, status: Status)

  const NL: string := "\n"
  const Prompt: string := "Type instruction: "

  function DigitsOf(n: nat): (s: string)
    decreases n
    ensures |s| > 0 && forall i :: 0 <= i < |s| ==> '0' <= s[i] <= '9'
  {
    if n < 10 then [('0' as int + n) as char] else DigitsOf(n / 10) + DigitsOf(n % 10)
  }

  /** Decimal text of an `int`, as string concatenation renders it. */
  function IntToString(n: int): string {
    if n < 0 then "-" + DigitsOf(-n) else DigitsOf(n)
  }

  function ErrorLine(e: Error): string {
    "Error: " + Message(e) + NL
  }

  function UndefinedLine(instruction: string): string {
    "Undefined instruction: " + instruction + NL
  }

  function ValueLine<V>(v: V, env: Env<V>): string {
    "Value: " + env.show(v) + NL
  }

  /** Output that opens and closes with the instruction prompt. */
  predicate Prompted(out: seq<string>) {
    |out| >= 1 && out[0] == Prompt && out[|out| - 1] == Prompt
  }

  /** Appends the rest of a session to the iteration that led into it: the
      output still opens and closes with a prompt, and the final grid is
      still the replay of every call made from the starting grid. */
  function Continued<V>(g: Grid<V>, s: StepResult<V>, r: Session<V>): (j: Session<V>)
    requires |s.out| >= 1 && s.out[0] == Prompt && s.grid == Replay(g, s.calls)
    requires Prompted(r.out) && r.grid == Replay(s.grid, r.calls)
    ensures Prompted(j.out)
    ensures j.grid == Replay(g, j.calls) && j.status == r.status
  {
    ReplayAppend(g, s.calls, r.calls);
    Session(r.grid, s.out + r.out, s.calls + r.calls, r.status)
  }

  /** Frames a session's output between an opening text and, when the user
      quit, a farewell line; a session cut short by an input exception ends
      with its last prompt. */
  function Framed<V>(head: seq<string>, r: Session<V>, farewell: string): (w: Session<V>)
    requires Prompted(r.out)
    ensures |w.out| > |head| && w.out[..|head|] == head
    ensures w.status == Quit ==> w.out[|w.out| - 1] == farewell
    ensures w.status == Abort ==> w.out[|w.out| - 1] == Prompt
    ensures w.grid == r.grid && w.calls == r.calls && w.status == r.status
  {
    Session(r.grid, head + r.out + (if r.status == Quit then [farewell] else []), r.calls, r.status)
  }

  /** Completes one iteration: the prompt comes first; an instruction that
      could not read its arguments ends the session, leaving the grid as it
      was. */
  function Finish<V>(ts: seq<string>, g: Grid<V>, d: Option<Done<V>>): StepResult<V> {
    match d
    case None => StepResult(ts, g, [Prompt], [], Halt(Abort))
    case Some(done) => StepResult(done.rest, done.grid, [Prompt] + done.out, done.calls, Continue)
  }

  /** `print-value row col`, the same in both controllers: a bad row token
      is reported at once, leaving the column token unread; otherwise the
      cell is read and its value written, or the grid's rejection reported. */
  function PrintValue<V>(args: seq<string>, g: Grid<V>, env: Env<V>): (d: Option<Done<V>>)
    ensures d.Some? ==> IsSuffix(d.value.rest, args) && |d.value.rest| < |args|
    ensures d.Some? ==> d.value.grid == g && |d.value.out| == 1
    ensures d.Some? ==> |d.value.calls| <= 1 && forall i :: 0 <= i < |d.value.calls| ==> d.value.calls[i].GetCall?
    ensures d.None? <==> |args| == 0 || (DecodeRow(args[0]).Success? && NextInt(args[1..], env).None?)
  {
    var rowToken :- NextToken(args);
    match DecodeRow(rowToken.value)
    case Failure(e) => Some(Done(rowToken.rest, g, [ErrorLine(e)], []))
    case Success(row) =>
      var col :- NextInt(rowToken.rest, env);
      var c := ColumnIndex(col.value);
      match Get(g, row, c, env.zero)
      case Failure(e) => Some(Done(col.rest, g, [ErrorLine(e)], []))
      case Success(v) => Some(Done(col.rest, g, [ValueLine(v, env)], [GetCall(row, c)]))
  }
}
