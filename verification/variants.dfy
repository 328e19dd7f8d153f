/** The two controllers side by side: apart from `bulk-assign`, which only
    the bulk-capable one knows, they drive the grid identically and differ
    only in what they write. */
module Variants {
  import opened Wrappers
  import opened SparseGrid
  import opened Console
  import Basic = BasicController
  import Better = BetterController

  /** `assign-value` reads the same tokens and makes the same call in both
      controllers; only the echo differs. */
  lemma AssignValueAgrees<V>(args: seq<string>, g: Grid<V>, env: Env<V>)
    ensures Basic.AssignValue(args, g, env).None? <==> Better.AssignValue(args, g, env).None?
    ensures Basic.AssignValue(args, g, env).Some? ==>
      var a, b := Basic.AssignValue(args, g, env).value, Better.AssignValue(args, g, env).value;
      a.rest == b.rest && a.grid == b.grid && a.calls == b.calls
  {
  }

  /** One iteration of either loop on anything but `bulk-assign` consumes the
      same tokens, makes the same grid calls and ends the same way. */
  lemma StepAgrees<V>(ts: seq<string>, g: Grid<V>, env: Env<V>)
    requires |ts| == 0 || ts[0] != "bulk-assign"
    ensures var a, b := Basic.Step(ts, g, env), Better.Step(ts, g, env);
      a.rest == b.rest && a.grid == b.grid && a.calls == b.calls && a.outcome == b.outcome
  {
    if |ts| > 0 && ts[0] == "assign-value" {
      AssignValueAgrees(ts[1..], g, env);
    }
  }

  /** On input without a `bulk-assign` token the two controllers leave the
      same grid, make the same grid calls in the same order, and end the
      same way. */
  lemma {:induction false} SessionsAgree<V>(ts: seq<string>, g: Grid<V>, env: Env<V>)
    requires "bulk-assign" !in ts
    ensures var a, b := Basic.Loop(ts, g, env), Better.Loop(ts, g, env);
      a.grid == b.grid && a.calls == b.calls && a.status == b.status
    decreases |ts|
  {
    StepAgrees(ts, g, env);
    var s := Basic.Step(ts, g, env);
    if s.outcome == Continue {
      assert s.rest == ts[|ts| - |s.rest|..];
      assert "bulk-assign" !in s.rest by {
        forall i | 0 <= i < |s.rest|
          ensures s.rest[i] != "bulk-assign"
        {
          assert s.rest[i] == ts[|ts| - |s.rest| + i];
        }
      }
      SessionsAgree(s.rest, s.grid, env);
    }
  }
}
