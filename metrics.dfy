/**
 * Per-workspace operation metrics (`metrics.py`): for each workspace with
 * recorded activity, and for each of the four tool operations, how many
 * calls there were, how long each took, and how many failed.
 */
module Metrics {
  import opened Wrappers
  import opened Sequences
  import opened PosixPath

  datatype Operation = Hover | Definition | Completion | References

  function OperationName(op: Operation): string {
    match op
    case Hover => "hover"
    case Definition => "definition"
    case Completion => "completion"
    case References => "references"
  }

  /** The operation names `record` accepts; any other raises ValueError. */
  function ParseOperation(s: string): (r: Option<Operation>)
    ensures r.Some? ==> OperationName(r.value) == s
    ensures r.None? ==> forall op: Operation :: OperationName(op) != s
  {
    if s == "hover" then Some(Hover)
    else if s == "definition" then Some(Definition)
    else if s == "completion" then Some(Completion)
    else if s == "references" then Some(References)
    else None
  }

  /** Each operation name is accepted as that operation. */
  lemma ParseOperationName(op: Operation)
    ensures ParseOperation(OperationName(op)) == Some(op)
  {
  }

  /** One operation's `*_count`, `*_times` (milliseconds) and `*_errors`. */
  datatype OpStats = OpStats(count: int, times: seq<real>, errors: int)

  const NoCalls := OpStats(0, [], 0)

  /** The bookkeeping invariant: one duration per call, and no more failures than calls. */
  predicate Consistent(s: OpStats) {
    s.count == |s.times| && 0 <= s.errors <= s.count
  }

  /** `WorkspaceMetrics`. */
  datatype WorkspaceMetrics = WorkspaceMetrics(workspace: Path, hover: OpStats, definition: OpStats,
                                               completion: OpStats, references: OpStats)
  {
    function Stats(op: Operation): OpStats {
      match op
      case Hover => hover
      case Definition => definition
      case Completion => completion
      case References => references
    }

    /** The counters of the given operation replaced, the others kept. */
    function WithStats(op: Operation, s: OpStats): (w: WorkspaceMetrics)
      ensures w.workspace == workspace && w.Stats(op) == s
      ensures forall other :: other != op ==> w.Stats(other) == Stats(other)
    {
      match op
      case Hover => this.(hover := s)
      case Definition => this.(definition := s)
      case Completion => this.(completion := s)
      case References => this.(references := s)
    }

    predicate Valid() {
      Consistent(hover) && Consistent(definition) && Consistent(completion) && Consistent(references)
    }
  }

  /** A new entry: every count, list and error count empty. */
  function Fresh(root: Path): (w: WorkspaceMetrics)
    ensures w.workspace == root && w.Valid()
    ensures forall op :: w.Stats(op) == NoCalls
  {
    WorkspaceMetrics(root, NoCalls, NoCalls, NoCalls, NoCalls)
  }

  /** The counters of one operation after a call that took `durationMs` and succeeded or not. */
  function Count(s: OpStats, durationMs: real, success: bool): OpStats {
    OpStats(s.count + 1, s.times + [durationMs], if success then s.errors else s.errors + 1)
  }

  /** Recording a call to `op` on an entry. */
  function Recorded(w: WorkspaceMetrics, op: Operation, durationMs: real, success: bool): WorkspaceMetrics {
    w.WithStats(op, Count(w.Stats(op), durationMs, success))
  }

  /**
   * One recorded call adds one to that operation's count, appends its
   * duration, adds one failure exactly when it failed, and leaves the
   * workspace and the other operations alone; it keeps the invariant.
   */
  lemma RecordedEffect(w: WorkspaceMetrics, op: Operation, durationMs: real, success: bool)
    ensures var r := Recorded(w, op, durationMs, success);
      && r.workspace == w.workspace
      && r.Stats(op).count == w.Stats(op).count + 1
      && r.Stats(op).times == w.Stats(op).times + [durationMs]
      && (r.Stats(op).errors == w.Stats(op).errors + 1 <==> !success)
      && (success ==> r.Stats(op).errors == w.Stats(op).errors)
      && (forall other :: other != op ==> r.Stats(other) == w.Stats(other))
      && (w.Valid() ==> r.Valid())
  {
    var r := Recorded(w, op, durationMs, success);
    if w.Valid() {
      assert Consistent(w.Stats(op));
      assert Consistent(r.Stats(op));
      forall other ensures Consistent(r.Stats(other)) {
        assert Consistent(w.Stats(other));
      }
      assert Consistent(r.Stats(Hover)) && Consistent(r.Stats(Definition));
      assert Consistent(r.Stats(Completion)) && Consistent(r.Stats(References));
    }
  }

  /** The sum of a list of durations. */
  function Sum(xs: seq<real>): real
    decreases |xs|
  {
    if xs == [] then 0.0 else Sum(xs[..|xs| - 1]) + xs[|xs| - 1]
  }

  /** `avg_*_ms`: the mean duration, or 0 with no calls. */
  function Average(xs: seq<real>): (a: real)
    ensures xs == [] ==> a == 0.0
    ensures xs != [] ==> a * |xs| as real == Sum(xs)
  {
    if xs == [] then 0.0 else Sum(xs) / |xs| as real
  }

  /** Durations all within [lo, hi] sum to between |xs|·lo and |xs|·hi. */
  lemma {:induction false} SumBounds(xs: seq<real>, lo: real, hi: real)
    requires forall i :: 0 <= i < |xs| ==> lo <= xs[i] <= hi
    ensures |xs| as real * lo <= Sum(xs) <= |xs| as real * hi
    decreases |xs|
  {
    if xs != [] {
      SumBounds(xs[..|xs| - 1], lo, hi);
    }
  }

  /** The mean of durations within [lo, hi] is within [lo, hi]. */
  lemma AverageBounds(xs: seq<real>, lo: real, hi: real)
    requires xs != []
    requires forall i :: 0 <= i < |xs| ==> lo <= xs[i] <= hi
    ensures lo <= Average(xs) <= hi
  {
    SumBounds(xs, lo, hi);
    var n, a := |xs| as real, Average(xs);
    assert n > 0.0 && a * n == Sum(xs);
    assert (a - lo) * n >= 0.0 && (hi - a) * n >= 0.0;
  }

  /** `MetricsCollector`: the entries by workspace, kept in the order they were first recorded. */
  class MetricsCollector {
    var metrics: map<Path, WorkspaceMetrics>
    /** The workspaces in first-recorded order (the dict's iteration order). */
    var order: seq<Path>

    ghost predicate Valid()
      reads this
    {
      && metrics.Keys == (set p | p in order)
      && Distinct(order)
      && (forall p | p in metrics :: metrics[p].workspace == p && metrics[p].Valid())
    }

    constructor ()
      ensures Valid() && metrics == map[] && order == []
    {
      metrics := map[];
      order := [];
    }

    /**
     * `record`: an unknown operation name raises ValueError and changes
     * nothing; otherwise the workspace gets a fresh entry on its first call
     * and the named operation's counters take the call.
     */
    method Record(root: Path, operation: string, durationMs: real, success: bool) returns (err: Option<string>)
      requires Valid()
      modifies this
      ensures Valid()
      ensures ParseOperation(operation).None? ==>
        err == Some("Invalid operation: " + operation) && metrics == old(metrics) && order == old(order)
      ensures ParseOperation(operation).Some? ==>
        && err.None?
        && var before := if root in old(metrics) then old(metrics)[root] else Fresh(root);
        && metrics == old(metrics)[root := Recorded(before, ParseOperation(operation).value, durationMs, success)]
        && order == if root in old(metrics) then old(order) else old(order) + [root]
    {
      var op := ParseOperation(operation);
      if op.None? {
        return Some("Invalid operation: " + operation);
      }
      if root !in metrics {
        assert root !in order;
        AppendBack(order, root);
        metrics := metrics[root := Fresh(root)];
        order := order + [root];
      }
      var entry := metrics[root];
      RecordedEffect(entry, op.value, durationMs, success);
      metrics := metrics[root := Recorded(entry, op.value, durationMs, success)];
      err := None;
    }

    /** `get_workspace_metrics`: the entry of a workspace, or `None` if it never recorded a call. */
    function WorkspaceMetricsOf(root: Path): (r: Option<WorkspaceMetrics>)
      requires Valid()
      reads this
      ensures r.Some? <==> root in order
      ensures r.Some? ==> r.value == metrics[root] && r.value.workspace == root && r.value.Valid()
    {
      if root in metrics then Some(metrics[root]) else None
    }

    /** `get_all_metrics`: one entry per recorded workspace, in first-recorded order. */
    function AllMetrics(): (ms: seq<WorkspaceMetrics>)
      requires Valid()
      reads this
      ensures |ms| == |metrics| == |order|
      ensures forall i :: 0 <= i < |ms| ==> ms[i] == metrics[order[i]] && ms[i].workspace == order[i] && ms[i].Valid()
    {
      DistinctCard(order);
      seq(|order|, i requires 0 <= i < |order| && Valid() reads this => metrics[order[i]])
    }
  }
}
