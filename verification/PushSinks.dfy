/**
 The push pipeline in place: sinks are objects that own the next one, keep
 their own state and update it as rows arrive.
 */
module PushSinks {
  import opened Values
  import opened GroupKeys
  import opened PushPlans

  datatype Kind =
    | Collecting
    | Filtering(keep: Tuple -> bool)
    | Projecting(cols: seq<nat>)
    | Computing(evals: seq<Tuple -> Value>)
    | Limiting
    | Grouping_(g: Grouping)

  class SinkNode {
    const kind: Kind
    const out: SinkNode?
    ghost const chain: set<SinkNode>   // this sink and all sinks after it
    var rows: seq<Tuple>               // collected so far
    var remaining: nat                 // of a limit
    var groups: Groups                 // of a grouping

    ghost predicate Valid()
      decreases chain
    {
      && this in chain && (kind.Collecting? <==> out == null) && (out == null ==> chain == {this})
      && (out != null ==> out in chain && this !in out.chain && out.chain == chain - {this} && out.Valid())
    }

    /** The chain from here on, as a value. */
    ghost function Value(): Sink
      requires Valid()
      reads chain
      decreases chain
    {
      match kind
      case Collecting => Collector(rows)
      case Filtering(keep) => FilterSink(keep, out.Value())
      case Projecting(cols) => ProjectionSink(cols, out.Value())
      case Computing(evals) => ComputeSink(evals, out.Value())
      case Limiting => LimitSink(remaining, out.Value())
      case Grouping_(g) => GroupSink(g, groups, out.Value())
    }

    constructor Collect()
      ensures Valid() && fresh(chain) && kind == Collecting && Value() == Collector([])
    {
      kind, out, rows, remaining, groups := Collecting, null, [], 0, map[];
      chain := {this};
    }

    constructor Before(kind: Kind, limit: nat, next: SinkNode)
      requires next.Valid() && !kind.Collecting?
      ensures Valid() && out == next && this.kind == kind && chain == {this} + next.chain && fresh(this)
      ensures remaining == limit && groups == map[]
    {
      this.kind, out, rows, remaining, groups := kind, next, [], limit, map[];
      chain := {this} + next.chain;
    }

    /** `push`. */
    method Push(t: Tuple) returns (flow: Flow)
      requires Valid()
      modifies chain
      ensures (Value(), flow) == PushPlans.Push(old(Value()), t)
      decreases chain
    {
      match kind
      case Collecting =>
        rows := rows + [t];
        flow := Continue;
      case Filtering(keep) =>
        if keep(t) {
          flow := out.Push(t);
        } else {
          flow := Continue;
        }
      case Projecting(cols) =>
        flow := out.Push(Pick(t, cols));
      case Computing(evals) =>
        flow := out.Push(Evaluate(t, evals));
      case Limiting =>
        if remaining == 0 {
          return Stop;
        }
        var downstream := out.Push(t);
        remaining := remaining - 1;
        flow := if remaining == 0 then Stop else downstream;
      case Grouping_(g) =>
        var key := KeyOf(g, t);
        var states := if key in groups then groups[key] else Starts(g);
        groups := groups[key := FoldIn(g, states, t)];
        flow := Continue;
    }

    /** The loop of a source, and of a grouping sink emitting its groups: push until told to stop. */
    method Feed(ts: seq<Tuple>)
      requires Valid()
      modifies chain
      ensures Value() == PushAll(old(Value()), ts)
      decreases chain, 1
    {
      var i := 0;
      assert ts[0..] == ts;
      while i < |ts|
        invariant 0 <= i <= |ts|
        invariant PushAll(Value(), ts[i..]) == PushAll(old(Value()), ts)
      {
        var flow := Push(ts[i]);
        assert ts[i..][1..] == ts[i + 1..];
        i := i + 1;
        if flow.Stop? {
          return;
        }
      }
    }

    /** `finish`. */
    method Finish()
      requires Valid() && Orderly(Value(), [])
      modifies chain
      ensures Value() == PushPlans.Finish(old(Value()))
      decreases chain
    {
      match kind
      case Collecting =>
      case Filtering(_) =>
        out.Finish();
      case Projecting(_) =>
        out.Finish();
      case Computing(_) =>
        out.Finish();
      case Limiting =>
        out.Finish();
      case Grouping_(g) =>
        var ks := SortKeys(groups.Keys, g.types);
        OrderFound(groups.Keys, g.types, ks);
        var emitted := EmittedFor(g, groups, ks);
        groups := map[];
        PushAllOrderly(out.Value(), emitted);
        out.Feed(emitted);
        out.Finish();
    }
  }

  /** The sink an operator becomes. */
  function KindOf(plan: Plan): (kind: Kind)
    requires !plan.Leaf?
    ensures !kind.Collecting?
  {
    match plan
    case Filter(keep, _) => Filtering(keep)
    case Projection(cols, _) => Projecting(cols)
    case Compute(evals, _) => Computing(evals)
    case Limit(_, _) => Limiting
    case GroupBy(g, _) => Grouping_(g)
  }

  /** `build_push`. */
  method Build(plan: Plan, sink: SinkNode) returns (rows: seq<Tuple>, head: SinkNode)
    requires sink.Valid()
    ensures head.Valid() && sink.chain <= head.chain && fresh(head.chain - sink.chain)
    ensures (rows, head.Value()) == PushPlans.Build(plan, old(sink.Value()))
    decreases plan
  {
    if plan.Leaf? {
      return plan.rows, sink;
    }
    var next := new SinkNode.Before(KindOf(plan), if plan.Limit? then plan.max else 0, sink);
    rows, head := Build(plan.input, next);
  }

  /** `Push::execute` returns exactly the rows of the plan. */
  method Execute(plan: Plan) returns (out: seq<Tuple>)
    requires WellTyped(plan)
    ensures out == Rows(plan)
  {
    var collector := new SinkNode.Collect();
    var rows, head := Build(plan, collector);
    BuildOrderly(plan, Collector([]));
    PushAllOrderly(head.Value(), rows);
    head.Feed(rows);
    head.Finish();
    ExecuteExact(plan);
    CollectorLast(head, collector);
    out := collector.rows;
  }

  /** The collector ends the chain. */
  lemma {:induction false} CollectorLast(head: SinkNode, collector: SinkNode)
    requires head.Valid() && collector in head.chain && collector.kind == Collecting && collector.Valid()
    ensures Output(head.Value()) == collector.rows
    decreases head.chain
  {
    if head.out != null {
      CollectorLast(head.out, collector);
    }
  }
}
