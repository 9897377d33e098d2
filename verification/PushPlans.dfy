/**
 Query plans with their plain list semantics, and the push pipeline as a chain
 of sinks that may ask the source to stop.  A sink chain is a value here;
 PushSinks runs it in place.
 */
module PushPlans {
  import opened Common
  import opened Values
  import opened GroupKeys

  // ---- plans ---------------------------------------------------------------------------------

  /** An accumulator; `Failed` stands for the error that ends the query. */
  datatype AggState =
    | Counted(n: nat) | DistinctSet(values: set<Value>) | Best(value: Option<Value>)
    | Summed(total: Option<i64>, count: nat) | Failed

  /** An aggregate function: where it starts, how it folds a row in, what it finally returns. */
  datatype Aggregate = Aggregate(start: AggState, fold: (AggState, Tuple) -> AggState, result: AggState -> Value)

  datatype Grouping = Grouping(cols: seq<nat>, types: seq<ColumnType>, aggs: seq<Aggregate>)

  datatype Plan =
    | Leaf(rows: seq<Tuple>)                                // a table scan, or an operator run to completion
    | Filter(keep: Tuple -> bool, input: Plan)
    | Projection(cols: seq<nat>, input: Plan)
    | Compute(evals: seq<Tuple -> Value>, input: Plan)
    | Limit(max: nat, input: Plan)
    | GroupBy(g: Grouping, input: Plan)

  /** Columns by position; plans with positions out of range are refused before they run. */
  function Pick(t: Tuple, cols: seq<nat>): (r: Tuple)
    ensures |r| == |cols|
  {
    seq(|cols|, i requires 0 <= i < |cols| => if cols[i] < |t| then t[cols[i]] else Null)
  }

  function Evaluate(t: Tuple, evals: seq<Tuple -> Value>): (r: Tuple)
    ensures |r| == |evals|
  {
    seq(|evals|, i requires 0 <= i < |evals| => evals[i](t))
  }

  // ---- list semantics --------------------------------------------------------------------------

  function Kept(rows: seq<Tuple>, keep: Tuple -> bool): seq<Tuple> {
    if rows == [] then []
    else if keep(rows[0]) then [rows[0]] + Kept(rows[1..], keep)
    else Kept(rows[1..], keep)
  }

  function Mapped(rows: seq<Tuple>, f: Tuple -> Tuple): seq<Tuple> {
    if rows == [] then [] else [f(rows[0])] + Mapped(rows[1..], f)
  }

  function Taken(rows: seq<Tuple>, n: nat): seq<Tuple> {
    if |rows| <= n then rows else rows[..n]
  }

  /** One aggregate over a list of rows. */
  function Folded(agg: Aggregate, rows: seq<Tuple>): AggState {
    if rows == [] then agg.start else agg.fold(Folded(agg, rows[..|rows| - 1]), rows[|rows| - 1])
  }

  function KeyOf(g: Grouping, t: Tuple): Tuple {
    Pick(t, g.cols)
  }

  function GroupOf(g: Grouping, rows: seq<Tuple>, key: Tuple): seq<Tuple> {
    Kept(rows, t => KeyOf(g, t) == key)
  }

  /** The output row of one group: its key, then each aggregate over exactly the group's rows. */
  function GroupRow(g: Grouping, rows: seq<Tuple>, key: Tuple): Tuple {
    key + seq(|g.aggs|, i requires 0 <= i < |g.aggs| => g.aggs[i].result(Folded(g.aggs[i], GroupOf(g, rows, key))))
  }

  ghost function Keys(g: Grouping, rows: seq<Tuple>): set<Tuple> {
    set t | t in rows :: KeyOf(g, t)
  }

  ghost predicate KeysTyped(g: Grouping, rows: seq<Tuple>) {
    forall t | t in rows :: Typed(KeyOf(g, t), g.types)
  }

  /** The keys in canonical order. */
  ghost function InOrder(keys: set<Tuple>): seq<Tuple> {
    if exists ks: seq<Tuple> :: Sorted(keys, ks) then var ks: seq<Tuple> :| Sorted(keys, ks); ks else []
  }

  /** One row per key, in key order. */
  ghost function Grouped(g: Grouping, rows: seq<Tuple>): seq<Tuple> {
    var ks := InOrder(Keys(g, rows));
    seq(|ks|, i requires 0 <= i < |ks| => GroupRow(g, rows, ks[i]))
  }

  /** The rows of a plan. */
  ghost function Rows(plan: Plan): seq<Tuple> {
    match plan
    case Leaf(rows) => rows
    case Filter(keep, input) => Kept(Rows(input), keep)
    case Projection(cols, input) => Mapped(Rows(input), t => Pick(t, cols))
    case Compute(evals, input) => Mapped(Rows(input), t => Evaluate(t, evals))
    case Limit(max, input) => Taken(Rows(input), max)
    case GroupBy(g, input) => Grouped(g, Rows(input))
  }

  // ---- sinks --------------------------------------------------------------------------------------

  datatype Flow = Continue | Stop

  type Groups = map<Tuple, seq<AggState>>

  datatype Sink =
    | Collector(rows: seq<Tuple>)
    | FilterSink(keep: Tuple -> bool, out: Sink)
    | ProjectionSink(cols: seq<nat>, out: Sink)
    | ComputeSink(evals: seq<Tuple -> Value>, out: Sink)
    | LimitSink(remaining: nat, out: Sink)
    | GroupSink(g: Grouping, groups: Groups, out: Sink)

  function Depth(s: Sink): nat {
    if s.Collector? then 0 else 1 + Depth(s.out)
  }

  function Starts(g: Grouping): (r: seq<AggState>)
    ensures |r| == |g.aggs|
  {
    seq(|g.aggs|, i requires 0 <= i < |g.aggs| => g.aggs[i].start)
  }

  function FoldIn(g: Grouping, states: seq<AggState>, t: Tuple): (r: seq<AggState>)
    ensures |r| == |g.aggs|
  {
    seq(|g.aggs|, i requires 0 <= i < |g.aggs| =>
      g.aggs[i].fold(if i < |states| then states[i] else g.aggs[i].start, t))
  }

  /** One row folded into its group, which is made if it is new. */
  function Added(g: Grouping, groups: Groups, t: Tuple): Groups {
    var key := KeyOf(g, t);
    groups[key := FoldIn(g, if key in groups then groups[key] else Starts(g), t)]
  }

  function AddedAll(g: Grouping, groups: Groups, rows: seq<Tuple>): Groups
    decreases |rows|
  {
    if rows == [] then groups else AddedAll(g, Added(g, groups, rows[0]), rows[1..])
  }

  function Finalize(g: Grouping, key: Tuple, states: seq<AggState>): Tuple {
    key + seq(|g.aggs|, i requires 0 <= i < |g.aggs| =>
      g.aggs[i].result(if i < |states| then states[i] else g.aggs[i].start))
  }

  ghost function Emitted(g: Grouping, groups: Groups): seq<Tuple> {
    EmittedFor(g, groups, InOrder(groups.Keys))
  }

  function EmittedFor(g: Grouping, groups: Groups, ks: seq<Tuple>): seq<Tuple> {
    seq(|ks|, i requires 0 <= i < |ks| => Finalize(g, ks[i], if ks[i] in groups then groups[ks[i]] else []))
  }

  /** `Sink::push`. */
  function Push(s: Sink, t: Tuple): (r: (Sink, Flow))
    ensures Depth(r.0) == Depth(s)
  {
    match s
    case Collector(rows) => (Collector(rows + [t]), Continue)
    case FilterSink(keep, out) =>
      if keep(t) then var (o, flow) := Push(out, t); (FilterSink(keep, o), flow) else (s, Continue)
    case ProjectionSink(cols, out) =>
      var (o, flow) := Push(out, Pick(t, cols)); (ProjectionSink(cols, o), flow)
    case ComputeSink(evals, out) =>
      var (o, flow) := Push(out, Evaluate(t, evals)); (ComputeSink(evals, o), flow)
    case LimitSink(remaining, out) =>
      if remaining == 0 then (s, Stop)
      else
        var (o, flow) := Push(out, t);
        (LimitSink(remaining - 1, o), if remaining == 1 then Stop else flow)
    case GroupSink(g, groups, out) => (GroupSink(g, Added(g, groups, t), out), Continue)
  }

  /** Rows pushed one by one until the sink says stop. */
  function PushAll(s: Sink, rows: seq<Tuple>): (r: Sink)
    ensures Depth(r) == Depth(s)
    decreases |rows|
  {
    if rows == [] then s
    else
      var (s', flow) := Push(s, rows[0]);
      if flow.Stop? then s' else PushAll(s', rows[1..])
  }

  /** `Sink::finish`: a grouping sink emits its groups before it passes the signal on. */
  ghost function Finish(s: Sink): (r: Sink)
    ensures Depth(r) == Depth(s)
    decreases Depth(s)
  {
    match s
    case Collector(_) => s
    case FilterSink(keep, out) => FilterSink(keep, Finish(out))
    case ProjectionSink(cols, out) => ProjectionSink(cols, Finish(out))
    case ComputeSink(evals, out) => ComputeSink(evals, Finish(out))
    case LimitSink(remaining, out) => LimitSink(remaining, Finish(out))
    case GroupSink(g, groups, out) => GroupSink(g, map[], Finish(PushAll(out, Emitted(g, groups))))
  }

  /** What the collector at the end of the chain holds. */
  function Output(s: Sink): seq<Tuple> {
    if s.Collector? then s.rows else Output(s.out)
  }

  /** `build_push`: the source rows and the sink chain above them. */
  function Build(plan: Plan, out: Sink): (seq<Tuple>, Sink) {
    match plan
    case Leaf(rows) => (rows, out)
    case Filter(keep, input) => Build(input, FilterSink(keep, out))
    case Projection(cols, input) => Build(input, ProjectionSink(cols, out))
    case Compute(evals, input) => Build(input, ComputeSink(evals, out))
    case Limit(max, input) => Build(input, LimitSink(max, out))
    case GroupBy(g, input) => Build(input, GroupSink(g, map[], out))
  }

  /** `Push::execute`. */
  ghost function Execute(plan: Plan): seq<Tuple> {
    var (rows, sink) := Build(plan, Collector([]));
    Output(Finish(PushAll(sink, rows)))
  }

  // ---- what a chain makes of the rows it is still to get ----------------------------------------------

  /** The final output if the sink now gets all of `rows` and then the end-of-input signal, with no early stop. */
  ghost function Meaning(s: Sink, rows: seq<Tuple>): seq<Tuple>
    decreases s
  {
    match s
    case Collector(acc) => acc + rows
    case FilterSink(keep, out) => Meaning(out, Kept(rows, keep))
    case ProjectionSink(cols, out) => Meaning(out, Mapped(rows, t => Pick(t, cols)))
    case ComputeSink(evals, out) => Meaning(out, Mapped(rows, t => Evaluate(t, evals)))
    case LimitSink(remaining, out) => Meaning(out, Taken(rows, remaining))
    case GroupSink(g, groups, out) => Meaning(out, Emitted(g, AddedAll(g, groups, rows)))
  }

  /** A row pushed now counts as the first of the rows still to come. */
  lemma {:induction false} PushMeaning(s: Sink, t: Tuple, rest: seq<Tuple>)
    ensures Meaning(s, [t] + rest) == Meaning(Push(s, t).0, rest)
    decreases s
  {
    hide Pick, Evaluate, Added, Emitted;
    var rows := [t] + rest;
    assert rows[1..] == rest;
    match s {
      case Collector(acc) => assert acc + [t] + rest == acc + rows;
      case FilterSink(keep, out) => if keep(t) { PushMeaning(out, t, Kept(rest, keep)); }
      case ProjectionSink(cols, out) => PushMeaning(out, Pick(t, cols), Mapped(rest, x => Pick(x, cols)));
      case ComputeSink(evals, out) => PushMeaning(out, Evaluate(t, evals), Mapped(rest, x => Evaluate(x, evals)));
      case LimitSink(remaining, out) =>
        if remaining > 0 {
          PushMeaning(out, t, Taken(rest, remaining - 1));
          assert Taken(rows, remaining) == [t] + Taken(rest, remaining - 1);
        } else {
          assert Taken(rows, 0) == [] == Taken(rest, 0);
        }
      case GroupSink(_, _, _) =>
    }
  }

  /** Once a sink has said stop, nothing it could still be given would change the output. */
  lemma {:induction false} StopIsFinal(s: Sink, t: Tuple, rest: seq<Tuple>)
    requires Push(s, t).1 == Stop
    ensures Meaning(Push(s, t).0, rest) == Meaning(Push(s, t).0, [])
    decreases s
  {
    hide Pick, Evaluate, Added, Emitted;
    match s {
      case Collector(_) =>
      case FilterSink(keep, out) => StopIsFinal(out, t, Kept(rest, keep));
      case ProjectionSink(cols, out) => StopIsFinal(out, Pick(t, cols), Mapped(rest, x => Pick(x, cols)));
      case ComputeSink(evals, out) => StopIsFinal(out, Evaluate(t, evals), Mapped(rest, x => Evaluate(x, evals)));
      case LimitSink(remaining, out) =>
        if remaining > 1 {
          StopIsFinal(out, t, Taken(rest, remaining - 1));
          assert Taken([], remaining - 1) == [];
        } else {
          assert Taken(rest, 0) == [] == Taken([], 0);
        }
      case GroupSink(_, _, _) =>
    }
  }

  /** Stopping early loses nothing. */
  lemma {:induction false} PushAllMeaning(s: Sink, rows: seq<Tuple>)
    ensures Meaning(PushAll(s, rows), []) == Meaning(s, rows)
    decreases |rows|
  {
    hide Push, Meaning;
    if rows != [] {
      var (s', flow) := Push(s, rows[0]);
      assert rows == [rows[0]] + rows[1..];
      PushMeaning(s, rows[0], rows[1..]);
      if flow.Stop? {
        StopIsFinal(s, rows[0], rows[1..]);
      } else {
        PushAllMeaning(s', rows[1..]);
      }
    }
  }

  /** Finishing delivers what the chain owes. */
  lemma {:induction false} FinishMeaning(s: Sink)
    ensures Output(Finish(s)) == Meaning(s, [])
    decreases Depth(s)
  {
    hide Push, PushAll, Emitted, Pick, Evaluate;
    match s {
      case Collector(acc) => assert acc + [] == acc;
      case FilterSink(_, out) => FinishMeaning(out);
      case ProjectionSink(_, out) => FinishMeaning(out);
      case ComputeSink(_, out) => FinishMeaning(out);
      case LimitSink(remaining, out) => FinishMeaning(out);
      case GroupSink(g, groups, out) =>
        PushAllMeaning(out, Emitted(g, groups));
        FinishMeaning(PushAll(out, Emitted(g, groups)));
    }
  }

  // ---- grouping ---------------------------------------------------------------------------------------

  lemma {:induction false} KeptAppend(rows: seq<Tuple>, t: Tuple, keep: Tuple -> bool)
    ensures Kept(rows + [t], keep) == Kept(rows, keep) + if keep(t) then [t] else []
  {
    if rows == [] {
      assert rows + [t] == [t] && [t][1..] == [];
    } else {
      KeptAppend(rows[1..], t, keep);
      assert (rows + [t])[1..] == rows[1..] + [t];
    }
  }

  lemma {:induction false} AddedAppend(g: Grouping, groups: Groups, rows: seq<Tuple>, t: Tuple)
    ensures AddedAll(g, groups, rows + [t]) == Added(g, AddedAll(g, groups, rows), t)
    decreases |rows|
  {
    hide Added;
    if rows == [] {
      assert rows + [t] == [t] && [t][1..] == [];
    } else {
      AddedAppend(g, Added(g, groups, rows[0]), rows[1..], t);
      assert (rows + [t])[1..] == rows[1..] + [t];
    }
  }

  /** The state the hash table keeps for a group is each aggregate folded over exactly the group's rows. */
  ghost predicate StatesFor(g: Grouping, rows: seq<Tuple>, groups: Groups) {
    && groups.Keys == Keys(g, rows)
    && forall key | key in groups ::
         |groups[key]| == |g.aggs| &&
         forall i | 0 <= i < |g.aggs| :: groups[key][i] == Folded(g.aggs[i], GroupOf(g, rows, key))
  }

  lemma GroupOfNext(g: Grouping, rows: seq<Tuple>, t: Tuple, key: Tuple)
    ensures GroupOf(g, rows + [t], key) == GroupOf(g, rows, key) + if KeyOf(g, t) == key then [t] else []
  {
    KeptAppend(rows, t, x => KeyOf(g, x) == key);
  }

  lemma FoldedNext(agg: Aggregate, rows: seq<Tuple>, t: Tuple)
    ensures Folded(agg, rows + [t]) == agg.fold(Folded(agg, rows), t)
  {
    assert (rows + [t])[..|rows|] == rows;
  }

  /** A key that has not occurred has no rows. */
  lemma {:induction false} NewGroup(g: Grouping, rows: seq<Tuple>, key: Tuple)
    requires key !in Keys(g, rows)
    ensures GroupOf(g, rows, key) == []
  {
    if rows != [] {
      assert rows[0] in rows;
      assert forall t | t in rows[1..] :: t in rows;
      NewGroup(g, rows[1..], key);
      GroupOfCons(g, rows, key);
    }
  }

  lemma GroupOfCons(g: Grouping, rows: seq<Tuple>, key: Tuple)
    requires rows != []
    ensures GroupOf(g, rows, key) == (if KeyOf(g, rows[0]) == key then [rows[0]] else []) + GroupOf(g, rows[1..], key)
  {
    var keep := (t: Tuple) => KeyOf(g, t) == key;
    assert Kept(rows, keep) == (if keep(rows[0]) then [rows[0]] else []) + Kept(rows[1..], keep);
  }

  lemma AddedStates(g: Grouping, rows: seq<Tuple>, groups: Groups, t: Tuple)
    requires StatesFor(g, rows, groups)
    ensures StatesFor(g, rows + [t], Added(g, groups, t))
  {
    hide KeyOf, GroupOf, Folded;
    var after, k := Added(g, groups, t), KeyOf(g, t);
    assert after.Keys == Keys(g, rows + [t]) by {
      assert forall x :: x in rows + [t] <==> x in rows || x == t;
    }
    if k !in groups { NewGroup(g, rows, k); }
    forall key | key in after
      ensures |after[key]| == |g.aggs|
      ensures forall i | 0 <= i < |g.aggs| :: after[key][i] == Folded(g.aggs[i], GroupOf(g, rows + [t], key))
    {
      GroupOfNext(g, rows, t, key);
      if key == k {
        forall i | 0 <= i < |g.aggs| ensures after[key][i] == Folded(g.aggs[i], GroupOf(g, rows + [t], key)) {
          FoldedNext(g.aggs[i], GroupOf(g, rows, key), t);
          FoldedNone(g.aggs[i]);
        }
      } else {
        assert GroupOf(g, rows, key) + [] == GroupOf(g, rows, key);
      }
    }
  }

  lemma FoldedNone(agg: Aggregate)
    ensures Folded(agg, []) == agg.start
  {
  }

  lemma {:induction false} AllStates(g: Grouping, rows: seq<Tuple>)
    ensures StatesFor(g, rows, AddedAll(g, map[], rows))
  {
    hide Added, GroupOf, Folded, KeyOf;
    if rows != [] {
      var front, t := rows[..|rows| - 1], rows[|rows| - 1];
      assert rows == front + [t];
      AllStates(g, front);
      AddedAppend(g, map[], front, t);
      AddedStates(g, front, AddedAll(g, map[], front), t);
    }
  }

  /** Accumulating in a hash table and sorting the groups at the end gives the grouped rows. */
  lemma GroupingExact(g: Grouping, rows: seq<Tuple>)
    ensures Emitted(g, AddedAll(g, map[], rows)) == Grouped(g, rows)
  {
    hide AddedAll, GroupOf, Folded, KeyOf;
    AllStates(g, rows);
    var groups := AddedAll(g, map[], rows);
    var ks := InOrder(groups.Keys);
    forall i | 0 <= i < |ks| ensures Emitted(g, groups)[i] == GroupRow(g, rows, ks[i]) {
      KeyInOrder(groups.Keys, i);
      var states := groups[ks[i]];
      assert Finalize(g, ks[i], states) == GroupRow(g, rows, ks[i]);
    }
  }

  lemma KeyInOrder(keys: set<Tuple>, i: nat)
    requires i < |InOrder(keys)|
    ensures InOrder(keys)[i] in keys
  {
    var ks := InOrder(keys);
    assert ks[i] in ks;
  }

  // ---- main results ---------------------------------------------------------------------------------------

  /** Building threads the sinks so that the chain's meaning is the plan's. */
  lemma {:induction false} BuildMeaning(plan: Plan, out: Sink)
    ensures var (rows, sink) := Build(plan, out); Meaning(sink, rows) == Meaning(out, Rows(plan))
    decreases plan
  {
    hide Emitted, Grouped, AddedAll, Pick, Evaluate;
    match plan {
      case Leaf(_) =>
      case Filter(keep, input) => BuildMeaning(input, FilterSink(keep, out));
      case Projection(cols, input) => BuildMeaning(input, ProjectionSink(cols, out));
      case Compute(evals, input) => BuildMeaning(input, ComputeSink(evals, out));
      case Limit(max, input) => BuildMeaning(input, LimitSink(max, out));
      case GroupBy(g, input) =>
        BuildMeaning(input, GroupSink(g, map[], out));
        GroupingExact(g, Rows(input));
    }
  }

  /** The push pipeline, with its early stops, yields exactly the rows of the plan. */
  lemma ExecuteExact(plan: Plan)
    ensures Execute(plan) == Rows(plan)
  {
    hide Meaning, Rows, Build, PushAll, Finish;
    var (rows, sink) := Build(plan, Collector([]));
    BuildMeaning(plan, Collector([]));
    PushAllMeaning(sink, rows);
    FinishMeaning(PushAll(sink, rows));
    CollectorMeaning(Rows(plan));
  }

  lemma CollectorMeaning(rows: seq<Tuple>)
    ensures Meaning(Collector([]), rows) == rows
  {
    assert [] + rows == rows;
  }

  // ---- key types -------------------------------------------------------------------------------------------

  /** Every grouping in the plan sees keys of its declared types. */
  ghost predicate WellTyped(plan: Plan) {
    match plan
    case Leaf(_) => true
    case Filter(_, input) => WellTyped(input)
    case Projection(_, input) => WellTyped(input)
    case Compute(_, input) => WellTyped(input)
    case Limit(_, input) => WellTyped(input)
    case GroupBy(g, input) => WellTyped(input) && KeysTyped(g, Rows(input))
  }

  /** If the sink now gets all of `rows` and then the end-of-input signal, every grouping in the chain ends up
      with keys of its declared types. */
  ghost predicate Orderly(s: Sink, rows: seq<Tuple>)
    decreases s
  {
    match s
    case Collector(_) => true
    case FilterSink(keep, out) => Orderly(out, Kept(rows, keep))
    case ProjectionSink(cols, out) => Orderly(out, Mapped(rows, t => Pick(t, cols)))
    case ComputeSink(evals, out) => Orderly(out, Mapped(rows, t => Evaluate(t, evals)))
    case LimitSink(remaining, out) => Orderly(out, Taken(rows, remaining))
    case GroupSink(g, groups, out) =>
      var all := AddedAll(g, groups, rows);
      AllTyped(all.Keys, g.types) && Orderly(out, Emitted(g, all))
  }

  lemma {:induction false} PushOrderly(s: Sink, t: Tuple, rest: seq<Tuple>)
    ensures Orderly(s, [t] + rest) == Orderly(Push(s, t).0, rest)
    decreases s
  {
    hide Pick, Evaluate, Added, Emitted;
    var rows := [t] + rest;
    assert rows[1..] == rest;
    match s {
      case Collector(_) =>
      case FilterSink(keep, out) => if keep(t) { PushOrderly(out, t, Kept(rest, keep)); }
      case ProjectionSink(cols, out) => PushOrderly(out, Pick(t, cols), Mapped(rest, x => Pick(x, cols)));
      case ComputeSink(evals, out) => PushOrderly(out, Evaluate(t, evals), Mapped(rest, x => Evaluate(x, evals)));
      case LimitSink(remaining, out) =>
        if remaining > 0 {
          PushOrderly(out, t, Taken(rest, remaining - 1));
          assert Taken(rows, remaining) == [t] + Taken(rest, remaining - 1);
        } else {
          assert Taken(rows, 0) == [] == Taken(rest, 0);
        }
      case GroupSink(_, _, _) =>
    }
  }

  lemma {:induction false} StopOrderly(s: Sink, t: Tuple, rest: seq<Tuple>)
    requires Push(s, t).1 == Stop
    ensures Orderly(Push(s, t).0, rest) == Orderly(Push(s, t).0, [])
    decreases s
  {
    hide Pick, Evaluate, Added, Emitted;
    match s {
      case Collector(_) =>
      case FilterSink(keep, out) => StopOrderly(out, t, Kept(rest, keep));
      case ProjectionSink(cols, out) => StopOrderly(out, Pick(t, cols), Mapped(rest, x => Pick(x, cols)));
      case ComputeSink(evals, out) => StopOrderly(out, Evaluate(t, evals), Mapped(rest, x => Evaluate(x, evals)));
      case LimitSink(remaining, out) =>
        if remaining > 1 {
          StopOrderly(out, t, Taken(rest, remaining - 1));
          assert Taken([], remaining - 1) == [];
        } else {
          assert Taken(rest, 0) == [] == Taken([], 0);
        }
      case GroupSink(_, _, _) =>
    }
  }

  lemma {:induction false} PushAllOrderly(s: Sink, rows: seq<Tuple>)
    ensures Orderly(PushAll(s, rows), []) == Orderly(s, rows)
    decreases |rows|
  {
    hide Push, Orderly;
    if rows != [] {
      var (s', flow) := Push(s, rows[0]);
      assert rows == [rows[0]] + rows[1..];
      PushOrderly(s, rows[0], rows[1..]);
      if flow.Stop? {
        StopOrderly(s, rows[0], rows[1..]);
      } else {
        PushAllOrderly(s', rows[1..]);
      }
    }
  }

  lemma {:induction false} BuildOrderly(plan: Plan, out: Sink)
    requires WellTyped(plan) && Orderly(out, Rows(plan))
    ensures var (rows, sink) := Build(plan, out); Orderly(sink, rows)
    decreases plan
  {
    hide Emitted, Grouped, AddedAll, Pick, Evaluate, KeyOf, Typed;
    match plan {
      case Leaf(_) =>
      case Filter(keep, input) => BuildOrderly(input, FilterSink(keep, out));
      case Projection(cols, input) => BuildOrderly(input, ProjectionSink(cols, out));
      case Compute(evals, input) => BuildOrderly(input, ComputeSink(evals, out));
      case Limit(max, input) => BuildOrderly(input, LimitSink(max, out));
      case GroupBy(g, input) =>
        GroupingExact(g, Rows(input));
        AllStates(g, Rows(input));
        BuildOrderly(input, GroupSink(g, map[], out));
    }
  }

  /** Grouped rows come out in the order of their keys, one for every key that occurs. */
  lemma GroupsInOrder(g: Grouping, rows: seq<Tuple>)
    requires KeysTyped(g, rows)
    ensures Sorted(Keys(g, rows), InOrder(Keys(g, rows)))
    ensures |Grouped(g, rows)| == |InOrder(Keys(g, rows))|
  {
    hide Typed, KeyBelow, KeyOf, GroupRow;
    var ks := SortedExists(Keys(g, rows), g.types);
  }

  /** Typed keys have one order, which sorting finds. */
  lemma OrderFound(keys: set<Tuple>, tys: seq<ColumnType>, ks: seq<Tuple>)
    requires AllTyped(keys, tys) && Sorted(keys, ks)
    ensures ks == InOrder(keys)
  {
    hide Typed, KeyBelow;
    SortedUnique(keys, tys, ks, InOrder(keys));
  }
}
