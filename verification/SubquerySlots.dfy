/**
 Statement-wide subquery slots.  A SELECT numbers its IN/EXISTS subqueries and
 its correlated subqueries from 0; derived tables are SELECTs of their own.
 Resolution runs the inner queries, bakes scalar results into each SELECT, and
 collects the sets and evaluators of the whole statement into one list each.
 */
module SubquerySlots {
  import opened Common
  import opened Values
  import opened JoinKeys

  /** A correlated subquery, to be run once per outer row. */
  type Template = nat

  /** One SELECT.  An inner query is given by its outcome; None is an inner query that fails. */
  datatype Select = Select(
    scalars: seq<Option<Value>>,
    ins: seq<Option<InSet>>,
    correlated: seq<Template>,
    derived: seq<Select>)

  /** A SELECT with its scalar subqueries replaced by literals. */
  datatype Resolved = Resolved(literals: seq<Value>, derived: seq<Resolved>)

  datatype Error = InnerFailed | TwoInSources | TwoCorrelatedSources

  datatype Resolution = Resolution(plan: Resolved, sets: seq<InSet>, evaluators: seq<Template>)

  // ---- the tree ----------------------------------------------------------------------------

  /** `n` is `s` or one of its derived tables, at any depth. */
  ghost predicate InTree(n: Select, s: Select) {
    n == s || exists i :: 0 <= i < |s.derived| && InTree(n, s.derived[i])
  }

  predicate AllSome<T>(xs: seq<Option<T>>) {
    forall i | 0 <= i < |xs| :: xs[i].Some?
  }

  function Outcomes<T>(xs: seq<Option<T>>): (ys: seq<T>)
    requires AllSome(xs)
    ensures |ys| == |xs|
  {
    seq(|xs|, i requires 0 <= i < |xs| => xs[i].value)
  }

  /** Every inner query of the statement runs. */
  ghost predicate AllRun(s: Select) {
    && AllSome(s.scalars) && AllSome(s.ins)
    && forall i | 0 <= i < |s.derived| :: AllRun(s.derived[i])
  }

  ghost function InSources(s: Select): nat {
    (if s.ins == [] then 0 else 1) + InSourcesOf(s.derived)
  }

  ghost function InSourcesOf(ds: seq<Select>): nat {
    if ds == [] then 0 else InSourcesOf(ds[..|ds| - 1]) + InSources(ds[|ds| - 1])
  }

  ghost function CorrelatedSources(s: Select): nat {
    (if s.correlated == [] then 0 else 1) + CorrelatedSourcesOf(s.derived)
  }

  ghost function CorrelatedSourcesOf(ds: seq<Select>): nat {
    if ds == [] then 0 else CorrelatedSourcesOf(ds[..|ds| - 1]) + CorrelatedSources(ds[|ds| - 1])
  }

  /** Each SELECT's literals are its own scalar results. */
  ghost predicate Baked(s: Select, r: Resolved) {
    && AllSome(s.scalars) && r.literals == Outcomes(s.scalars)
    && |r.derived| == |s.derived| && forall i | 0 <= i < |s.derived| :: Baked(s.derived[i], r.derived[i])
  }

  /** The statement-wide lists are the own lists of whichever SELECT has any. */
  ghost predicate SlotsAreOwn(s: Select, r: Resolution) {
    && (forall n | InTree(n, s) && n.ins != [] :: AllSome(n.ins) && r.sets == Outcomes(n.ins))
    && (forall n | InTree(n, s) && n.correlated != [] :: r.evaluators == n.correlated)
    && (r.sets == [] <==> InSources(s) == 0)
    && (r.evaluators == [] <==> CorrelatedSources(s) == 0)
  }

  /** The answer the order of the checks gives: own inner queries first, then each derived table in turn. */
  ghost function Verdict(s: Select): Result<(), Error>
    decreases s, |s.derived| + 1
  {
    if !AllSome(s.scalars) || !AllSome(s.ins) then Err(InnerFailed)
    else VerdictFrom(s, 0, s.ins != [], s.correlated != [])
  }

  /** What remains to be said once `i` derived tables are in, and whether they had sets or correlated forms. */
  ghost function VerdictFrom(s: Select, i: nat, sets: bool, correlated: bool): Result<(), Error>
    requires i <= |s.derived|
    decreases s, |s.derived| - i
  {
    if i == |s.derived| then Ok(())
    else
      var d := s.derived[i];
      match Verdict(d)
      case Err(e) => Err(e)
      case Ok(_) =>
        if InSources(d) > 0 && sets then Err(TwoInSources)
        else if CorrelatedSources(d) > 0 && correlated then Err(TwoCorrelatedSources)
        else VerdictFrom(s, i + 1, sets || InSources(d) > 0, correlated || CorrelatedSources(d) > 0)
  }

  // ---- the code -------------------------------------------------------------------------------

  /** Runs inner queries in order and stops at the first that fails. */
  method RunAll<T>(outcomes: seq<Option<T>>) returns (r: Result<seq<T>, Error>)
    ensures r.Ok? <==> AllSome(outcomes)
    ensures r.Ok? ==> r.value == Outcomes(outcomes)
    ensures r.Err? ==> r.error == InnerFailed
  {
    var out: seq<T> := [];
    for i := 0 to |outcomes|
      invariant |out| == i && forall j | 0 <= j < i :: outcomes[j].Some? && out[j] == outcomes[j].value
    {
      if outcomes[i].None? {
        return Err(InnerFailed);
      }
      out := out + [outcomes[i].value];
    }
    r := Ok(out);
  }

  /** `resolve_subqueries`: succeeds exactly when every inner query runs and at most one SELECT in the tree has
      IN/EXISTS sets and at most one has correlated forms; then every slot finds its own. */
  method Resolve(s: Select) returns (r: Result<Resolution, Error>)
    ensures r.Ok? ==> AllRun(s) && Baked(s, r.value.plan) && SlotsAreOwn(s, r.value)
    ensures r.Ok? ==> InSources(s) <= 1 && CorrelatedSources(s) <= 1
    ensures AllRun(s) && InSources(s) <= 1 && CorrelatedSources(s) <= 1 ==> r.Ok?
    ensures r.Err? <==> Verdict(s).Err?
    ensures r.Err? ==> r.error == Verdict(s).error
    decreases s
  {
    hide Collected, SlotsAreOwn, InTree, InSourcesOf, CorrelatedSourcesOf, Outcomes;
    var literals := RunAll(s.scalars);
    if literals.Err? {
      return Err(literals.error);
    }
    var own := RunAll(s.ins);
    if own.Err? {
      return Err(own.error);
    }
    var sets, evaluators, resolved: seq<Resolved> := own.value, s.correlated, [];
    CollectedStart(s);
    for i := 0 to |s.derived|
      invariant |resolved| == i && forall j | 0 <= j < i :: AllRun(s.derived[j]) && Baked(s.derived[j], resolved[j])
      invariant Collected(s, i, sets, evaluators)
      invariant Verdict(s) == VerdictFrom(s, i, sets != [], evaluators != [])
    {
      var d := Resolve(s.derived[i]);
      MoreSources(s.derived, i);
      if d.Err? {
        return Err(d.error);
      }
      SourcesSoFar(s, i, sets, evaluators, d.value);
      if d.value.sets != [] && sets != [] {
        return Err(TwoInSources);
      }
      if d.value.evaluators != [] && evaluators != [] {
        return Err(TwoCorrelatedSources);
      }
      CollectedNext(s, i, sets, evaluators, d.value);
      sets := sets + d.value.sets;
      evaluators := evaluators + d.value.evaluators;
      resolved := resolved + [d.value.plan];
    }
    var plan := Resolved(literals.value, resolved);
    r := Ok(Resolution(plan, sets, evaluators));
    CollectedAll(s, r.value);
  }

  /** The lists after the SELECT itself and its first `i` derived tables. */
  ghost predicate Collected(s: Select, i: nat, sets: seq<InSet>, evaluators: seq<Template>)
    requires i <= |s.derived|
  {
    && (s.ins != [] ==> AllSome(s.ins) && sets == Outcomes(s.ins))
    && (s.correlated != [] ==> evaluators == s.correlated)
    && (forall j, n | 0 <= j < i && InTree(n, s.derived[j]) && n.ins != [] :: AllSome(n.ins) && sets == Outcomes(n.ins))
    && (forall j, n | 0 <= j < i && InTree(n, s.derived[j]) && n.correlated != [] :: evaluators == n.correlated)
    && (if s.ins == [] then 0 else 1) + InSourcesOf(s.derived[..i]) == (if sets == [] then 0 else 1)
    && (if s.correlated == [] then 0 else 1) + CorrelatedSourcesOf(s.derived[..i]) == (if evaluators == [] then 0 else 1)
  }

  lemma CollectedStart(s: Select)
    requires AllSome(s.ins)
    ensures Collected(s, 0, Outcomes(s.ins), s.correlated)
  {
    assert s.derived[..0] == [];
  }

  /** Lists that are not empty come from sources. */
  lemma SourcesSoFar(s: Select, i: nat, sets: seq<InSet>, evaluators: seq<Template>, d: Resolution)
    requires i < |s.derived| && Collected(s, i, sets, evaluators) && SlotsAreOwn(s.derived[i], d)
    ensures sets != [] && d.sets != [] ==> InSources(s) >= 2
    ensures evaluators != [] && d.evaluators != [] ==> CorrelatedSources(s) >= 2
    ensures d.sets == [] <==> InSources(s.derived[i]) == 0
    ensures d.evaluators == [] <==> CorrelatedSources(s.derived[i]) == 0
  {
    hide InTree;
    MoreSources(s.derived, i);
  }

  lemma SourcesNext(ds: seq<Select>, i: nat)
    requires i < |ds|
    ensures InSourcesOf(ds[..i + 1]) == InSourcesOf(ds[..i]) + InSources(ds[i])
    ensures CorrelatedSourcesOf(ds[..i + 1]) == CorrelatedSourcesOf(ds[..i]) + CorrelatedSources(ds[i])
  {
    assert ds[..i + 1][..i] == ds[..i];
  }

  /** Sources only add up. */
  lemma {:induction false} MoreSources(ds: seq<Select>, i: nat)
    requires i < |ds|
    ensures InSourcesOf(ds) >= InSourcesOf(ds[..i]) + InSources(ds[i])
    ensures CorrelatedSourcesOf(ds) >= CorrelatedSourcesOf(ds[..i]) + CorrelatedSources(ds[i])
    decreases |ds| - i
  {
    SourcesNext(ds, i);
    if i + 1 < |ds| {
      MoreSources(ds, i + 1);
    } else {
      assert ds[..i + 1] == ds;
    }
  }

  /** A tree without sources has no SELECT with sets. */
  lemma {:induction false} NoSources(s: Select, n: Select)
    requires InTree(n, s)
    ensures InSources(s) == 0 ==> n.ins == []
    ensures CorrelatedSources(s) == 0 ==> n.correlated == []
    decreases s
  {
    if n != s {
      var i :| 0 <= i < |s.derived| && InTree(n, s.derived[i]);
      NoSources(s.derived[i], n);
      MoreSources(s.derived, i);
    }
  }

  lemma CollectedNext(s: Select, i: nat, sets: seq<InSet>, evaluators: seq<Template>, d: Resolution)
    requires i < |s.derived| && Collected(s, i, sets, evaluators) && SlotsAreOwn(s.derived[i], d)
    requires InSources(s.derived[i]) <= 1 && CorrelatedSources(s.derived[i]) <= 1
    requires d.sets == [] || sets == []
    requires d.evaluators == [] || evaluators == []
    ensures Collected(s, i + 1, sets + d.sets, evaluators + d.evaluators)
  {
    SourcesNext(s.derived, i);
    assert sets == [] ==> sets + d.sets == d.sets;
    assert d.sets == [] ==> sets + d.sets == sets;
    assert evaluators == [] ==> evaluators + d.evaluators == d.evaluators;
    assert d.evaluators == [] ==> evaluators + d.evaluators == evaluators;
    forall j, n | 0 <= j < i + 1 && InTree(n, s.derived[j])
      ensures n.ins != [] ==> AllSome(n.ins) && sets + d.sets == Outcomes(n.ins)
      ensures n.correlated != [] ==> evaluators + d.evaluators == n.correlated
    {
      if j == i { NoSources(s.derived[i], n); }
    }
  }

  lemma CollectedAll(s: Select, r: Resolution)
    requires Collected(s, |s.derived|, r.sets, r.evaluators)
    ensures SlotsAreOwn(s, r) && InSources(s) <= 1 && CorrelatedSources(s) <= 1
  {
    assert s.derived[..|s.derived|] == s.derived;
    forall n | InTree(n, s)
      ensures n.ins != [] ==> AllSome(n.ins) && r.sets == Outcomes(n.ins)
      ensures n.correlated != [] ==> r.evaluators == n.correlated
    {
      if n != s {
        var i :| 0 <= i < |s.derived| && InTree(n, s.derived[i]);
      }
    }
  }
}
