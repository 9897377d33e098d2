/** The aggregate functions that a grouping folds over its rows, and what each comes to. */
module Aggregates {
  import opened Common
  import opened Values
  import opened SqlCompare
  import opened DecimalDivision
  import opened GroupKeys
  import opened PushPlans

  type Argument = Tuple -> Value

  /** The argument's inferred type, for sums. */
  datatype Numeric = Integers | Decimals(scale: Scale)

  datatype AggregateFn =
    | CountStar | Count(arg: Argument) | CountDistinct(arg: Argument)
    | Min(arg: Argument) | Max(arg: Argument)
    | Sum(arg: Argument, kind: Numeric) | Avg(arg: Argument, kind: Numeric)

  // ---- the code ---------------------------------------------------------------------------------

  function Start(f: AggregateFn): AggState {
    match f
    case CountStar => Counted(0)
    case Count(_) => Counted(0)
    case CountDistinct(_) => DistinctSet({})
    case Min(_) => Best(None)
    case Max(_) => Best(None)
    case Sum(_, _) => Summed(None, 0)
    case Avg(_, _) => Summed(None, 0)
  }

  /** What a value adds to a sum, in units of its type. */
  function Amount(v: Value, kind: Numeric): Option<i64> {
    match (v, kind)
    case (Int32(n), Integers) => Some(n)
    case (Int64(m), Integers) => Some(m)
    case (Dec(d), Decimals(scale)) => if d.scale == scale then Some(d.mantissa) else None
    case _ => None
  }

  function Or0(total: Option<i64>): i64 {
    if total.Some? then total.value else 0
  }

  function AddTo(s: AggState, v: Value, kind: Numeric): AggState {
    var amount := Amount(v, kind);
    if !s.Summed? || amount.None? || !InI64(Or0(s.total) + amount.value) then Failed
    else Summed(Some(Or0(s.total) + amount.value), s.count + 1)
  }

  /** `compare_values`: values without a comparison count as equal. */
  function Better(prior: Value, v: Value, smaller: bool): Value {
    var o := CompareSql(prior, v);
    if o == Some(if smaller then Greater else Less) then v else prior
  }

  /** `update_state`. */
  function Step(f: AggregateFn, s: AggState, t: Tuple): AggState {
    match (f, s)
    case (CountStar, Counted(n)) => Counted(n + 1)
    case (Count(arg), Counted(n)) => if arg(t).Null? then s else Counted(n + 1)
    case (CountDistinct(arg), DistinctSet(vs)) => if arg(t).Null? then s else DistinctSet(vs + {arg(t)})
    case (Min(arg), Best(b)) =>
      if arg(t).Null? then s else Best(Some(if b.None? then arg(t) else Better(b.value, arg(t), true)))
    case (Max(arg), Best(b)) =>
      if arg(t).Null? then s else Best(Some(if b.None? then arg(t) else Better(b.value, arg(t), false)))
    case (Sum(arg, kind), Summed(_, _)) => if arg(t).Null? then s else AddTo(s, arg(t), kind)
    case (Avg(arg, kind), Summed(_, _)) => if arg(t).Null? then s else AddTo(s, arg(t), kind)
    case _ => Failed
  }

  /** Two's complement narrowing of a count. */
  function AsI64(n: nat): i64 {
    (n + 0x8000_0000_0000_0000) % 0x1_0000_0000_0000_0000 - 0x8000_0000_0000_0000
  }

  function InUnits(total: i64, kind: Numeric): Value {
    match kind
    case Integers => Int64(total)
    case Decimals(scale) => Dec(Decimal(total, scale))
  }

  /** An average of integers gets four decimals, one of decimals keeps their scale. */
  function Averaged(total: i64, count: nat, kind: Numeric): Option<Value>
    requires count > 0
  {
    match kind
    case Integers =>
      var m := RoundHalfAway(total * 10_000, count);
      if InI64(m) then Some(Dec(Decimal(m, 4))) else None
    case Decimals(scale) => Some(Dec(Decimal(Average(total, count), scale)))
  }

  /** `finalize_state`; no value stands for the error that ends the query. */
  function Finalized(f: AggregateFn, s: AggState): Option<Value> {
    match (f, s)
    case (CountStar, Counted(n)) => Some(Int64(AsI64(n)))
    case (Count(_), Counted(n)) => Some(Int64(AsI64(n)))
    case (CountDistinct(_), DistinctSet(vs)) => Some(Int64(AsI64(|vs|)))
    case (Min(_), Best(b)) => Some(if b.None? then Null else b.value)
    case (Max(_), Best(b)) => Some(if b.None? then Null else b.value)
    case (Sum(_, kind), Summed(total, _)) => Some(if total.None? then Null else InUnits(total.value, kind))
    case (Avg(_, kind), Summed(total, count)) =>
      if total.None? || count == 0 then Some(Null) else Averaged(total.value, count, kind)
    case _ => None
  }

  function AsAggregate(f: AggregateFn): Aggregate {
    Aggregate(Start(f), (s: AggState, t: Tuple) => Step(f, s, t), (s: AggState) =>
      if Finalized(f, s).Some? then Finalized(f, s).value else Null)
  }

  // ---- what it comes to ------------------------------------------------------------------------------

  /** The arguments that are not NULL. */
  function Args(arg: Argument, rows: seq<Tuple>): seq<Value> {
    if rows == [] then []
    else
      var v := arg(rows[|rows| - 1]);
      Args(arg, rows[..|rows| - 1]) + if v.Null? then [] else [v]
  }

  function Final(f: AggregateFn, rows: seq<Tuple>): Option<Value> {
    Finalized(f, Folded(AsAggregate(f), rows))
  }

  lemma FoldedNext(f: AggregateFn, rows: seq<Tuple>)
    requires rows != []
    ensures Folded(AsAggregate(f), rows) == Step(f, Folded(AsAggregate(f), rows[..|rows| - 1]), rows[|rows| - 1])
  {
    hide Step;
  }

  lemma {:induction false} CountsRows(rows: seq<Tuple>)
    ensures Folded(AsAggregate(CountStar), rows) == Counted(|rows|)
  {
    if rows != [] {
      CountsRows(rows[..|rows| - 1]);
      FoldedNext(CountStar, rows);
    }
  }

  lemma {:induction false} CountsArgs(arg: Argument, rows: seq<Tuple>)
    ensures Folded(AsAggregate(Count(arg)), rows) == Counted(|Args(arg, rows)|)
    ensures Folded(AsAggregate(CountDistinct(arg)), rows) == DistinctSet(set v | v in Args(arg, rows))
  {
    if rows != [] {
      CountsArgs(arg, rows[..|rows| - 1]);
      FoldedNext(Count(arg), rows);
      FoldedNext(CountDistinct(arg), rows);
    }
  }

  /** `v` is one of the values and none is better; without values there is none. */
  ghost predicate IsBest(vs: seq<Value>, best: Option<Value>, smaller: bool) {
    if vs == [] then best == None
    else best.Some? && best.value in vs && forall w | w in vs :: NotWorse(best.value, w, smaller)
  }

  ghost predicate NotWorse(v: Value, w: Value, smaller: bool) {
    CompareSql(v, w) == Some(Equal) || CompareSql(v, w) == Some(if smaller then Less else Greater)
  }

  lemma BetterOf(prior: Value, v: Value, smaller: bool)
    requires CompareSql(prior, v).Some?
    ensures var b := Better(prior, v, smaller); NotWorse(b, prior, smaller) && NotWorse(b, v, smaller)
  {
    TotalPreorder(prior, v, prior);
    TotalPreorder(v, prior, v);
    assert !prior.Null? && !v.Null?;
  }

  lemma NotWorseTransitive(a: Value, b: Value, c: Value, smaller: bool)
    requires NotWorse(a, b, smaller) && NotWorse(b, c, smaller)
    ensures NotWorse(a, c, smaller)
  {
    hide CompareSql;
    TotalPreorder(a, b, c);
    TotalPreorder(c, b, a);
    TotalPreorder(a, c, b);
  }

  ghost predicate Comparables(vs: seq<Value>) {
    forall v, w | v in vs && w in vs :: CompareSql(v, w).Some?
  }

  lemma BestNext(vs: seq<Value>, best: Option<Value>, v: Value, smaller: bool)
    requires IsBest(vs, best, smaller) && Comparables(vs + [v])
    ensures IsBest(vs + [v], Some(if best.None? then v else Better(best.value, v, smaller)), smaller)
  {
    hide CompareSql, NotWorse, Better;
    var b := if best.None? then v else Better(best.value, v, smaller);
    assert v in vs + [v] && forall w | w in vs :: w in vs + [v];
    Reflexive(v, smaller);
    if best.Some? {
      BetterOf(best.value, v, smaller);
      PicksOne(best.value, v, smaller);
      forall w | w in vs ensures NotWorse(b, w, smaller) { NotWorseTransitive(b, best.value, w, smaller); }
    }
  }

  lemma PicksOne(prior: Value, v: Value, smaller: bool)
    ensures Better(prior, v, smaller) == prior || Better(prior, v, smaller) == v
  {
  }

  lemma Reflexive(v: Value, smaller: bool)
    requires CompareSql(v, v).Some?
    ensures NotWorse(v, v, smaller)
  {
    TotalPreorder(v, v, v);
    assert !v.Null?;
  }

  lemma {:induction false} ArgsPrefix(arg: Argument, rows: seq<Tuple>)
    requires rows != []
    ensures forall v | v in Args(arg, rows[..|rows| - 1]) :: v in Args(arg, rows)
  {
  }

  /** MIN and MAX over comparable arguments return one of them that none beats, or NULL if there is none. */
  lemma {:induction false} BestOfArgs(arg: Argument, rows: seq<Tuple>, smaller: bool)
    requires Comparables(Args(arg, rows))
    ensures var s := Folded(AsAggregate(if smaller then Min(arg) else Max(arg)), rows);
      s.Best? && IsBest(Args(arg, rows), s.value, smaller)
  {
    hide CompareSql, NotWorse, Better;
    if rows != [] {
      var f := if smaller then Min(arg) else Max(arg);
      var front, v := rows[..|rows| - 1], arg(rows[|rows| - 1]);
      ArgsPrefix(arg, rows);
      BestOfArgs(arg, front, smaller);
      FoldedNext(f, rows);
      if !v.Null? { BestNext(Args(arg, front), Folded(AsAggregate(f), front).value, v, smaller); }
    }
  }

  // ---- sums -------------------------------------------------------------------------------------------

  ghost predicate AllAmounts(vs: seq<Value>, kind: Numeric) {
    forall v | v in vs :: Amount(v, kind).Some?
  }

  ghost function Total(vs: seq<Value>, kind: Numeric): int
    requires AllAmounts(vs, kind)
  {
    if vs == [] then 0
    else Total(vs[..|vs| - 1], kind) + Amount(vs[|vs| - 1], kind).value
  }

  /** No sum on the way leaves 64 bits. */
  ghost predicate TotalsFit(vs: seq<Value>, kind: Numeric)
    requires AllAmounts(vs, kind)
  {
    vs == [] || (TotalsFit(vs[..|vs| - 1], kind) && InI64(Total(vs, kind)))
  }

  /** What a sum over `vs` comes to: it fails exactly when a sum on the way does not fit. */
  ghost function SumOf(vs: seq<Value>, kind: Numeric): AggState
    requires AllAmounts(vs, kind)
  {
    if !TotalsFit(vs, kind) then Failed
    else if vs == [] then Summed(None, 0)
    else Summed(Some(Total(vs, kind)), |vs|)
  }

  lemma SumNext(vs: seq<Value>, v: Value, kind: Numeric)
    requires AllAmounts(vs + [v], kind) && AllAmounts(vs, kind)
    ensures SumOf(vs + [v], kind) == AddTo(SumOf(vs, kind), v, kind)
  {
    hide Total, TotalsFit, Amount, AllAmounts;
    TotalNext(vs, v, kind);
    TotalFits(vs, kind);
  }

  lemma TotalNext(vs: seq<Value>, v: Value, kind: Numeric)
    requires AllAmounts(vs + [v], kind) && AllAmounts(vs, kind)
    ensures Amount(v, kind).Some? && Total(vs + [v], kind) == Total(vs, kind) + Amount(v, kind).value
    ensures TotalsFit(vs + [v], kind) <==> TotalsFit(vs, kind) && InI64(Total(vs + [v], kind))
  {
    hide Amount;
    var more := vs + [v];
    assert more[..|more| - 1] == vs && more[|more| - 1] == v && v in more;
  }

  lemma TotalFits(vs: seq<Value>, kind: Numeric)
    requires AllAmounts(vs, kind)
    ensures TotalsFit(vs, kind) ==> InI64(Total(vs, kind))
    ensures vs == [] ==> TotalsFit(vs, kind) && Total(vs, kind) == 0
  {
  }

  /** SUM and AVG over numeric arguments add them up, and fail exactly when a sum on the way leaves 64 bits. */
  lemma {:induction false} SumsArgs(arg: Argument, kind: Numeric, rows: seq<Tuple>)
    requires AllAmounts(Args(arg, rows), kind)
    ensures Folded(AsAggregate(Sum(arg, kind)), rows) == SumOf(Args(arg, rows), kind)
    ensures Folded(AsAggregate(Avg(arg, kind)), rows) == SumOf(Args(arg, rows), kind)
  {
    if rows != [] {
      var front, t := rows[..|rows| - 1], rows[|rows| - 1];
      ArgsPrefix(arg, rows);
      SumsArgs(arg, kind, front);
      FoldedNext(Sum(arg, kind), rows);
      FoldedNext(Avg(arg, kind), rows);
      hide *;
      SumStates(Args(arg, front), kind);
      SumSteps(arg, kind, SumOf(Args(arg, front), kind), t);
      ArgsNext(arg, rows);
      if !arg(t).Null? { SumNext(Args(arg, front), arg(t), kind); }
    }
  }

  lemma ArgsNext(arg: Argument, rows: seq<Tuple>)
    requires rows != []
    ensures var v := arg(rows[|rows| - 1]);
      Args(arg, rows) == if v.Null? then Args(arg, rows[..|rows| - 1]) else Args(arg, rows[..|rows| - 1]) + [v]
  {
  }

  lemma SumSteps(arg: Argument, kind: Numeric, s: AggState, t: Tuple)
    requires s.Summed? || s.Failed?
    ensures Step(Sum(arg, kind), s, t) == Step(Avg(arg, kind), s, t) == if arg(t).Null? then s else AddTo(s, arg(t), kind)
  {
  }

  lemma SumStates(vs: seq<Value>, kind: Numeric)
    requires AllAmounts(vs, kind)
    ensures SumOf(vs, kind).Summed? || SumOf(vs, kind).Failed?
  {
  }

  // ---- results ------------------------------------------------------------------------------------------

  /** SUM is the total, or NULL without arguments; AVG is the total divided by the number of arguments, rounded
      to the nearest unit of its last digit, ties away from zero. */
  lemma SumResult(arg: Argument, kind: Numeric, rows: seq<Tuple>)
    requires AllAmounts(Args(arg, rows), kind)
    ensures var vs := Args(arg, rows);
      && (Final(Sum(arg, kind), rows).None? <==> !TotalsFit(vs, kind))
      && (TotalsFit(vs, kind) && vs == [] ==> Final(Sum(arg, kind), rows) == Final(Avg(arg, kind), rows) == Some(Null))
      && (TotalsFit(vs, kind) && vs != [] ==>
            && InI64(Total(vs, kind)) && Final(Sum(arg, kind), rows) == Some(InUnits(Total(vs, kind), kind))
            && Final(Avg(arg, kind), rows) == Averaged(Total(vs, kind), |vs|, kind))
  {
    SumsArgs(arg, kind, rows);
    hide Step, Args;
  }

  lemma AveragedIsNearest(total: i64, count: nat, kind: Numeric)
    requires count > 0 && Averaged(total, count, kind).Some?
    ensures var v := Averaged(total, count, kind).value;
      && v.Dec? && v.decimal.scale == (if kind.Integers? then 4 else kind.scale)
      && Nearest(if kind.Integers? then total * 10_000 else total, count, v.decimal.mantissa)
  {
    RoundIsNearest(total * 10_000, count);
    RoundIsNearest(total, count);
  }

  /** AVG of decimals and SUM divided by COUNT are the same number. */
  lemma AverageBothWays(total: i64, count: i64, scale: Scale)
    requires count > 0
    ensures Divide(Decimal(total, scale), Decimal(count, 0)).Ok?
    ensures Averaged(total, count, Decimals(scale)) == Some(Dec(Divide(Decimal(total, scale), Decimal(count, 0)).value))
  {
    AverageIsDivision(Decimal(total, scale), count);
  }
}
