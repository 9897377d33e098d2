/** The checks a row passes before a table encodes it, in the order the table runs them. */
module Constraints {
  import opened Common
  import opened Values
  import opened TableRows

  datatype Rule =
    | Arity | NotNull | TypeMismatch | TooLong | ScaleMismatch | PrecisionExceeded | PkNotNull

  datatype Violation = Violation(column: nat, rule: Rule)

  predicate ExceedsPrecision(d: Decimal, precision: nat) {
    var abs: int := if d.mantissa < 0 then -(d.mantissa as int) else d.mantissa;
    // ten to the precision no longer fits 64 bits from 20 on
    var bound := if precision < 20 then Pow10(precision) else 0xFFFF_FFFF_FFFF_FFFF;
    d.mantissa != 0 && abs >= bound
  }

  // ---- one column -----------------------------------------------------------------------

  function NullRule(col: ColumnDef, v: Value): Option<Rule> {
    if v.Null? && !col.nullable && col.default.None? then Some(NotNull) else None
  }

  function TypeRule(col: ColumnDef, v: Value): Option<Rule> {
    if v.Matches(col.ty) then None else Some(TypeMismatch)
  }

  function BoundsRule(col: ColumnDef, v: Value): Option<Rule> {
    match (col.ty, v)
    case (TVarchar(max), Varchar(s)) => if |s| > max then Some(TooLong) else None
    case (TChar(width), Char(s)) => if |s| > width then Some(TooLong) else None
    case (TBytes(max), Bytes(b)) => if |b| > max then Some(TooLong) else None
    case (TDecimal(precision, scale), Dec(d)) =>
      if d.scale != scale then Some(ScaleMismatch)
      else if ExceedsPrecision(d, precision) then Some(PrecisionExceeded)
      else None
    case _ => None
  }

  // ---- a row -----------------------------------------------------------------------------------

  /** The first column from `i` on that breaks a rule. */
  function FirstBroken(n: nat, broken: nat -> Option<Rule>, i: nat): (r: Option<Violation>)
    requires i <= n
    ensures r.None? <==> forall j | i <= j < n :: broken(j) == None
    ensures r.Some? ==> i <= r.value.column < n && broken(r.value.column) == Some(r.value.rule)
    ensures r.Some? ==> forall j | i <= j < r.value.column :: broken(j) == None
    decreases n - i
  {
    if i == n then None
    else if broken(i).Some? then Some(Violation(i, broken(i).value))
    else FirstBroken(n, broken, i + 1)
  }

  /** A default stands in for NULL in every column that declares one. */
  function ApplyDefaults(s: Schema, values: Row): (row: Row)
    requires |values| == |s.columns|
    ensures |row| == |values|
  {
    seq(|values|, i requires 0 <= i < |values| =>
      if values[i].Null? && s.columns[i].default.Some? then s.columns[i].default.value else values[i])
  }

  /** The first column that breaks `rule`. */
  function CheckColumns(s: Schema, row: Row, rule: (ColumnDef, Value) -> Option<Rule>): (r: Option<Violation>)
    requires |row| == |s.columns|
    ensures r.None? <==> forall i | 0 <= i < |row| :: rule(s.columns[i], row[i]) == None
    ensures r.Some? ==> r.value.column < |row|
    ensures r.Some? ==> rule(s.columns[r.value.column], row[r.value.column]) == Some(r.value.rule)
    ensures r.Some? ==> forall i | 0 <= i < r.value.column :: rule(s.columns[i], row[i]) == None
  {
    var broken := (i: nat) => if i < |row| then rule(s.columns[i], row[i]) else None;
    assert forall i | 0 <= i < |row| :: broken(i) == rule(s.columns[i], row[i]);
    FirstBroken(|row|, broken, 0)
  }

  function CheckPk(s: Schema, row: Row): (r: Option<Violation>)
    requires s.Valid() && |row| == |s.columns|
    ensures r.None? <==> forall i | 0 <= i < |s.primaryKey| :: !row[s.primaryKey[i]].Null?
  {
    var broken := (i: nat) =>
      if i < |s.primaryKey| && s.primaryKey[i] < |row| && row[s.primaryKey[i]].Null? then Some(PkNotNull) else None;
    assert forall i | 0 <= i < |s.primaryKey| :: broken(i) == None <==> !row[s.primaryKey[i]].Null?;
    var r := FirstBroken(|s.primaryKey|, broken, 0);
    if r.None? then None else Some(Violation(s.primaryKey[r.value.column], PkNotNull))
  }

  /** `validate_and_default`. */
  function Validate(s: Schema, values: Row): (r: Result<Row, Violation>)
    requires s.Valid()
  {
    if |values| != |s.columns| then Err(Violation(|values|, Arity))
    else
      var row := ApplyDefaults(s, values);
      var nulls := CheckColumns(s, row, NullRule);
      if nulls.Some? then Err(nulls.value)
      else
        var types := CheckColumns(s, row, TypeRule);
        if types.Some? then Err(types.value)
        else
          var bounds := CheckColumns(s, row, BoundsRule);
          if bounds.Some? then Err(bounds.value)
          else
            var pk := CheckPk(s, row);
            if pk.Some? then Err(pk.value) else Ok(row)
  }

  /** A value the column accepts, NULL permission aside. */
  ghost predicate Acceptable(col: ColumnDef, v: Value) {
    && Fitting(v, col.ty)
    && (v.Dec? ==> !ExceedsPrecision(v.decimal, col.ty.precision))
  }

  ghost predicate AcceptableRow(s: Schema, row: Row)
    requires s.Valid()
  {
    && |row| == |s.columns|
    && (forall i | 0 <= i < |row| :: Acceptable(s.columns[i], row[i]))
    && (forall i | 0 <= i < |row| && row[i].Null? :: s.columns[i].nullable || s.columns[i].default.Some?)
    && (forall i | 0 <= i < |s.primaryKey| :: !row[s.primaryKey[i]].Null?)
  }

  lemma RulesMeanAcceptable(col: ColumnDef, v: Value)
    ensures TypeRule(col, v) == None && BoundsRule(col, v) == None <==> Acceptable(col, v)
  {
  }

  /** Validation accepts a row exactly when every column accepts its value, NULLs are permitted and the
      primary key has none; what it returns is the row with the defaults filled in. */
  lemma ValidateExact(s: Schema, values: Row)
    requires s.Valid()
    ensures Validate(s, values).Ok? <==> |values| == |s.columns| && AcceptableRow(s, ApplyDefaults(s, values))
    ensures Validate(s, values).Ok? ==> Validate(s, values).value == ApplyDefaults(s, values)
  {
    if |values| == |s.columns| {
      var row := ApplyDefaults(s, values);
      forall i | 0 <= i < |row| { RulesMeanAcceptable(s.columns[i], row[i]); }
    }
  }

  /** A validated row has encodable types and lengths in every column. */
  lemma ValidateFits(s: Schema, values: Row)
    requires s.Valid() && Validate(s, values).Ok?
    ensures FittingRow(s, Validate(s, values).value)
  {
    ValidateExact(s, values);
  }

  // ---- partial updates -----------------------------------------------------------------------------

  type Change = (nat, Value)

  /** The checks of a partial update: type and bounds of each change, and nothing about NULLs. */
  function CheckChange(s: Schema, c: Change): Option<Violation>
    requires c.0 < |s.columns|
  {
    var t := TypeRule(s.columns[c.0], c.1);
    if t.Some? then Some(Violation(c.0, t.value))
    else
      var b := BoundsRule(s.columns[c.0], c.1);
      if b.Some? then Some(Violation(c.0, b.value)) else None
  }

  ghost predicate ChangesInRange(s: Schema, cs: seq<Change>) {
    forall i | 0 <= i < |cs| :: cs[i].0 < |s.columns|
  }

  ghost predicate AcceptableChanges(s: Schema, cs: seq<Change>)
    requires ChangesInRange(s, cs)
  {
    forall i | 0 <= i < |cs| :: Acceptable(s.columns[cs[i].0], cs[i].1)
  }

  /** The first change that its column does not accept. */
  ghost function FirstBad(s: Schema, cs: seq<Change>): (r: Option<Violation>)
    requires ChangesInRange(s, cs)
    ensures r.None? <==> AcceptableChanges(s, cs)
    ensures r.Some? ==> exists i :: 0 <= i < |cs| && r == CheckChange(s, cs[i]) && AcceptableChanges(s, cs[..i])
  {
    if cs == [] then None
    else
      var front, last := cs[..|cs| - 1], cs[|cs| - 1];
      RulesMeanAcceptable(s.columns[last.0], last.1);
      var r := FirstBad(s, front);
      assert forall i | 0 <= i < |front| :: front[..i] == cs[..i];
      if r.Some? then r else CheckChange(s, last)
  }

  method CheckChanges(s: Schema, cs: seq<Change>) returns (r: Option<Violation>)
    requires ChangesInRange(s, cs)
    ensures r == FirstBad(s, cs)
  {
    for i := 0 to |cs|
      invariant FirstBad(s, cs[..i]) == None
    {
      r := CheckChange(s, cs[i]);
      assert cs[..i + 1][..i] == cs[..i];
      if r.Some? {
        FirstBadStays(s, cs, i + 1);
        return;
      }
    }
    assert cs[..|cs|] == cs;
    r := None;
  }

  lemma {:induction false} FirstBadStays(s: Schema, cs: seq<Change>, n: nat)
    requires ChangesInRange(s, cs) && n <= |cs| && FirstBad(s, cs[..n]).Some?
    ensures FirstBad(s, cs) == FirstBad(s, cs[..n])
  {
    hide Acceptable, CheckChange;
    if n < |cs| {
      FirstBadStays(s, cs[..|cs| - 1], n);
      assert cs[..|cs| - 1][..n] == cs[..n];
    } else {
      assert cs[..n] == cs;
    }
  }

  /** Later changes to a column win. */
  ghost function Merged(row: Row, cs: seq<Change>): (m: Row)
    requires forall i | 0 <= i < |cs| :: cs[i].0 < |row|
    ensures |m| == |row|
  {
    if cs == [] then row
    else Merged(row, cs[..|cs| - 1])[cs[|cs| - 1].0 := cs[|cs| - 1].1]
  }

  /** `update_columns` merging its changes into a copy of the row. */
  method Merge(row: Row, cs: seq<Change>) returns (m: Row)
    requires forall i | 0 <= i < |cs| :: cs[i].0 < |row|
    ensures m == Merged(row, cs)
  {
    m := row;
    for i := 0 to |cs|
      invariant |m| == |row| && m == Merged(row, cs[..i])
    {
      assert cs[..i + 1][..i] == cs[..i];
      m := m[cs[i].0 := cs[i].1];
    }
    assert cs[..|cs|] == cs;
  }

  lemma {:induction false} MergedFits(s: Schema, row: Row, cs: seq<Change>)
    requires FittingRow(s, row) && ChangesInRange(s, cs) && AcceptableChanges(s, cs)
    ensures FittingRow(s, Merged(row, cs))
    ensures ZeroFree(row) && (forall i | 0 <= i < |cs| :: !HasZero(cs[i].1)) ==> ZeroFree(Merged(row, cs))
  {
    if cs != [] {
      MergedFits(s, row, cs[..|cs| - 1]);
    }
  }
}
