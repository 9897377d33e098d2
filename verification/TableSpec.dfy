/**
 What each mutation of a table does to its rows, as a plain map with unique
 constraints: no engine, no encoded entries, no index.
 */
module TableSpec {
  import opened Common
  import opened ByteOrder
  import opened Values
  import opened CompositeKeys
  import opened TableRows
  import opened Constraints

  datatype TableError =
    | Corrupted | Constraint(violation: Violation) | DuplicateKey | RowNotFound | UniqueViolation(index: nat)

  type Answer = Result<(), TableError>

  ghost predicate AllFit(s: Schema, ixs: seq<Index>) {
    s.Valid() && forall i | 0 <= i < |ixs| :: Fit(s, ixs[i])
  }

  /** The verdict of the unique indexes from `i` on: the first one that objects decides. */
  ghost function UniqueVerdict(s: Schema, ixs: seq<Index>, rows: Rows, row: Row, i: nat): Answer
    requires AllFit(s, ixs) && FittingRow(s, row) && i <= |ixs|
    decreases |ixs| - i
  {
    if i == |ixs| then Ok(())
    else if !ixs[i].unique || !NoNulls(Project(row, ixs[i].columns)) then UniqueVerdict(s, ixs, rows, row, i + 1)
    else if !EntryGood(s, ixs[i], row) then Err(Corrupted)
    else if Taken(s, ixs[i], rows, row) then Err(UniqueViolation(i))
    else UniqueVerdict(s, ixs, rows, row, i + 1)
  }

  ghost function StoredRow(rows: Rows, pk: ByteString, row: Row): (Rows, Answer) {
    if ZeroFree(row) then (rows[pk := row], Ok(())) else (rows, Err(Corrupted))
  }

  ghost function Inserted(s: Schema, ixs: seq<Index>, rows: Rows, row: Row): (Rows, Answer)
    requires AllFit(s, ixs) && FittingRow(s, row)
  {
    if !GoodOn(s, row, s.primaryKey) then (rows, Err(Corrupted))
    else if PkOf(s, row) in rows then (rows, Err(DuplicateKey))
    else
      var verdict := UniqueVerdict(s, ixs, rows, row, 0);
      if verdict.Err? then (rows, verdict) else StoredRow(rows, PkOf(s, row), row)
  }

  ghost function Upserted(s: Schema, ixs: seq<Index>, rows: Rows, row: Row): (Rows, Answer)
    requires AllFit(s, ixs) && FittingRow(s, row)
  {
    if !GoodOn(s, row, s.primaryKey) then (rows, Err(Corrupted))
    else
      var verdict := UniqueVerdict(s, ixs, rows, row, 0);
      if verdict.Err? then (rows, verdict) else StoredRow(rows, PkOf(s, row), row)
  }

  /** The one way a mutation fails after its first write: an upsert over an existing row of an indexed
      table, with a zero byte in a Char column that neither the primary key nor the unique checks encode. */
  ghost predicate LosesEntries(s: Schema, ixs: seq<Index>, rows: Rows, row: Row)
    requires AllFit(s, ixs) && FittingRow(s, row)
  {
    && ixs != [] && !ZeroFree(row)
    && GoodOn(s, row, s.primaryKey) && PkOf(s, row) in rows
    && UniqueVerdict(s, ixs, rows, row, 0).Ok?
  }

  /** `encode_pk_components`. */
  ghost function PkKey(s: Schema, vs: seq<Value>): Result<ByteString, TableError>
    requires s.Valid()
  {
    match Encode(vs, Project(Types(s), s.primaryKey))
    case Ok(k) => Ok(k)
    case Err(_) => Err(Corrupted)
  }

  /** Replacing the row at `pk`; the unique check comes before the search for the row. */
  ghost function Updated(s: Schema, ixs: seq<Index>, rows: Rows, pk: ByteString, row: Row): (Rows, Answer)
    requires AllFit(s, ixs) && FittingRow(s, row)
  {
    var verdict := UniqueVerdict(s, ixs, rows, row, 0);
    if verdict.Err? then (rows, verdict)
    else if pk !in rows then (rows, Err(RowNotFound))
    else StoredRow(rows, pk, row)
  }

  /** Changing some columns of the row at `pk`; the search for the row comes before the unique check. */
  ghost function ColumnsUpdated(s: Schema, ixs: seq<Index>, rows: Rows, pk: ByteString, cs: seq<Change>): (Rows, Answer)
    requires AllFit(s, ixs) && Keyed(s, rows) && ChangesInRange(s, cs) && AcceptableChanges(s, cs)
  {
    if pk !in rows then (rows, Err(RowNotFound))
    else
      MergedFits(s, rows[pk], cs);
      var row := Merged(rows[pk], cs);
      var verdict := UniqueVerdict(s, ixs, rows, row, 0);
      if verdict.Err? then (rows, verdict) else StoredRow(rows, pk, row)
  }

  lemma ColumnsUpdatedIs(s: Schema, ixs: seq<Index>, rows: Rows, pk: ByteString, cs: seq<Change>, row: Row)
    requires AllFit(s, ixs) && Keyed(s, rows) && ChangesInRange(s, cs) && AcceptableChanges(s, cs) && FittingRow(s, row)
    requires pk in rows && |rows[pk]| == |s.columns| && row == Merged(rows[pk], cs)
    ensures var verdict := UniqueVerdict(s, ixs, rows, row, 0);
      ColumnsUpdated(s, ixs, rows, pk, cs) == if verdict.Err? then (rows, verdict) else StoredRow(rows, pk, row)
  {
  }

  lemma NothingUnique(s: Schema, rows: Rows, row: Row)
    requires s.Valid() && FittingRow(s, row)
    ensures UniqueVerdict(s, [], rows, row, 0) == Ok(())
  {
  }

  // ---- what every mutation keeps -----------------------------------------------------------------------

  ghost predicate ClashesNowhere(ixs: seq<Index>, rows: Rows) {
    forall i | 0 <= i < |ixs| :: ClashFree(ixs[i], rows)
  }

  lemma {:induction false} VerdictOk(s: Schema, ixs: seq<Index>, rows: Rows, row: Row, i: nat)
    requires AllFit(s, ixs) && FittingRow(s, row) && i <= |ixs|
    ensures UniqueVerdict(s, ixs, rows, row, i).Ok? ==> forall j | i <= j < |ixs| :: !Taken(s, ixs[j], rows, row)
    ensures ZeroFree(row) && (forall j | i <= j < |ixs| :: !Taken(s, ixs[j], rows, row)) ==>
              UniqueVerdict(s, ixs, rows, row, i) == Ok(())
    decreases |ixs| - i
  {
    hide FittingRow, ZeroFree, GoodOn, PkOf;
    if i < |ixs| {
      VerdictOk(s, ixs, rows, row, i + 1);
      if ZeroFree(row) { EntryAlwaysGood(s, ixs[i], row); }
    }
  }

  /** A row without zero bytes in Char values is accepted exactly when no other row, under a different
      primary key, has the same all-non-NULL values in the columns of some unique index. */
  lemma UniqueExact(s: Schema, ixs: seq<Index>, rows: Rows, row: Row)
    requires AllFit(s, ixs) && GoodRow(s, row)
    ensures UniqueVerdict(s, ixs, rows, row, 0).Ok? <==>
            !exists i, q :: 0 <= i < |ixs| && q in rows && q != PkOf(s, row) && Clash(ixs[i], row, rows[q])
  {
    VerdictOk(s, ixs, rows, row, 0);
    hide FittingRow, ZeroFree, PkOf, Clash, UniqueVerdict;
    if i, q :| 0 <= i < |ixs| && q in rows && q != PkOf(s, row) && Clash(ixs[i], row, rows[q]) {
      assert Taken(s, ixs[i], rows, row);
    }
  }

  /** Storing a row the unique indexes accept keeps the table free of clashes. */
  lemma StoreKeeps(s: Schema, ixs: seq<Index>, rows: Rows, row: Row)
    requires AllFit(s, ixs) && Keyed(s, rows) && ClashesNowhere(ixs, rows) && GoodRow(s, row)
    requires UniqueVerdict(s, ixs, rows, row, 0).Ok?
    ensures Keyed(s, rows[PkOf(s, row) := row]) && ClashesNowhere(ixs, rows[PkOf(s, row) := row])
  {
    VerdictOk(s, ixs, rows, row, 0);
    hide FittingRow, ZeroFree, PkOf, ClashFree, Taken, UniqueVerdict;
    KeyedPut(s, rows, row);
    forall i | 0 <= i < |ixs| ensures ClashFree(ixs[i], rows[PkOf(s, row) := row]) {
      StoreClashFree(s, ixs[i], rows, row);
    }
  }

  lemma DeleteKeeps(s: Schema, ixs: seq<Index>, rows: Rows, pk: ByteString)
    requires s.Valid() && Keyed(s, rows) && ClashesNowhere(ixs, rows)
    ensures Keyed(s, rows - {pk}) && ClashesNowhere(ixs, rows - {pk})
  {
    hide FittingRow, ZeroFree, PkOf, Clash;
  }
}
