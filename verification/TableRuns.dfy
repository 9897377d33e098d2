/**
 Runs of mutations and index creations on one table, in any order and of any
 length.  `Done` is the reference: rows as a plain map, indexes as bare
 definitions.
 */
module TableRuns {
  import opened Common
  import opened ByteOrder
  import opened Values
  import opened CompositeKeys
  import opened StorageEngine
  import opened TableRows
  import opened Constraints
  import opened TableSpec
  import opened TableScans
  import opened Tables

  datatype Op =
    | Insert(values: Row)
    | Upsert(values: Row)
    | Update(pkValues: seq<Value>, values: Row)
    | UpdateColumns(pkValues: seq<Value>, changes: seq<Change>)
    | Delete(pkValues: seq<Value>)
    | CreateIndex(ix: Index)

  datatype World = World(rows: Rows, ixs: seq<Index>)

  // ---- the reference --------------------------------------------------------------------------

  /** No two rows share a primary key or clash in a unique index. */
  ghost predicate Good(s: Schema, w: World) {
    AllFit(s, w.ixs) && Keyed(s, w.rows) && ClashesNowhere(w.ixs, w.rows)
  }

  ghost function Then(w: World, done: (Rows, Answer)): (World, Answer) {
    (World(done.0, w.ixs), done.1)
  }

  ghost function InsertDone(s: Schema, w: World, values: Row): (World, Answer)
    requires Good(s, w)
  {
    match Validate(s, values)
    case Err(e) => (w, Err(Constraint(e)))
    case Ok(row) => ValidateFits(s, values); Then(w, Inserted(s, w.ixs, w.rows, row))
  }

  ghost function UpsertDone(s: Schema, w: World, values: Row): (World, Answer)
    requires Good(s, w)
  {
    match Validate(s, values)
    case Err(e) => (w, Err(Constraint(e)))
    case Ok(row) => ValidateFits(s, values); Then(w, Upserted(s, w.ixs, w.rows, row))
  }

  ghost function UpdateDone(s: Schema, w: World, pkValues: seq<Value>, values: Row): (World, Answer)
    requires Good(s, w)
  {
    match Validate(s, values)
    case Err(e) => (w, Err(Constraint(e)))
    case Ok(row) =>
      match PkKey(s, pkValues)
      case Err(e) => (w, Err(e))
      case Ok(pk) => ValidateFits(s, values); Then(w, Updated(s, w.ixs, w.rows, pk, row))
  }

  ghost function ColumnsDone(s: Schema, w: World, pkValues: seq<Value>, cs: seq<Change>): (World, Answer)
    requires Good(s, w) && ChangesInRange(s, cs)
  {
    if !AcceptableChanges(s, cs) then (w, Err(Constraint(FirstBad(s, cs).value)))
    else
      match PkKey(s, pkValues)
      case Err(e) => (w, Err(e))
      case Ok(pk) => Then(w, ColumnsUpdated(s, w.ixs, w.rows, pk, cs))
  }

  ghost function DeleteDone(s: Schema, w: World, pkValues: seq<Value>): (World, Answer)
    requires Good(s, w)
  {
    match PkKey(s, pkValues)
    case Err(e) => (w, Err(e))
    case Ok(pk) => (World(w.rows - {pk}, w.ixs), Ok(()))
  }

  ghost function CreateDone(s: Schema, w: World, ix: Index): (World, Answer)
    requires Good(s, w)
  {
    if s.tableId == 0xFFFF_FFFF then (w, Err(Corrupted))
    else if ix.unique && !ClashFree(ix, w.rows) then (w, Err(UniqueViolation(|w.ixs|)))
    else (World(w.rows, w.ixs + [ix]), Ok(()))
  }

  /** Column positions are in range. */
  ghost predicate Formed(s: Schema, op: Op)
    requires s.Valid()
  {
    match op
    case UpdateColumns(_, cs) => ChangesInRange(s, cs)
    case CreateIndex(ix) => Fit(s, ix)
    case _ => true
  }

  /** What an operation makes of the table, and its answer. */
  ghost function Done(s: Schema, w: World, op: Op): (World, Answer)
    requires Good(s, w) && Formed(s, op)
  {
    match op
    case Insert(values) => InsertDone(s, w, values)
    case Upsert(values) => UpsertDone(s, w, values)
    case Update(pkValues, values) => UpdateDone(s, w, pkValues, values)
    case UpdateColumns(pkValues, cs) => ColumnsDone(s, w, pkValues, cs)
    case Delete(pkValues) => DeleteDone(s, w, pkValues)
    case CreateIndex(ix) => CreateDone(s, w, ix)
  }

  /** The operation keeps table and indexes agreeing: an upsert loses no entries, and an update that succeeds
      keeps the primary key. */
  ghost predicate Safe(s: Schema, w: World, op: Op)
    requires Good(s, w) && Formed(s, op)
  {
    match op
    case Upsert(values) =>
      Validate(s, values).Ok? ==>
        (ValidateFits(s, values); !LosesEntries(s, w.ixs, w.rows, Validate(s, values).value))
    case Update(pkValues, values) =>
      Done(s, w, op).1.Ok? && Validate(s, values).Ok? && PkKey(s, pkValues).Ok? ==>
        (ValidateFits(s, values); PkOf(s, Validate(s, values).value) == PkKey(s, pkValues).value)
    case UpdateColumns(pkValues, cs) =>
      Done(s, w, op).1.Ok? && PkKey(s, pkValues).Ok? && PkKey(s, pkValues).value in w.rows && AcceptableChanges(s, cs) ==>
        (MergedFits(s, w.rows[PkKey(s, pkValues).value], cs);
         PkOf(s, Merged(w.rows[PkKey(s, pkValues).value], cs)) == PkKey(s, pkValues).value)
    case _ => true
  }

  lemma SafeKeepsGood(s: Schema, w: World, op: Op)
    requires Good(s, w) && Formed(s, op) && Safe(s, w, op)
    ensures Good(s, Done(s, w, op).0)
  {
    hide Validate, FittingRow, ZeroFree, UniqueVerdict, PkOf, PkKey, ClashFree, AcceptableChanges, GoodOn;
    match op
    case Insert(values) =>
      if Done(s, w, op).1.Ok? {
        ValidateFits(s, values);
        StoreKeeps(s, w.ixs, w.rows, Validate(s, values).value);
      }
    case Upsert(values) =>
      if Done(s, w, op).1.Ok? {
        ValidateFits(s, values);
        StoreKeeps(s, w.ixs, w.rows, Validate(s, values).value);
      }
    case Update(pkValues, values) =>
      if Done(s, w, op).1.Ok? {
        ValidateFits(s, values);
        StoreKeeps(s, w.ixs, w.rows, Validate(s, values).value);
      }
    case UpdateColumns(pkValues, cs) =>
      if Done(s, w, op).1.Ok? {
        var pk := PkKey(s, pkValues).value;
        MergedFits(s, w.rows[pk], cs);
        StoreKeeps(s, w.ixs, w.rows, Merged(w.rows[pk], cs));
      }
    case Delete(pkValues) =>
      if PkKey(s, pkValues).Ok? { DeleteKeeps(s, w.ixs, w.rows, PkKey(s, pkValues).value); }
    case CreateIndex(ix) =>
      if !ix.unique { DropUnique(ix, w.rows); }
      if Done(s, w, op).1.Ok? { MoreClashFree(w.ixs, ix, w.rows); }
  }

  /** Every operation is safe where its turn comes. */
  ghost predicate AllSafe(s: Schema, w: World, ops: seq<Op>)
    requires Good(s, w)
    decreases |ops|
  {
    ops == [] ||
    (Formed(s, ops[0]) && Safe(s, w, ops[0]) && (SafeKeepsGood(s, w, ops[0]); AllSafe(s, Done(s, w, ops[0]).0, ops[1..])))
  }

  /** Safe whatever the table holds: updates keep the primary key and upserts have no zero byte in a Char value. */
  ghost predicate AlwaysSafe(s: Schema, op: Op)
    requires s.Valid()
  {
    match op
    case Upsert(values) => Validate(s, values).Ok? ==> ZeroFree(Validate(s, values).value)
    case Update(pkValues, values) =>
      Validate(s, values).Ok? && PkKey(s, pkValues).Ok? ==>
        (ValidateFits(s, values); PkOf(s, Validate(s, values).value) == PkKey(s, pkValues).value)
    case UpdateColumns(_, cs) => ChangesInRange(s, cs) && forall i | 0 <= i < |cs| :: cs[i].0 !in s.primaryKey
    case _ => Formed(s, op)
  }

  lemma AlwaysSafeIsSafe(s: Schema, w: World, op: Op)
    requires Good(s, w) && AlwaysSafe(s, op)
    ensures Formed(s, op) && Safe(s, w, op)
  {
    hide Validate, FittingRow, ZeroFree, UniqueVerdict, Keyed, PkOf, PkKey, ClashFree, AcceptableChanges, Done;
    if op.UpdateColumns? && AcceptableChanges(s, op.changes) && PkKey(s, op.pkValues).Ok?
       && PkKey(s, op.pkValues).value in w.rows {
      ChangesKeepKey(s, w.rows, PkKey(s, op.pkValues).value, op.changes);
    }
  }

  lemma {:induction false} AlwaysSafeRuns(s: Schema, w: World, ops: seq<Op>)
    requires Good(s, w) && forall i | 0 <= i < |ops| :: AlwaysSafe(s, ops[i])
    ensures AllSafe(s, w, ops)
    decreases |ops|
  {
    hide Good, AlwaysSafe, Safe, Done;
    if ops != [] {
      AlwaysSafeIsSafe(s, w, ops[0]);
      SafeKeepsGood(s, w, ops[0]);
      AlwaysSafeRuns(s, Done(s, w, ops[0]).0, ops[1..]);
    }
  }

  // ---- what a caller must keep out ----------------------------------------------------------------------

  /** Upserting a zero byte into a Char column over an existing row of an indexed table loses index entries. */
  lemma UpsertCanLoseEntries() returns (s: Schema, ixs: seq<Index>, rows: Rows, row: Row)
    ensures Good(s, World(rows, ixs)) && Validate(s, row) == Ok(row) && FittingRow(s, row)
    ensures LosesEntries(s, ixs, rows, row)
  {
    hide Key, Columns, PkOf, Taken, Clash, Validate, ExceedsPrecision, EntryGood;
    s := Schema(0, [ColumnDef(TInt32, false, None), ColumnDef(TChar(1), true, None)], [0]);
    ixs := [Index([0], false)];
    var zero: Text := [0x00];
    var before: Row := [Int32(1), Null];
    row := [Int32(1), Char(zero)];
    assert GoodRow(s, before) && FittingRow(s, row) && HasZero(row[1]);
    rows := map[PkOf(s, before) := before];
    assert Project(row, [0]) == Project(before, [0]);
    PkIs(s, before);
    PkIs(s, row);
    assert ApplyDefaults(s, row) == row;
    ValidateExact(s, row);
    assert Fit(s, ixs[0]) && ClashFree(ixs[0], rows);
    assert UniqueVerdict(s, ixs, rows, row, 0) == UniqueVerdict(s, ixs, rows, row, 1) == Ok(());
  }

  /** An update stores a row with another primary key under the old one. */
  lemma UpdateCanMoveKey() returns (s: Schema, rows: Rows, pk: ByteString, row: Row)
    ensures Good(s, World(rows, [])) && Validate(s, row) == Ok(row) && FittingRow(s, row)
    ensures Updated(s, [], rows, pk, row) == (rows[pk := row], Ok(())) && PkOf(s, row) != pk
  {
    hide Key, Columns, Validate, ExceedsPrecision;
    s := Schema(0, [ColumnDef(TInt32, false, None)], [0]);
    var before: Row := [Int32(1)];
    row := [Int32(2)];
    assert GoodRow(s, before) && GoodRow(s, row);
    pk := PkOf(s, before);
    rows := map[pk := before];
    assert Project(row, [0]) != Project(before, [0]) by { assert Project(row, [0])[0] == Int32(2); }
    SameColumns(s, before, row, [0]);
    assert ApplyDefaults(s, row) == row;
    ValidateExact(s, row);
    assert pk in rows && UniqueVerdict(s, [], rows, row, 0) == Ok(());
  }

  // ---- index creation -------------------------------------------------------------------------------

  lemma DropUnique(ix: Index, rows: Rows)
    requires !ix.unique
    ensures ClashFree(ix, rows)
  {
  }

  /** A new index, backfilled on its own. */
  method Fill(t: Table, ix: Index) returns (r: Result<Engine, TableError>)
    requires t.Held() && Fit(t.schema, ix)
    ensures t.Held()
    ensures r.Err? <==> t.schema.tableId == 0xFFFF_FFFF
    ensures r.Err? ==> r.error == Corrupted
    ensures r.Ok? ==> fresh(r.value) && Indexed(t.schema, ix, r.value.entries, t.rows)
  {
    hide Keyed, Represents, Indexed, ClashFree;
    var store := new Engine();
    var fill := new Table.Over(t, [ix], [store]);
    var n := fill.BackfillIndexes();
    if n.Err? {
      return Err(n.error);
    }
    assert fill.defs[0] == ix && fill.stores[0] == store;
    r := Ok(store);
  }

  lemma MoreClashFree(ixs: seq<Index>, ix: Index, rows: Rows)
    requires ClashesNowhere(ixs, rows) && ClashFree(ix, rows)
    ensures ClashesNowhere(ixs + [ix], rows)
  {
  }

  /** The session's CREATE INDEX: check feasibility first, then backfill the new index alone.  Afterwards the
      table with all its indexes, old and new, agrees with its rows. */
  method Create(t: Table, ix: Index) returns (r: Answer, u: Table)
    requires t.Valid() && Fit(t.schema, ix)
    ensures t.Valid() && u.Valid() && u.schema == t.schema && u.engine == t.engine && u.rows == t.rows
    ensures Good(t.schema, World(t.rows, t.defs))
    ensures (World(u.rows, u.defs), r) == CreateDone(t.schema, World(t.rows, t.defs), ix)
    ensures u == t || fresh(u)
    ensures forall i | 0 <= i < |u.stores| :: u.stores[i] in t.stores || fresh(u.stores[i])
  {
    hide Keyed, Represents, Indexed, ClashFree, ClashesNowhere;
    u := t;
    if ix.unique {
      r := t.AssertUniqueFeasible(ix.columns);
      if r.Err? {
        return;
      }
      assert ix == Index(ix.columns, true);
    } else {
      DropUnique(ix, t.rows);
    }
    var store := Fill(t, ix);
    if store.Err? {
      return Err(store.error), t;
    }
    MoreClashFree(t.defs, ix, t.rows);
    u := new Table.Over(t, t.defs + [ix], t.stores + [store.value]);
    r := Ok(());
  }

  // ---- runs ----------------------------------------------------------------------------------------------

  lemma {:induction false} MergedElsewhere(row: Row, cs: seq<Change>, cols: seq<nat>)
    requires (forall i | 0 <= i < |cs| :: cs[i].0 < |row| && cs[i].0 !in cols) && InRange(cols, |row|)
    ensures Project(Merged(row, cs), cols) == Project(row, cols)
  {
    if cs != [] {
      MergedElsewhere(row, cs[..|cs| - 1], cols);
    }
  }

  /** Changes outside the primary key keep it. */
  lemma ChangesKeepKey(s: Schema, rows: Rows, pk: ByteString, cs: seq<Change>)
    requires s.Valid() && Keyed(s, rows) && pk in rows && ChangesInRange(s, cs) && AcceptableChanges(s, cs)
    requires forall i | 0 <= i < |cs| :: cs[i].0 !in s.primaryKey
    ensures FittingRow(s, Merged(rows[pk], cs)) && PkOf(s, Merged(rows[pk], cs)) == pk
  {
    MergedFits(s, rows[pk], cs);
    RowLength(s, rows[pk]);
    hide FittingRow, ZeroFree, PkOf;
    MergedElsewhere(rows[pk], cs, s.primaryKey);
    PkIs(s, rows[pk]);
    PkIs(s, Merged(rows[pk], cs));
  }

  lemma ValidIsGood(t: Table)
    requires t.Valid()
    ensures Good(t.schema, World(t.rows, t.defs))
  {
  }

  /** One mutation: the reference says what becomes of the rows, and the table survives exactly when it is safe. */
  method Mutate(t: Table, op: Op) returns (a: Answer)
    requires t.Valid() && Formed(t.schema, op) && !op.CreateIndex?
    modifies t`rows, t.engine, t.stores
    ensures Good(t.schema, World(old(t.rows), t.defs))
    ensures (World(t.rows, t.defs), a) == Done(t.schema, World(old(t.rows), t.defs), op)
    ensures t.Valid() <==> Safe(t.schema, World(old(t.rows), t.defs), op)
    ensures Others(t.schema, t.engine.entries) == old(Others(t.schema, t.engine.entries))
  {
    ValidIsGood(t);
    match op
    case Insert(values) => a := t.Insert(values);
    case Upsert(values) => a := t.Upsert(values);
    case Update(pkValues, values) => a := t.UpdateByPk(pkValues, values);
    case UpdateColumns(pkValues, cs) =>
      a := t.UpdateColumns(pkValues, cs);
    case Delete(pkValues) => a := t.DeleteByPk(pkValues);
  }

  lemma NoIndexFits(s: Schema)
    requires s.Valid()
    ensures AllFit(s, [])
  {
  }

  /** Every run keeps every index agreeing with the table and every unique index free of clashes, and answers
      as the reference does. */
  method Run(s: Schema, ops: seq<Op>) returns (answers: seq<Answer>, t: Table, ghost worlds: seq<World>)
    requires s.Valid() && AllSafe(s, World(map[], []), ops)
    ensures |answers| == |ops| && |worlds| == |ops| + 1 && worlds[0] == World(map[], [])
    ensures forall i | 0 <= i < |worlds| :: Good(s, worlds[i])
    ensures forall i | 0 <= i < |ops| ::
              Formed(s, ops[i]) && (worlds[i + 1], answers[i]) == Done(s, worlds[i], ops[i])
    ensures t.Valid() && t.schema == s && World(t.rows, t.defs) == worlds[|ops|]
  {
    hide *;
    NoIndexFits(s);
    var engine := new Engine();
    t := new Table(s, engine, [], []);
    answers, worlds := [], [World(t.rows, t.defs)];
    ValidIsGood(t);
    while |answers| < |ops|
      invariant |answers| <= |ops| && |worlds| == |answers| + 1 && worlds[0] == World(map[], [])
      invariant fresh(t) && fresh(t.engine) && forall i | 0 <= i < |t.stores| :: fresh(t.stores[i])
      invariant t.Valid() && t.schema == s && World(t.rows, t.defs) == worlds[|answers|]
      invariant forall i | 0 <= i < |worlds| :: Good(s, worlds[i])
      invariant forall i | 0 <= i < |answers| ::
                  Formed(s, ops[i]) && (worlds[i + 1], answers[i]) == Done(s, worlds[i], ops[i])
      invariant AllSafe(s, worlds[|answers|], ops[|answers|..])
    {
      var op, a := ops[|answers|], Ok(());
      SafeNext(s, World(t.rows, t.defs), ops[|answers|..]);
      assert ops[|answers|..][1..] == ops[|answers| + 1..];
      var u;
      a, u := Perform(t, op);
      t := u;
      answers, worlds := answers + [a], worlds + [World(t.rows, t.defs)];
    }
  }

  lemma SafeNext(s: Schema, w: World, ops: seq<Op>)
    requires Good(s, w) && AllSafe(s, w, ops) && ops != []
    ensures Formed(s, ops[0]) && Safe(s, w, ops[0]) && Good(s, Done(s, w, ops[0]).0)
    ensures AllSafe(s, Done(s, w, ops[0]).0, ops[1..])
  {
    hide Good, Safe, Done;
    SafeKeepsGood(s, w, ops[0]);
  }

  method Perform(t: Table, op: Op) returns (a: Answer, u: Table)
    requires t.Valid() && Formed(t.schema, op) && Good(t.schema, World(t.rows, t.defs))
    requires Safe(t.schema, World(t.rows, t.defs), op)
    modifies t`rows, t.engine, t.stores
    ensures u.Valid() && u.schema == t.schema && u.engine == t.engine
    ensures Good(t.schema, World(old(t.rows), t.defs)) && Good(t.schema, World(u.rows, u.defs))
    ensures (World(u.rows, u.defs), a) == Done(t.schema, World(old(t.rows), t.defs), op)
    ensures u == t || fresh(u)
    ensures forall i | 0 <= i < |u.stores| :: u.stores[i] in t.stores || fresh(u.stores[i])
  {
    hide Keyed, ClashesNowhere, Represents, Indexed;
    if op.CreateIndex? {
      a, u := Create(t, op.ix);
    } else {
      a := Mutate(t, op);
      u := t;
    }
    ValidIsGood(u);
  }
}
