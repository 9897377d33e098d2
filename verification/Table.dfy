/** Tables: typed rows over a storage engine, with secondary and unique indexes kept up to date. */
module Tables {
  import opened Common
  import opened ByteOrder
  import opened Values
  import opened FixedWidth
  import opened CompositeKeys
  import opened TupleCodec
  import opened StorageEngine
  import opened TableRows
  import opened Constraints
  import opened TableSpec
  import opened TableScans

  class Table {
    const schema: Schema
    const engine: Engine
    const defs: seq<Index>
    const stores: seq<Engine>     // one engine per index
    ghost var rows: Rows

    ghost predicate Shaped() {
      && AllFit(schema, defs) && |stores| == |defs|
      && engine !in stores
      && forall i, j | 0 <= i < j < |stores| :: stores[i] != stores[j]
    }

    /** The engine represents the rows. */
    ghost predicate Held()
      reads this, engine
    {
      Shaped() && Keyed(schema, rows) && Represents(schema, engine.entries, rows)
    }

    /** The engine represents the rows, every index agrees with them, and no unique index is violated. */
    ghost predicate Valid()
      reads this, engine, stores
    {
      && Held()
      && (forall i | 0 <= i < |defs| :: Indexed(schema, defs[i], stores[i].entries, rows))
      && ClashesNowhere(defs, rows)
    }

    /** A new table with empty indexes; the engine may hold rows of other tables. */
    constructor (schema: Schema, engine: Engine, defs: seq<Index>, stores: seq<Engine>)
      requires AllFit(schema, defs) && |stores| == |defs| && engine !in stores
      requires forall i, j | 0 <= i < j < |stores| :: stores[i] != stores[j]
      requires forall k | k in engine.entries :: |k| >= 4 && !(BigEndian(schema.tableId, 4) <= k)
      requires forall i | 0 <= i < |stores| :: stores[i].entries == map[]
      ensures this.schema == schema && this.engine == engine && this.defs == defs && this.stores == stores
      ensures Valid() && rows == map[]
    {
      this.schema, this.engine, this.defs, this.stores := schema, engine, defs, stores;
      rows := map[];
    }

    /** The same rows with other indexes attached, which need not agree with them yet. */
    constructor Over(t: Table, defs: seq<Index>, stores: seq<Engine>)
      requires t.Held() && AllFit(t.schema, defs) && |stores| == |defs| && t.engine !in stores
      requires forall i, j | 0 <= i < j < |stores| :: stores[i] != stores[j]
      ensures schema == t.schema && engine == t.engine && this.defs == defs && this.stores == stores
      ensures Held() && rows == t.rows
    {
      this.schema, this.engine, this.defs, this.stores := t.schema, t.engine, defs, stores;
      rows := t.rows;
    }

    // ---- reading ------------------------------------------------------------------------------

    method GetRow(pk: ByteString) returns (r: Result<Option<Row>, TableError>)
      requires Valid()
      ensures r == Ok(if pk in rows then Some(rows[pk]) else None)
    {
      hide *;
      RowsHeld();
      GetRepresents(schema, engine.entries, rows, pk);
      var blob := engine.Get(RowKey(schema.tableId, pk));
      if blob.None? {
        return Ok(None);
      }
      var row := DecodeRow(Types(schema), blob.value);
      if row.Err? {
        return Err(Corrupted);
      }
      r := Ok(Some(row.value));
    }

    /** `get_projection`: reads the requested columns of the stored row without decoding the others. */
    method GetProjection(pk: ByteString, cols: seq<nat>) returns (r: Result<Option<Row>, TableError>)
      requires Held()
      ensures pk !in rows ==> r == Ok(None)
      ensures pk in rows && !InRange(cols, |schema.columns|) ==> r == Err(Corrupted)
      ensures pk in rows && InRange(cols, |schema.columns|) ==>
                |rows[pk]| == |schema.columns| && r == Ok(Some(Project(rows[pk], cols)))
    {
      hide Keyed, Represents, RowKey, DecodeTuple, Column, FittingRow, ZeroFree;
      GetRepresents(schema, engine.entries, rows, pk);
      var blob := engine.Get(RowKey(schema.tableId, pk));
      if blob.None? {
        return Ok(None);
      }
      var out: Row := [];
      for i := 0 to |cols|
        invariant |out| == i && InRange(cols[..i], |schema.columns|)
        invariant |rows[pk]| == |schema.columns| || i == 0
        invariant forall j | 0 <= j < i :: |rows[pk]| == |schema.columns| && out[j] == rows[pk][cols[j]]
      {
        var value := DecodeColumn(Types(schema), blob.value, cols[i]);
        StoredColumn(schema, rows[pk], blob.value, cols[i]);
        if value.Err? {
          return Err(Corrupted);
        }
        out := out + [value.value];
      }
      StoredColumn(schema, rows[pk], blob.value, 0);
      assert cols[..|cols|] == cols;
      assert out == Project(rows[pk], cols);
      r := Ok(Some(out));
    }

    lemma RowsHeld()
      requires Valid()
      ensures Held() && Shaped() && schema.Valid() && Keyed(schema, rows) && Represents(schema, engine.entries, rows)
    {
    }

    // ---- index maintenance ----------------------------------------------------------------------

    /** `build_index_key`. */
    method BuildIndexKey(i: nat, row: Row) returns (r: Result<ByteString, TableError>)
      requires Shaped() && i < |defs| && FittingRow(schema, row)
      ensures r == if EntryGood(schema, defs[i], row) then Ok(EntryOf(schema, defs[i], row)) else Err(Corrupted)
    {
      var cols := defs[i].columns + schema.primaryKey;
      assert Fit(schema, defs[i]);
      ColumnsEncode(schema, row, cols);
      GoodParts(schema, defs[i], row);
      hide FittingRow, EntryGood, GoodOn, Encode, Columns;
      var key := EncodeKeyComponents(Project(row, cols), Project(Types(schema), cols));
      r := if key.Ok? then Ok(key.value) else Err(Corrupted);
    }

    /** `put_index_entries`. */
    method PutIndexEntries(row: Row)
      requires Shaped() && GoodRow(schema, row)
      modifies stores
      ensures forall i | 0 <= i < |stores| ::
                stores[i].entries == old(stores[i].entries)[EntryOf(schema, defs[i], row) := []]
    {
      hide FittingRow, ZeroFree, EntryOf;
      for i := 0 to |defs|
        invariant forall j | 0 <= j < i ::
                    stores[j].entries == old(stores[j].entries)[EntryOf(schema, defs[j], row) := []]
        invariant forall j | i <= j < |stores| :: stores[j].entries == old(stores[j].entries)
      {
        EntryAlwaysGood(schema, defs[i], row);
        var key := BuildIndexKey(i, row);
        stores[i].Put(key.value, []);
      }
    }

    /** `delete_index_entries`; the entry is always there. */
    method DeleteIndexEntries(row: Row)
      requires Shaped() && GoodRow(schema, row)
      requires forall i | 0 <= i < |stores| :: EntryOf(schema, defs[i], row) in stores[i].entries
      modifies stores
      ensures forall i | 0 <= i < |stores| ::
                stores[i].entries == old(stores[i].entries) - {EntryOf(schema, defs[i], row)}
    {
      hide FittingRow, ZeroFree, EntryOf;
      for i := 0 to |defs|
        invariant forall j | 0 <= j < i ::
                    stores[j].entries == old(stores[j].entries) - {EntryOf(schema, defs[j], row)}
        invariant forall j | i <= j < |stores| :: stores[j].entries == old(stores[j].entries)
      {
        EntryAlwaysGood(schema, defs[i], row);
        var key := BuildIndexKey(i, row);
        assert key.value in stores[i].entries;
        stores[i].Delete(key.value);
      }
    }

    // ---- unique indexes ---------------------------------------------------------------------------

    /** The round of `check_unique_indexes` for one index. */
    method CheckUniqueIndex(i: nat, row: Row) returns (r: Answer)
      requires Valid() && i < |defs| && FittingRow(schema, row) && defs[i].unique && NoNulls(Project(row, defs[i].columns))
      ensures r ==
        if !EntryGood(schema, defs[i], row) then Err(Corrupted)
        else if Taken(schema, defs[i], rows, row) then Err(UniqueViolation(i))
        else Ok(())
    {
      assert Fit(schema, defs[i]) && Indexed(schema, defs[i], stores[i].entries, rows);
      var cols := defs[i].columns;
      ColumnsEncode(schema, row, cols);
      hide Valid, Encode, Columns, EntryOf, PkOf, Keyed, Indexed, FittingRow, GoodOn;
      RowsHeld();
      var prefix := EncodeKeyComponents(Project(row, cols), Project(Types(schema), cols));
      if prefix.Err? {
        return Err(Corrupted);
      }
      var self := BuildIndexKey(i, row);
      if self.Err? {
        return Err(Corrupted);
      }
      var upper := PrefixIncrement(prefix.value);
      var ks := stores[i].ScanRange(prefix.value, upper);
      ScanIsPrefix(stores[i].entries, prefix.value, ks);
      ForeignEntry(schema, defs[i], stores[i].entries, rows, row);
      r := FirstForeign(ks, prefix.value, self.value, i);
    }

    /** The scan of one index: the first entry that is not the row's own decides. */
    static method FirstForeign(ks: seq<ByteString>, prefix: ByteString, self: ByteString, i: nat) returns (r: Answer)
      requires forall k | k in ks :: prefix <= k
      ensures r == if exists k :: k in ks && k != self then Err(UniqueViolation(i)) else Ok(())
    {
      var j := 0;
      while j < |ks|
        invariant 0 <= j <= |ks|
        invariant forall x | 0 <= x < j :: ks[x] == self
      {
        assert ks[j] in ks;
        if !(prefix <= ks[j]) {
          break;
        }
        if ks[j] != self {
          return Err(UniqueViolation(i));
        }
        j := j + 1;
      }
      r := Ok(());
    }

    /** `check_unique_indexes`: the first index that objects decides. */
    method CheckUniqueIndexes(row: Row) returns (r: Answer)
      requires Valid() && FittingRow(schema, row)
      ensures r == UniqueVerdict(schema, defs, rows, row, 0)
    {
      hide Valid, FittingRow, Taken, EntryGood;
      RowsHeld();
      for i := 0 to |defs|
        invariant UniqueVerdict(schema, defs, rows, row, 0) == UniqueVerdict(schema, defs, rows, row, i)
      {
        assert Fit(schema, defs[i]);
        RowLength(schema, row);
        var components := Project(row, defs[i].columns);
        if !defs[i].unique || exists k | 0 <= k < |components| :: components[k].Null? {
          continue;
        }
        r := CheckUniqueIndex(i, row);
        if r.Err? {
          return;
        }
      }
      r := Ok(());
    }

    // ---- mutations --------------------------------------------------------------------------------------

    /** `put_row`: nothing is written unless the whole row encodes. */
    method PutRow(pk: ByteString, row: Row) returns (r: Answer)
      requires FittingRow(schema, row)
      modifies engine
      ensures r == if ZeroFree(row) then Ok(()) else Err(Corrupted)
      ensures r.Ok? ==> engine.entries == old(engine.entries)[RowKey(schema.tableId, pk) := BlobOf(schema, row)]
      ensures r.Err? ==> engine.entries == old(engine.entries)
      ensures Others(schema, engine.entries) == old(Others(schema, engine.entries))
    {
      BlobFails(schema, row);
      hide *;
      var blob := EncodeRow(Types(schema), row);
      if blob.Err? {
        return Err(Corrupted);
      }
      OthersKept(schema, engine.entries, pk, blob.value);
      engine.Put(RowKey(schema.tableId, pk), blob.value);
      r := Ok(());
    }

    method EncodePk(row: Row) returns (r: Result<ByteString, TableError>)
      requires schema.Valid() && FittingRow(schema, row)
      ensures r == if GoodOn(schema, row, schema.primaryKey) then Ok(PkOf(schema, row)) else Err(Corrupted)
    {
      ColumnsEncode(schema, row, schema.primaryKey);
      hide FittingRow, GoodOn, Encode, Columns;
      var key := EncodeKeyComponents(Project(row, schema.primaryKey), Project(Types(schema), schema.primaryKey));
      r := if key.Ok? then Ok(key.value) else Err(Corrupted);
    }

    /** Nothing that is stored has changed. */
    twostate predicate Untouched()
      reads this, engine, stores
    {
      && rows == old(rows) && engine.entries == old(engine.entries)
      && forall i | 0 <= i < |stores| :: stores[i].entries == old(stores[i].entries)
    }

    /** `insert`.  An error leaves everything as it was. */
    method Insert(values: Row) returns (r: Answer)
      requires Valid()
      modifies this`rows, engine, stores
      ensures Valid() && (r.Err? ==> Untouched())
      ensures match Validate(schema, values)
              case Err(e) => r == Err(Constraint(e))
              case Ok(row) => FittingRow(schema, row) && (rows, r) == Inserted(schema, defs, old(rows), row)
      ensures Others(schema, engine.entries) == old(Others(schema, engine.entries))
    {
      var v := Validate(schema, values);
      if v.Err? {
        return Err(Constraint(v.error));
      }
      ValidateFits(schema, values);
      hide *;
      r := InsertValid(v.value);
    }

    method InsertValid(row: Row) returns (r: Answer)
      requires Valid() && FittingRow(schema, row)
      modifies this`rows, engine, stores
      ensures Valid() && (r.Err? ==> Untouched())
      ensures (rows, r) == Inserted(schema, defs, old(rows), row)
      ensures Others(schema, engine.entries) == old(Others(schema, engine.entries))
    {
      hide FittingRow, GoodOn, Valid, UniqueVerdict, StoredRow, PkOf, Keyed, Represents, AllFit;
      RowsHeld();
      var pk := EncodePk(row);
      if pk.Err? {
        return Err(pk.error);
      }
      var prior := GetRow(pk.value);
      if prior.value.Some? {
        return Err(DuplicateKey);
      }
      r := CheckUniqueIndexes(row);
      if r.Err? {
        return;
      }
      r := AddRow(pk.value, row);
    }

    /** The writes of `insert`, once all its checks have passed. */
    method AddRow(pk: ByteString, row: Row) returns (r: Answer)
      requires Valid() && FittingRow(schema, row) && pk == PkOf(schema, row) && pk !in rows
      requires UniqueVerdict(schema, defs, rows, row, 0).Ok?
      modifies this`rows, engine, stores
      ensures Valid() && (r.Err? ==> Untouched())
      ensures (rows, r) == StoredRow(old(rows), pk, row)
      ensures Others(schema, engine.entries) == old(Others(schema, engine.entries))
    {
      hide FittingRow, ZeroFree, UniqueVerdict, Keyed, Represents, Indexed, ClashesNowhere, PkOf, EntryOf, BlobOf, RowKey;
      r := PutRow(pk, row);
      if r.Err? {
        return;
      }
      PutIndexEntries(row);
      StoreKeeps(schema, defs, rows, row);
      StoredEverywhere(row);
      rows := rows[pk := row];
    }

    /** The row has been written to the engine and its entries to every index, those of the row it replaces
        having been removed. */
    twostate lemma StoredEverywhere(row: Row)
      requires old(Valid()) && rows == old(rows) && GoodRow(schema, row)
      requires engine.entries == old(engine.entries)[RowKey(schema.tableId, PkOf(schema, row)) := BlobOf(schema, row)]
      requires forall i | 0 <= i < |stores| ::
                 stores[i].entries == EntriesFor(i, old(stores[i].entries), row)
      ensures var rows' := rows[PkOf(schema, row) := row];
        && Keyed(schema, rows') && Represents(schema, engine.entries, rows')
        && forall i | 0 <= i < |defs| :: Indexed(schema, defs[i], stores[i].entries, rows')
    {
      hide FittingRow, ZeroFree, Represents, Indexed, ClashesNowhere, PkOf, EntryOf, BlobOf, RowKey, EntriesFor;
      PutRepresents(schema, old(engine.entries), rows, row);
      forall i | 0 <= i < |defs|
        ensures Indexed(schema, defs[i], stores[i].entries, rows[PkOf(schema, row) := row])
      {
        EntriesForIndexed(i, old(stores[i].entries), row);
      }
    }

    /** What index `i` holds once `row` has replaced the row under its primary key. */
    ghost function EntriesFor(i: nat, m: map<ByteString, ByteString>, row: Row): map<ByteString, ByteString>
      requires Shaped() && i < |defs| && FittingRow(schema, row) && Keyed(schema, rows)
      reads this
    {
      var pk := PkOf(schema, row);
      var rest := if pk in rows then m - {EntryOf(schema, defs[i], rows[pk])} else m;
      rest[EntryOf(schema, defs[i], row) := []]
    }

    lemma EntriesForIndexed(i: nat, m: map<ByteString, ByteString>, row: Row)
      requires Shaped() && i < |defs| && GoodRow(schema, row) && Keyed(schema, rows) && Indexed(schema, defs[i], m, rows)
      ensures Keyed(schema, rows[PkOf(schema, row) := row])
      ensures Indexed(schema, defs[i], EntriesFor(i, m, row), rows[PkOf(schema, row) := row])
    {
      hide FittingRow, ZeroFree, Indexed, PkOf, EntryOf;
      var pk := PkOf(schema, row);
      if pk in rows {
        EntryDrop(schema, defs[i], m, rows, pk);
        EntryPut(schema, defs[i], m - {EntryOf(schema, defs[i], rows[pk])}, rows - {pk}, row);
        assert (rows - {pk})[pk := row] == rows[pk := row];
      } else {
        EntryPut(schema, defs[i], m, rows, row);
      }
    }

    /** `upsert`.  An error leaves everything as it was, except that an upsert that `LosesEntries` has already
        removed the index entries of the row it was to replace, and so leaves the indexes disagreeing. */
    method Upsert(values: Row) returns (r: Answer)
      requires Valid()
      modifies this`rows, engine, stores
      ensures match Validate(schema, values)
              case Err(e) => r == Err(Constraint(e)) && Valid() && Untouched()
              case Ok(row) =>
                && FittingRow(schema, row) && (rows, r) == Upserted(schema, defs, old(rows), row)
                && (Valid() <==> !LosesEntries(schema, defs, old(rows), row))
                && (r.Err? && Valid() ==> Untouched())
      ensures Others(schema, engine.entries) == old(Others(schema, engine.entries))
    {
      var v := Validate(schema, values);
      if v.Err? {
        return Err(Constraint(v.error));
      }
      ValidateFits(schema, values);
      hide *;
      r := UpsertValid(v.value);
    }

    method UpsertValid(row: Row) returns (r: Answer)
      requires Valid() && FittingRow(schema, row)
      modifies this`rows, engine, stores
      ensures (rows, r) == Upserted(schema, defs, old(rows), row)
      ensures Valid() <==> !LosesEntries(schema, defs, old(rows), row)
      ensures r.Err? && Valid() ==> Untouched()
      ensures Others(schema, engine.entries) == old(Others(schema, engine.entries))
    {
      hide FittingRow, ZeroFree, GoodOn, Valid, UniqueVerdict, PkOf, Keyed, Represents, AllFit;
      RowsHeld();
      var pk := EncodePk(row);
      if pk.Err? {
        return Err(pk.error);
      }
      r := CheckUniqueIndexes(row);
      if r.Err? {
        return;
      }
      r := WriteOver(pk.value, row);
    }

    /** The writes of `upsert`: the old entries go before it is known that the new row encodes. */
    method WriteOver(pk: ByteString, row: Row) returns (r: Answer)
      requires Valid() && FittingRow(schema, row) && pk == PkOf(schema, row)
      requires UniqueVerdict(schema, defs, rows, row, 0).Ok?
      modifies this`rows, engine, stores
      ensures (rows, r) == StoredRow(old(rows), pk, row)
      ensures Valid() <==> ZeroFree(row) || defs == [] || pk !in old(rows)
      ensures r.Err? && Valid() ==> Untouched()
      ensures Others(schema, engine.entries) == old(Others(schema, engine.entries))
    {
      hide FittingRow, ZeroFree, UniqueVerdict, Keyed, Represents, Indexed, ClashesNowhere, PkOf, EntryOf, BlobOf, RowKey;
      if defs != [] {
        var prior := GetRow(pk);
        if prior.value.Some? {
          EntriesThere(prior.value.value, pk);
          DeleteIndexEntries(prior.value.value);
        }
      }
      r := PutRow(pk, row);
      if r.Err? {
        if defs != [] && pk in rows { EntryMissing(0, pk); }
        return;
      }
      PutIndexEntries(row);
      StoreKeeps(schema, defs, rows, row);
      StoredEverywhere(row);
      rows := rows[pk := row];
    }

    /** Every row's entry is in every index. */
    lemma EntriesThere(row: Row, pk: ByteString)
      requires Valid() && pk in rows && row == rows[pk]
      ensures GoodRow(schema, row)
      ensures forall i | 0 <= i < |stores| :: EntryOf(schema, defs[i], row) in stores[i].entries
    {
      hide FittingRow, ZeroFree, PkOf, EntryOf, Represents, ClashesNowhere;
      forall i | 0 <= i < |stores| ensures EntryOf(schema, defs[i], row) in stores[i].entries {
        assert Indexed(schema, defs[i], stores[i].entries, rows);
      }
    }

    lemma EntryMissing(i: nat, pk: ByteString)
      requires Shaped() && i < |defs| && Keyed(schema, rows) && pk in rows
      requires EntryOf(schema, defs[i], rows[pk]) !in stores[i].entries
      ensures !Valid()
    {
      hide FittingRow, ZeroFree, PkOf, EntryOf, Represents, ClashesNowhere;
    }

    method EncodePkComponents(vs: seq<Value>) returns (r: Result<ByteString, TableError>)
      requires schema.Valid()
      ensures r == PkKey(schema, vs)
    {
      if |vs| != |schema.primaryKey| {
        return Err(Corrupted);
      }
      var key := EncodeKeyComponents(vs, Project(Types(schema), schema.primaryKey));
      r := if key.Ok? then Ok(key.value) else Err(Corrupted);
    }

    /** `update_row`: the row must be there, and nothing is written unless the new one encodes. */
    method UpdateRow(pk: ByteString, row: Row) returns (r: Answer)
      requires Valid() && FittingRow(schema, row)
      modifies engine
      ensures r == if pk !in rows then Err(RowNotFound) else if ZeroFree(row) then Ok(()) else Err(Corrupted)
      ensures r.Ok? ==> engine.entries == old(engine.entries)[RowKey(schema.tableId, pk) := BlobOf(schema, row)]
      ensures r.Err? ==> engine.entries == old(engine.entries)
      ensures Others(schema, engine.entries) == old(Others(schema, engine.entries))
    {
      hide *;
      RowsHeld();
      GetRepresents(schema, engine.entries, rows, pk);
      var prior := engine.Get(RowKey(schema.tableId, pk));
      if prior.None? {
        return Err(RowNotFound);
      }
      r := PutRow(pk, row);
    }

    /** A row stored under another row's primary key breaks the table. */
    lemma KeyMoved(pk: ByteString)
      requires schema.Valid() && pk in rows && FittingRow(schema, rows[pk]) && PkOf(schema, rows[pk]) != pk
      ensures !Valid()
    {
      hide FittingRow, ZeroFree, PkOf, Represents, Indexed, ClashesNowhere;
    }

    /** `update_by_pk`.  An error leaves everything as it was.  Whether the new row keeps the primary key is not
        looked at, and the table survives a successful update exactly when it does. */
    method UpdateByPk(pkValues: seq<Value>, values: Row) returns (r: Answer)
      requires Valid()
      modifies this`rows, engine, stores
      ensures r.Err? ==> Valid() && Untouched()
      ensures match Validate(schema, values)
              case Err(e) => r == Err(Constraint(e))
              case Ok(row) =>
                match PkKey(schema, pkValues)
                case Err(e) => r == Err(e)
                case Ok(pk) =>
                  && FittingRow(schema, row) && (rows, r) == Updated(schema, defs, old(rows), pk, row)
                  && (r.Ok? ==> (Valid() <==> PkOf(schema, row) == pk))
      ensures Others(schema, engine.entries) == old(Others(schema, engine.entries))
    {
      hide Valid, Validate, FittingRow, PkKey, PkOf, Keyed, Represents, AllFit, Updated;
      RowsHeld();
      var v := Validate(schema, values);
      if v.Err? {
        return Err(Constraint(v.error));
      }
      ValidateFits(schema, values);
      var pk := EncodePkComponents(pkValues);
      if pk.Err? {
        return Err(pk.error);
      }
      r := UpdateValid(pk.value, v.value);
    }

    method UpdateValid(pk: ByteString, row: Row) returns (r: Answer)
      requires Valid() && FittingRow(schema, row)
      modifies this`rows, engine, stores
      ensures r.Err? ==> Valid() && Untouched()
      ensures r.Ok? ==> (Valid() <==> PkOf(schema, row) == pk)
      ensures (rows, r) == Updated(schema, defs, old(rows), pk, row)
      ensures Others(schema, engine.entries) == old(Others(schema, engine.entries))
    {
      hide FittingRow, ZeroFree, UniqueVerdict, Keyed, Represents, Indexed, ClashesNowhere, PkOf, EntryOf, BlobOf, RowKey;
      var prior := None;
      if defs != [] {
        var found := GetRow(pk);
        prior := found.value;
        if prior.Some? { EntriesThere(prior.value, pk); }
      }
      r := CheckUniqueIndexes(row);
      if r.Err? {
        return;
      }
      r := UpdateRow(pk, row);
      if r.Err? {
        return;
      }
      if prior.Some? {
        DeleteIndexEntries(prior.value);
      }
      PutIndexEntries(row);
      if PkOf(schema, row) == pk {
        StoreKeeps(schema, defs, rows, row);
        StoredEverywhere(row);
      }
      rows := rows[pk := row];
      if PkOf(schema, row) != pk { KeyMoved(pk); }
    }

    /** The layout's `update_columns`: reads the row again, merges and writes it back. */
    method LayoutUpdateColumns(pk: ByteString, cs: seq<Change>) returns (r: Answer)
      requires Valid() && ChangesInRange(schema, cs) && AcceptableChanges(schema, cs)
      modifies engine
      ensures pk !in rows ==> r == Err(RowNotFound)
      ensures pk in rows ==>
                var row := MergedAt(pk, cs);
                && r == (if ZeroFree(row) then Ok(()) else Err(Corrupted))
                && (r.Ok? ==> engine.entries == old(engine.entries)[RowKey(schema.tableId, pk) := BlobOf(schema, row)])
      ensures r.Err? ==> engine.entries == old(engine.entries)
      ensures Others(schema, engine.entries) == old(Others(schema, engine.entries))
    {
      hide FittingRow, ZeroFree, Represents, Indexed, ClashesNowhere, PkOf, EntryOf, BlobOf, RowKey;
      var prior := GetRow(pk);
      if prior.value.None? {
        return Err(RowNotFound);
      }
      RowLength(schema, rows[pk]);
      var row := Merge(prior.value.value, cs);
      assert row == MergedAt(pk, cs);
      r := PutRow(pk, row);
    }

    /** The row at `pk` with the changes merged in. */
    ghost function MergedAt(pk: ByteString, cs: seq<Change>): (row: Row)
      requires schema.Valid() && Keyed(schema, rows) && pk in rows
      requires ChangesInRange(schema, cs) && AcceptableChanges(schema, cs)
      reads this
      ensures FittingRow(schema, row)
    {
      MergedFits(schema, rows[pk], cs);
      Merged(rows[pk], cs)
    }

    /** `update_columns`.  An error leaves everything as it was, and the table survives a successful update
        exactly when the changes keep the primary key. */
    method UpdateColumns(pkValues: seq<Value>, cs: seq<Change>) returns (r: Answer)
      requires Valid() && ChangesInRange(schema, cs)
      modifies this`rows, engine, stores
      ensures r.Err? ==> Valid() && Untouched()
      ensures !AcceptableChanges(schema, cs) ==> r == Err(Constraint(FirstBad(schema, cs).value))
      ensures AcceptableChanges(schema, cs) ==>
                match PkKey(schema, pkValues)
                case Err(e) => r == Err(e)
                case Ok(pk) =>
                  && (rows, r) == ColumnsUpdated(schema, defs, old(rows), pk, cs)
                  && (r.Ok? ==> pk in old(rows) && (Valid() <==> PkOf(schema, old(MergedAt(pk, cs))) == pk))
      ensures Others(schema, engine.entries) == old(Others(schema, engine.entries))
    {
      hide AcceptableChanges, Valid, Keyed, PkKey, PkOf, ColumnsUpdated, MergedAt, Represents, AllFit;
      RowsHeld();
      var bad := CheckChanges(schema, cs);
      if bad.Some? {
        return Err(Constraint(bad.value));
      }
      var pk := EncodePkComponents(pkValues);
      if pk.Err? {
        return Err(pk.error);
      }
      r := UpdateColumnsAt(pk.value, cs);
    }

    method UpdateColumnsAt(pk: ByteString, cs: seq<Change>) returns (r: Answer)
      requires Valid() && ChangesInRange(schema, cs) && AcceptableChanges(schema, cs)
      modifies this`rows, engine, stores
      ensures r.Err? ==> Valid() && Untouched()
      ensures r.Ok? ==> pk in old(rows) && (Valid() <==> PkOf(schema, old(MergedAt(pk, cs))) == pk)
      ensures (rows, r) == ColumnsUpdated(schema, defs, old(rows), pk, cs)
      ensures Others(schema, engine.entries) == old(Others(schema, engine.entries))
    {
      hide FittingRow, ZeroFree, UniqueVerdict, Represents, Indexed, ClashesNowhere, PkOf, EntryOf, BlobOf, RowKey,
           AcceptableChanges, GoodOn;
      if pk in rows {
        RowLength(schema, rows[pk]);
        ColumnsUpdatedIs(schema, defs, rows, pk, cs, MergedAt(pk, cs));
        if defs == [] { NothingUnique(schema, rows, MergedAt(pk, cs)); }
      }
      var prior := None;
      if defs != [] {
        var found := GetRow(pk);
        prior := found.value;
        if prior.Some? { EntriesThere(prior.value, pk); }
      }
      var row: Row := [];
      if prior.Some? {
        row := Merge(prior.value, cs);
        assert row == MergedAt(pk, cs);
        r := CheckUniqueIndexes(row);
        if r.Err? {
          return;
        }
      }
      r := LayoutUpdateColumns(pk, cs);
      if r.Err? {
        return;
      }
      if prior.Some? {
        DeleteIndexEntries(prior.value);
        PutIndexEntries(row);
      }
      if PkOf(schema, MergedAt(pk, cs)) == pk {
        StoreKeeps(schema, defs, rows, MergedAt(pk, cs));
        StoredEverywhere(MergedAt(pk, cs));
      }
      rows := rows[pk := MergedAt(pk, cs)];
      if PkOf(schema, rows[pk]) != pk { KeyMoved(pk); }
    }

    /** `delete_by_pk`: succeeds whether the row was there or not. */
    method DeleteByPk(pkValues: seq<Value>) returns (r: Answer)
      requires Valid()
      modifies this`rows, engine, stores
      ensures Valid() && (r.Err? ==> Untouched())
      ensures match PkKey(schema, pkValues)
              case Err(e) => r == Err(e)
              case Ok(pk) => r == Ok(()) && rows == old(rows) - {pk}
      ensures Others(schema, engine.entries) == old(Others(schema, engine.entries))
    {
      hide Valid, PkKey, Keyed, Represents, AllFit;
      RowsHeld();
      var pk := EncodePkComponents(pkValues);
      if pk.Err? {
        return Err(pk.error);
      }
      DeleteAt(pk.value);
      r := Ok(());
    }

    method DeleteAt(pk: ByteString)
      requires Valid()
      modifies this`rows, engine, stores
      ensures Valid() && rows == old(rows) - {pk}
      ensures Others(schema, engine.entries) == old(Others(schema, engine.entries))
    {
      hide FittingRow, ZeroFree, Keyed, Represents, Indexed, ClashesNowhere, PkOf, EntryOf, BlobOf, RowKey;
      var prior := None;
      if defs != [] {
        var found := GetRow(pk);
        prior := found.value;
        if prior.Some? { EntriesThere(prior.value, pk); }
      }
      OthersKept(schema, engine.entries, pk, []);
      engine.Delete(RowKey(schema.tableId, pk));
      if prior.Some? {
        DeleteIndexEntries(prior.value);
      }
      DeleteKeeps(schema, defs, rows, pk);
      RemovedEverywhere(pk);
      rows := rows - {pk};
    }

    twostate lemma RemovedEverywhere(pk: ByteString)
      requires old(Valid()) && rows == old(rows)
      requires engine.entries == old(engine.entries) - {RowKey(schema.tableId, pk)}
      requires forall i | 0 <= i < |stores| ::
                 stores[i].entries ==
                 if pk in rows then old(stores[i].entries) - {EntryOf(schema, defs[i], rows[pk])} else old(stores[i].entries)
      ensures Keyed(schema, rows - {pk}) && Represents(schema, engine.entries, rows - {pk})
      ensures forall i | 0 <= i < |defs| :: Indexed(schema, defs[i], stores[i].entries, rows - {pk})
    {
      hide FittingRow, ZeroFree, Represents, Indexed, ClashesNowhere, PkOf, EntryOf, RowKey;
      DeleteRepresents(schema, old(engine.entries), rows, pk);
      forall i | 0 <= i < |defs| ensures Indexed(schema, defs[i], stores[i].entries, rows - {pk}) {
        if pk in rows {
          EntryDrop(schema, defs[i], old(stores[i].entries), rows, pk);
        } else {
          assert rows - {pk} == rows;
        }
      }
    }

    method GetByPk(pkValues: seq<Value>) returns (r: Result<Option<Row>, TableError>)
      requires Valid()
      ensures match PkKey(schema, pkValues)
              case Err(e) => r == Err(e)
              case Ok(pk) => r == Ok(if pk in rows then Some(rows[pk]) else None)
    {
      hide Valid, PkKey, Keyed, Represents, AllFit;
      RowsHeld();
      var pk := EncodePkComponents(pkValues);
      if pk.Err? {
        return Err(pk.error);
      }
      r := GetRow(pk.value);
    }

    // ---- scans ----------------------------------------------------------------------------------------

    /** Decodes the rows under the given storage keys. */
    method DecodeRows(ks: seq<ByteString>, ghost pks: seq<ByteString>) returns (r: Result<seq<Row>, TableError>)
      requires Held() && |pks| == |ks|
      requires forall i | 0 <= i < |ks| :: pks[i] in rows && ks[i] == RowKey(schema.tableId, pks[i])
      ensures r.Ok? && |r.value| == |pks| && forall i | 0 <= i < |pks| :: r.value[i] == rows[pks[i]]
    {
      hide Keyed, Represents, RowKey, DecodeTuple;
      var out: seq<Row> := [];
      for i := 0 to |ks|
        invariant |out| == i && forall j | 0 <= j < i :: out[j] == rows[pks[j]]
      {
        GetRepresents(schema, engine.entries, rows, pks[i]);
        var row := DecodeRow(Types(schema), engine.entries[ks[i]]);
        if row.Err? {
          return Err(Corrupted);
        }
        out := out + [row.value];
      }
      r := Ok(out);
    }

    /** `scan`: every row once, in ascending order of encoded primary key.  The last table id has no
        upper bound to scan to, and fails. */
    method Scan() returns (r: Result<seq<Row>, TableError>, ghost pks: seq<ByteString>)
      requires Held()
      ensures r.Err? <==> schema.tableId == 0xFFFF_FFFF
      ensures r.Err? ==> r.error == Corrupted
      ensures r.Ok? ==> IsScan(rows, [], None, pks) && Lists(rows, pks, r.value)
    {
      hide Keyed, Represents, RowKey;
      if schema.tableId == 0xFFFF_FFFF {
        return Err(Corrupted), [];
      }
      var ks := engine.ScanRange(RowKey(schema.tableId, []), Some(RowKey(schema.tableId + 1, [])));
      pks := TableScan(schema, engine.entries, rows, ks);
      r := DecodeRows(ks, pks);
    }

    /** `scan_range`: the rows with encoded primary key from the first bound up to, but not at, the second. */
    method ScanRange(pkStart: seq<Value>, pkEnd: seq<Value>)
      returns (r: Result<seq<Row>, TableError>, ghost pks: seq<ByteString>)
      requires Held()
      ensures r.Err? <==> PkKey(schema, pkStart).Err? || PkKey(schema, pkEnd).Err?
      ensures r.Ok? ==> IsScan(rows, PkKey(schema, pkStart).value, Some(PkKey(schema, pkEnd).value), pks)
      ensures r.Ok? ==> Lists(rows, pks, r.value)
    {
      hide Keyed, Represents, RowKey, PkKey;
      var low := EncodePkComponents(pkStart);
      if low.Err? {
        return Err(low.error), [];
      }
      var high := EncodePkComponents(pkEnd);
      if high.Err? {
        return Err(high.error), [];
      }
      var ks := engine.ScanRange(RowKey(schema.tableId, low.value), Some(RowKey(schema.tableId, high.value)));
      pks := RangeScan(schema, engine.entries, rows, low.value, high.value, ks);
      r := DecodeRows(ks, pks);
    }

    // ---- creating an index over existing rows -----------------------------------------------------------

    /** `assert_unique_feasible`: succeeds exactly when no two rows clash on the given columns. */
    method AssertUniqueFeasible(cols: seq<nat>) returns (r: Answer)
      requires Held() && InRange(cols, |schema.columns|)
      ensures schema.tableId == 0xFFFF_FFFF ==> r == Err(Corrupted)
      ensures schema.tableId != 0xFFFF_FFFF ==>
                r == if ClashFree(Index(cols, true), rows) then Ok(()) else Err(UniqueViolation(|defs|))
    {
      hide FittingRow, ZeroFree, PkOf, Represents, Clash, NoNulls, Project, Columns, Encode, ClashFree, IsScan;
      var out, pks := Scan();
      if out.Err? {
        return Err(out.error);
      }
      var seen: set<ByteString> := {};
      for i := 0 to |out.value|
        invariant SeenSoFar(schema, cols, out.value, i, seen)
      {
        hide SeenSoFar;
        var row := out.value[i];
        RowLength(schema, row);
        NoNullsIs(Project(row, cols));
        if exists k | 0 <= k < |cols| :: Project(row, cols)[k].Null? {
          SeenNull(schema, cols, out.value, i, seen);
          continue;
        }
        FeasibleStep(schema, cols, row);
        SeenNext(schema, cols, out.value, i, seen);
        var key := EncodeKeyComponents(Project(row, cols), Project(Types(schema), cols));
        if key.value in seen {
          ghost var j :| 0 <= j < i && Clash(Index(cols, true), out.value[j], row);
          ListedClash(Index(cols, true), rows, pks, out.value, j, i);
          return Err(UniqueViolation(|defs|));
        }
        seen := seen + {key.value};
      }
      AllPairs(Index(cols, true), rows, pks, out.value);
      r := Ok(());
    }

    /** `backfill_indexes`: fresh indexes come to hold exactly the entries of the existing rows. */
    method BackfillIndexes() returns (r: Result<nat, TableError>)
      requires Held() && forall i | 0 <= i < |stores| :: stores[i].entries == map[]
      modifies stores
      ensures schema.tableId == 0xFFFF_FFFF ==> r == Err(Corrupted)
      ensures schema.tableId != 0xFFFF_FFFF ==>
                r == Ok(|rows|) && forall i | 0 <= i < |defs| :: Indexed(schema, defs[i], stores[i].entries, rows)
      ensures Held() && (r.Ok? && ClashesNowhere(defs, rows) ==> Valid())
    {
      hide FittingRow, ZeroFree, PkOf, EntryOf, Represents, Indexed, ClashesNowhere;
      var out, pks := Scan();
      if out.Err? {
        return Err(out.error);
      }
      var n := 0;
      forall i | 0 <= i < |defs| ensures Indexed(schema, defs[i], stores[i].entries, Part(rows, pks, 0)) {
        EmptyIndexed(schema, defs[i], rows, pks);
      }
      while n < |out.value|
        invariant n <= |out.value| && Held() && Keyed(schema, Part(rows, pks, n))
        invariant forall i | 0 <= i < |defs| :: Indexed(schema, defs[i], stores[i].entries, Part(rows, pks, n))
      {
        ghost var row := out.value[n];
        PartNext(schema, rows, pks, n);
        forall i | 0 <= i < |defs|
          ensures Indexed(schema, defs[i], stores[i].entries[EntryOf(schema, defs[i], row) := []], Part(rows, pks, n + 1))
        {
          EntryPut(schema, defs[i], stores[i].entries, Part(rows, pks, n), row);
        }
        PutIndexEntries(out.value[n]);
        n := n + 1;
      }
      PartAll(rows, pks);
      ScanSize(rows, pks);
      r := Ok(n);
    }
  }
}
