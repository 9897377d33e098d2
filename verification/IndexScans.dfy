/** Equality lookups through a secondary index, on all or only the leading ones of its columns. */
module IndexScans {
  import opened Common
  import opened ByteOrder
  import opened Values
  import opened KeyEncoding
  import opened CompositeKeys
  import opened StorageEngine
  import opened TableRows
  import opened TableSpec
  import opened TableScans
  import opened Tables

  datatype LookupError = Arity | Storage(error: TableError)

  function LeadingTypes(s: Schema, ix: Index, n: nat): (tys: seq<ColumnType>)
    requires Fit(s, ix) && n <= |ix.columns|
    ensures |tys| == n
  {
    Project(Types(s), ix.columns)[..n]
  }

  /** An entry is the key of the indexed columns and the primary key together. */
  lemma EntryShape(s: Schema, ix: Index, row: Row)
    requires EntryGood(s, ix, row)
    ensures var all := ix.columns + s.primaryKey;
      && InRange(all, |row|) && InRange(all, |s.columns|)
      && Project(row, all) == Project(row, ix.columns) + Project(row, s.primaryKey)
      && AllMatch(Project(row, all), Project(Types(s), all)) && AllEncodable(Project(row, all), Project(Types(s), all))
      && AllShaped(Project(row, all), Project(Types(s), all))
      && EntryOf(s, ix, row) == Key(Project(row, all), Project(Types(s), all))
  {
    var all := ix.columns + s.primaryKey;
    ProjectConcat(row, ix.columns, s.primaryKey);
    ProjectEncodable(s, row, all);
    ColumnsIs(s, row, all);
  }

  lemma TypesLead(s: Schema, ix: Index, n: nat)
    requires Fit(s, ix) && n <= |ix.columns| && InRange(ix.columns + s.primaryKey, |s.columns|)
    ensures Project(Types(s), ix.columns + s.primaryKey)[..n] == LeadingTypes(s, ix, n)
  {
  }

  lemma LeadsConcat<T>(p: seq<T>, x: seq<T>, y: seq<T>)
    requires |p| <= |x|
    ensures p <= x + y <==> p <= x
  {
    assert (x + y)[..|p|] == x[..|p|];
  }

  /** An entry starts with the encoded prefix exactly when its row's indexed columns start with the prefix. */
  lemma EntryLeads(s: Schema, ix: Index, row: Row, prefix: seq<Value>)
    requires EntryGood(s, ix, row) && |prefix| <= |ix.columns|
    requires AllMatch(prefix, LeadingTypes(s, ix, |prefix|)) && AllEncodable(prefix, LeadingTypes(s, ix, |prefix|))
    ensures Key(prefix, LeadingTypes(s, ix, |prefix|)) <= EntryOf(s, ix, row) <==> prefix <= Project(row, ix.columns)
  {
    hide *;
    var all := ix.columns + s.primaryKey;
    EntryShape(s, ix, row);
    EntryFits(s, ix, row);
    TypesLead(s, ix, |prefix|);
    LeadingMeansEqual(Project(row, all), prefix, Project(Types(s), all));
    LeadsConcat(prefix, Project(row, ix.columns), Project(row, s.primaryKey));
  }

  lemma EntryFits(s: Schema, ix: Index, row: Row)
    requires EntryGood(s, ix, row)
    ensures Fit(s, ix) && InRange(ix.columns, |row|) && InRange(s.primaryKey, |row|)
  {
  }

  /** What an entry decodes to leads back to its row. */
  lemma EntryDecodes(s: Schema, ix: Index, row: Row)
    requires s.Valid() && Fit(s, ix) && GoodRow(s, row)
    ensures InRange(ix.columns + s.primaryKey, |s.columns|)
    ensures var vs := Decode(EntryOf(s, ix, row), Project(Types(s), ix.columns + s.primaryKey));
      vs.Ok? && |ix.columns| <= |vs.value| && PkKey(s, vs.value[|ix.columns|..]) == Ok(PkOf(s, row))
  {
    var all := ix.columns + s.primaryKey;
    ProjectConcat(row, ix.columns, s.primaryKey);
    GoodEverywhere(s, row, all);
    GoodEverywhere(s, row, s.primaryKey);
    ProjectEncodable(s, row, all);
    ProjectEncodable(s, row, s.primaryKey);
    ColumnsIs(s, row, all);
    PkIs(s, row);
    hide FittingRow, ZeroFree, Key, Decode;
    RoundTrip(Project(row, all), Project(Types(s), all));
  }

  /** The rows whose indexed columns start with the prefix, each once, ordered by indexed columns and primary key. */
  ghost predicate IsLookup(s: Schema, ix: Index, rows: Rows, prefix: seq<Value>, pks: seq<ByteString>, out: seq<Row>)
    requires s.Valid() && Fit(s, ix) && Keyed(s, rows)
  {
    && Lists(rows, pks, out)
    && (forall pk :: pk in pks <==> pk in rows && Starts(ix, rows[pk], prefix))
    && (forall i, j | 0 <= i < j < |out| :: EntryOrder(s, ix, out[i], out[j]))
  }

  /** The row's indexed columns start with `prefix`. */
  ghost predicate Starts(ix: Index, row: Row, prefix: seq<Value>) {
    InRange(ix.columns, |row|) && prefix <= Project(row, ix.columns)
  }

  ghost predicate EntryOrder(s: Schema, ix: Index, a: Row, b: Row) {
    var all := ix.columns + s.primaryKey;
    InRange(all, |a|) && InRange(all, |b|) && TupleBelow(Project(a, all), Project(b, all))
  }

  lemma EntriesOrdered(s: Schema, ix: Index, a: Row, b: Row)
    requires s.Valid() && Fit(s, ix) && GoodRow(s, a) && GoodRow(s, b) && Below(EntryOf(s, ix, a), EntryOf(s, ix, b))
    ensures EntryOrder(s, ix, a, b)
  {
    var all := ix.columns + s.primaryKey;
    ProjectConcat(a, ix.columns, s.primaryKey);
    GoodEverywhere(s, a, all);
    GoodEverywhere(s, b, all);
    SameColumns(s, a, b, all);
  }

  ghost predicate Extensions(m: map<ByteString, ByteString>, p: ByteString, ks: seq<ByteString>) {
    forall k :: k in ks <==> k in m && p <= k
  }

  /** A row's entry has been found exactly when the row's indexed columns start with the prefix. */
  lemma FoundIff(s: Schema, ix: Index, m: map<ByteString, ByteString>, rows: Rows, prefix: seq<Value>,
                 ks: seq<ByteString>, pk: ByteString)
    requires s.Valid() && Fit(s, ix) && Keyed(s, rows) && Indexed(s, ix, m, rows) && |prefix| <= |ix.columns| && pk in rows
    requires AllMatch(prefix, LeadingTypes(s, ix, |prefix|)) && AllEncodable(prefix, LeadingTypes(s, ix, |prefix|))
    requires Extensions(m, Key(prefix, LeadingTypes(s, ix, |prefix|)), ks)
    ensures EntryOf(s, ix, rows[pk]) in ks <==> Starts(ix, rows[pk], prefix)
  {
    hide FittingRow, ZeroFree, PkOf, EntryOf, Key, AllMatch, AllEncodable, LeadingTypes, GoodOn;
    RowLength(s, rows[pk]);
    EntryAlwaysGood(s, ix, rows[pk]);
    EntryLeads(s, ix, rows[pk], prefix);
  }

  /** The entries of different rows are different. */
  lemma SamePlace(s: Schema, ix: Index, rows: Rows, pk: ByteString, ks: seq<ByteString>, pks: seq<ByteString>)
    requires s.Valid() && Fit(s, ix) && Keyed(s, rows) && pk in rows && |pks| == |ks|
    requires forall i | 0 <= i < |ks| :: pks[i] in rows && EntryOf(s, ix, rows[pks[i]]) == ks[i]
    ensures EntryOf(s, ix, rows[pk]) in ks <==> pk in pks
  {
    hide FittingRow, ZeroFree, PkOf, EntryOf, GoodOn;
    if i :| 0 <= i < |ks| && ks[i] == EntryOf(s, ix, rows[pk]) {
      EntryAlwaysGood(s, ix, rows[pk]);
      EntryAlwaysGood(s, ix, rows[pks[i]]);
      EntryDetermines(s, ix, rows[pk], rows[pks[i]]);
      assert pks[i] == pk;
    }
    if i :| 0 <= i < |pks| && pks[i] == pk {
      assert ks[i] in ks;
    }
  }

  /** The entries found lead to exactly the rows looked for. */
  lemma LookupExact(s: Schema, ix: Index, m: map<ByteString, ByteString>, rows: Rows, prefix: seq<Value>,
                    ks: seq<ByteString>, pks: seq<ByteString>, out: seq<Row>)
    requires s.Valid() && Fit(s, ix) && Keyed(s, rows) && Indexed(s, ix, m, rows) && |prefix| <= |ix.columns|
    requires AllMatch(prefix, LeadingTypes(s, ix, |prefix|)) && AllEncodable(prefix, LeadingTypes(s, ix, |prefix|))
    requires Ascending(ks) && Extensions(m, Key(prefix, LeadingTypes(s, ix, |prefix|)), ks)
    requires |pks| == |ks| && Lists(rows, pks, out)
    requires forall i | 0 <= i < |ks| :: EntryOf(s, ix, rows[pks[i]]) == ks[i]
    ensures IsLookup(s, ix, rows, prefix, pks, out)
  {
    hide FittingRow, ZeroFree, PkOf, EntryOf, Key, Below, AllMatch, AllEncodable, EntryOrder, LeadingTypes, Indexed,
         Ascending, Extensions, Starts;
    forall pk | pk in rows ensures pk in pks <==> Starts(ix, rows[pk], prefix) {
      FoundIff(s, ix, m, rows, prefix, ks, pk);
      SamePlace(s, ix, rows, pk, ks, pks);
    }
    RowsOrdered(s, ix, rows, ks, pks, out);
  }

  lemma RowsOrdered(s: Schema, ix: Index, rows: Rows, ks: seq<ByteString>, pks: seq<ByteString>, out: seq<Row>)
    requires s.Valid() && Fit(s, ix) && Keyed(s, rows) && Ascending(ks) && |pks| == |ks| && Lists(rows, pks, out)
    requires forall i | 0 <= i < |ks| :: EntryOf(s, ix, rows[pks[i]]) == ks[i]
    ensures forall i, j | 0 <= i < j < |out| :: EntryOrder(s, ix, out[i], out[j])
  {
    hide FittingRow, ZeroFree, PkOf, EntryOf, EntryOrder;
    forall i, j | 0 <= i < j < |out| ensures EntryOrder(s, ix, out[i], out[j]) {
      EntriesOrdered(s, ix, out[i], out[j]);
    }
  }

  /** `IndexScan::new`: scan the entries under the encoded prefix, decode each, and fetch its row by primary key.
      No entry leads nowhere, and for a prefix of the columns' types exactly the rows looked for are found. */
  method IndexScan(t: Table, i: nat, prefix: seq<Value>)
    returns (r: Result<seq<Row>, LookupError>, ghost pks: seq<ByteString>)
    requires t.Valid() && i < |t.defs|
    ensures r == Err(Arity) <==> |prefix| > |t.defs[i].columns|
    ensures |prefix| <= |t.defs[i].columns| ==>
              (r.Ok? <==> AllEncodable(prefix, LeadingTypes(t.schema, t.defs[i], |prefix|)))
    ensures r.Ok? && AllMatch(prefix, LeadingTypes(t.schema, t.defs[i], |prefix|)) ==>
              IsLookup(t.schema, t.defs[i], t.rows, prefix, pks, r.value)
  {
    hide Keyed, Represents, Indexed, ClashesNowhere, AllMatch, AllEncodable, LeadingTypes, Key, InBounds;
    var s, ix := t.schema, t.defs[i];
    pks := [];
    if |prefix| > |ix.columns| {
      return Err(Arity), [];
    }
    var tys := LeadingTypes(s, ix, |prefix|);
    var low := EncodeKeyComponents(prefix, tys);
    if low.Err? {
      return Err(Storage(Corrupted)), [];
    }
    var high := PrefixIncrement(low.value);
    var ks := t.stores[i].ScanRange(low.value, high);
    ScanIsPrefix(t.stores[i].entries, low.value, ks);
    r, pks := FetchAll(t, i, ks);
    if r.Ok? && AllMatch(prefix, tys) {
      LookupExact(s, ix, t.stores[i].entries, t.rows, prefix, ks, pks, r.value);
    }
  }

  method FetchAll(t: Table, i: nat, ks: seq<ByteString>)
    returns (r: Result<seq<Row>, LookupError>, ghost pks: seq<ByteString>)
    requires t.Valid() && i < |t.defs| && forall k | k in ks :: k in t.stores[i].entries
    ensures r.Ok? && |pks| == |ks| && Lists(t.rows, pks, r.value)
    ensures forall j | 0 <= j < |ks| :: EntryOf(t.schema, t.defs[i], t.rows[pks[j]]) == ks[j]
  {
    hide Represents, Indexed, ClashesNowhere, EntryOf, PkOf, FittingRow, ZeroFree;
    var out: seq<Row> := [];
    pks := [];
    for k := 0 to |ks|
      invariant |out| == |pks| == k && Lists(t.rows, pks, out)
      invariant forall j | 0 <= j < k :: EntryOf(t.schema, t.defs[i], t.rows[pks[j]]) == ks[j]
    {
      ghost var pk := RowOf(t, i, ks[k]);
      var found := FetchEntry(t, i, ks[k], pk);
      if found.Err? {
        return found, [];
      }
      out, pks := out + found.value, pks + [pk];
    }
    r := Ok(out);
  }

  /** At most one row; a primary key that leads nowhere is skipped. */
  function AsRows(found: Result<Option<Row>, TableError>): Result<seq<Row>, LookupError> {
    match found
    case Err(e) => Err(Storage(e))
    case Ok(None) => Ok([])
    case Ok(Some(row)) => Ok([row])
  }

  /** Decode one entry and look its primary key up. */
  method FetchEntry(t: Table, i: nat, e: ByteString, ghost pk: ByteString) returns (r: Result<seq<Row>, LookupError>)
    requires t.Valid() && i < |t.defs| && pk in t.rows && EntryOf(t.schema, t.defs[i], t.rows[pk]) == e
    ensures r == Ok([t.rows[pk]])
  {
    hide Represents, Indexed, ClashesNowhere, EntryOf, PkOf, PkKey, Decode, FittingRow, ZeroFree;
    EntryDecodes(t.schema, t.defs[i], t.rows[pk]);
    var cols := t.defs[i].columns;
    var vs := DecodeKeyComponents(e, Project(Types(t.schema), cols + t.schema.primaryKey));
    if vs.Err? {
      return Err(Storage(Corrupted));
    }
    var row := t.GetByPk(vs.value[|cols|..]);
    r := AsRows(row);
  }

  /** The row an entry stands for. */
  lemma RowOf(t: Table, i: nat, e: ByteString) returns (pk: ByteString)
    requires t.Valid() && i < |t.defs| && e in t.stores[i].entries
    ensures pk in t.rows && GoodRow(t.schema, t.rows[pk]) && PkOf(t.schema, t.rows[pk]) == pk
    ensures EntryOf(t.schema, t.defs[i], t.rows[pk]) == e
  {
    assert Indexed(t.schema, t.defs[i], t.stores[i].entries, t.rows);
    pk :| pk in t.rows && EntryOf(t.schema, t.defs[i], t.rows[pk]) == e;
  }
}
