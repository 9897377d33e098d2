/**
 A table as a map from encoded primary key to row, what its engine and its
 indexes must hold for it, and what a unique index forbids.
 */
module TableRows {
  import opened Common
  import opened ByteOrder
  import opened Values
  import opened FixedWidth
  import opened KeyEncoding
  import opened CompositeKeys
  import opened TupleCodec

  type u32 = x: int | 0 <= x < 0x1_0000_0000
  type Row = seq<Value>

  datatype ColumnDef = ColumnDef(ty: ColumnType, nullable: bool, default: Option<Value>)

  datatype Schema = Schema(tableId: u32, columns: seq<ColumnDef>, primaryKey: seq<nat>) {
    predicate Valid() {
      forall i | 0 <= i < |primaryKey| :: primaryKey[i] < |columns|
    }
  }

  datatype Index = Index(columns: seq<nat>, unique: bool)

  predicate InRange(cols: seq<nat>, n: nat) {
    forall i | 0 <= i < |cols| :: cols[i] < n
  }

  function Project<T>(xs: seq<T>, cols: seq<nat>): (ys: seq<T>)
    requires InRange(cols, |xs|)
    ensures |ys| == |cols| && forall i | 0 <= i < |cols| :: ys[i] == xs[cols[i]]
  {
    seq(|cols|, i requires 0 <= i < |cols| => xs[cols[i]])
  }

  function Types(s: Schema): (tys: seq<ColumnType>)
    ensures |tys| == |s.columns| && forall i | 0 <= i < |tys| :: tys[i] == s.columns[i].ty
  {
    seq(|s.columns|, i requires 0 <= i < |s.columns| => s.columns[i].ty)
  }

  // ---- rows that can be stored ----------------------------------------------------------

  /** The value has the column's type and stays within its declared length. */
  predicate Fitting(v: Value, ty: ColumnType) {
    && v.Matches(ty)
    && (v.Char? ==> |v.text| <= ty.width)
    && (v.Varchar? ==> |v.text| <= ty.max)
    && (v.Bytes? ==> |v.bytes| <= ty.max)
  }

  predicate FittingRow(s: Schema, row: Row) {
    |row| == |s.columns| && forall i | 0 <= i < |row| :: Fitting(row[i], s.columns[i].ty)
  }

  predicate HasZero(v: Value) {
    v.Char? && 0x00 in v.text
  }

  predicate ZeroFree(row: Row) {
    forall i | 0 <= i < |row| :: !HasZero(row[i])
  }

  ghost predicate GoodRow(s: Schema, row: Row) {
    FittingRow(s, row) && ZeroFree(row)
  }

  /** A validated row can be stored exactly when no Char value has a zero byte. */
  lemma FittingStorable(s: Schema, row: Row)
    requires FittingRow(s, row)
    ensures AllStorable(Types(s), row) <==> ZeroFree(row)
  {
    forall i | 0 <= i < |row| ensures Storable(row[i], Types(s)[i]) <==> !HasZero(row[i]) {}
  }

  /** These columns of a validated row can be encoded. */
  predicate GoodOn(s: Schema, row: Row, cols: seq<nat>) {
    && FittingRow(s, row) && InRange(cols, |s.columns|)
    && forall i | 0 <= i < |cols| :: !HasZero(row[cols[i]])
  }

  lemma GoodEverywhere(s: Schema, row: Row, cols: seq<nat>)
    requires GoodRow(s, row) && InRange(cols, |s.columns|)
    ensures GoodOn(s, row, cols)
  {
  }

  lemma ProjectEncodable(s: Schema, row: Row, cols: seq<nat>)
    requires GoodOn(s, row, cols)
    ensures AllMatch(Project(row, cols), Project(Types(s), cols))
    ensures AllEncodable(Project(row, cols), Project(Types(s), cols))
    ensures AllShaped(Project(row, cols), Project(Types(s), cols))
  {
  }

  // ---- keys ----------------------------------------------------------------------------------

  function RowKey(tableId: u32, pk: ByteString): (k: ByteString)
    ensures |k| == 4 + |pk|
  {
    BigEndian(tableId, 4) + pk
  }

  ghost predicate Fit(s: Schema, ix: Index) {
    s.Valid() && InRange(ix.columns, |s.columns|)
  }

  lemma ProjectShaped(s: Schema, row: Row, cols: seq<nat>)
    requires FittingRow(s, row) && InRange(cols, |s.columns|)
    ensures AllShaped(Project(row, cols), Project(Types(s), cols))
  {
  }

  ghost function Columns(s: Schema, row: Row, cols: seq<nat>): ByteString
    requires FittingRow(s, row) && InRange(cols, |s.columns|)
  {
    ProjectShaped(s, row, cols);
    Key(Project(row, cols), Project(Types(s), cols))
  }

  ghost function PkOf(s: Schema, row: Row): ByteString
    requires s.Valid() && FittingRow(s, row)
  {
    Columns(s, row, s.primaryKey)
  }

  /** The row's entry in the index can be encoded. */
  ghost predicate EntryGood(s: Schema, ix: Index, row: Row) {
    Fit(s, ix) && FittingRow(s, row) && GoodOn(s, row, ix.columns) && GoodOn(s, row, s.primaryKey)
  }

  lemma EntryAlwaysGood(s: Schema, ix: Index, row: Row)
    requires Fit(s, ix) && GoodRow(s, row)
    ensures EntryGood(s, ix, row)
  {
  }

  /** The indexed columns followed by the primary key. */
  ghost function EntryOf(s: Schema, ix: Index, row: Row): ByteString
    requires Fit(s, ix) && FittingRow(s, row)
  {
    Columns(s, row, ix.columns + s.primaryKey)
  }

  lemma EntryParts(s: Schema, ix: Index, row: Row)
    requires Fit(s, ix) && FittingRow(s, row)
    ensures EntryOf(s, ix, row) == Columns(s, row, ix.columns) + PkOf(s, row)
  {
    var all := ix.columns + s.primaryKey;
    EntryIs(s, ix, row);
    ColumnsIs(s, row, ix.columns);
    ColumnsIs(s, row, s.primaryKey);
    ColumnsIs(s, row, all);
    ProjectConcat(row, ix.columns, s.primaryKey);
    ProjectConcat(Types(s), ix.columns, s.primaryKey);
    hide *;
    KeyConcat(Project(row, ix.columns), Project(Types(s), ix.columns),
              Project(row, s.primaryKey), Project(Types(s), s.primaryKey));
  }

  lemma EntryIs(s: Schema, ix: Index, row: Row)
    requires Fit(s, ix) && FittingRow(s, row)
    ensures EntryOf(s, ix, row) == Columns(s, row, ix.columns + s.primaryKey)
    ensures PkOf(s, row) == Columns(s, row, s.primaryKey)
  {
  }

  lemma ProjectConcat<T>(xs: seq<T>, a: seq<nat>, b: seq<nat>)
    requires InRange(a, |xs|) && InRange(b, |xs|)
    ensures InRange(a + b, |xs|) && Project(xs, a + b) == Project(xs, a) + Project(xs, b)
  {
  }

  lemma SameColumns(s: Schema, a: Row, b: Row, cols: seq<nat>)
    requires GoodOn(s, a, cols) && GoodOn(s, b, cols)
    ensures Columns(s, a, cols) == Columns(s, b, cols) <==> Project(a, cols) == Project(b, cols)
    ensures Below(Columns(s, a, cols), Columns(s, b, cols)) <==> TupleBelow(Project(a, cols), Project(b, cols))
  {
    ProjectEncodable(s, a, cols);
    ProjectEncodable(s, b, cols);
    hide *;
    ColumnsIs(s, a, cols);
    ColumnsIs(s, b, cols);
    OrderEmbedding(Project(a, cols), Project(b, cols), Project(Types(s), cols));
  }

  lemma ColumnsIs(s: Schema, row: Row, cols: seq<nat>)
    requires FittingRow(s, row) && InRange(cols, |s.columns|)
    ensures AllShaped(Project(row, cols), Project(Types(s), cols))
    ensures Columns(s, row, cols) == Key(Project(row, cols), Project(Types(s), cols))
  {
  }

  /** An entry starts with the indexed columns of `a` exactly when its row has the same values there. */
  lemma EntryPrefix(s: Schema, ix: Index, a: Row, b: Row)
    requires EntryGood(s, ix, a) && EntryGood(s, ix, b)
    ensures Columns(s, a, ix.columns) <= EntryOf(s, ix, b) <==> Project(a, ix.columns) == Project(b, ix.columns)
  {
    EntryParts(s, ix, b);
    ProjectEncodable(s, a, ix.columns);
    ProjectEncodable(s, b, ix.columns);
    hide *;
    ColumnsIs(s, a, ix.columns);
    ColumnsIs(s, b, ix.columns);
    PrefixMeansEqual(Project(b, ix.columns), PkOf(s, b), Project(a, ix.columns), Project(Types(s), ix.columns));
  }

  /** Entries determine the primary key. */
  lemma EntryDetermines(s: Schema, ix: Index, a: Row, b: Row)
    requires EntryGood(s, ix, a) && EntryGood(s, ix, b) && EntryOf(s, ix, a) == EntryOf(s, ix, b)
    ensures PkOf(s, a) == PkOf(s, b) && Project(a, ix.columns) == Project(b, ix.columns)
  {
    EntryParts(s, ix, a);
    EntryParts(s, ix, b);
    EntryPrefix(s, ix, a, b);
    SameColumns(s, a, b, ix.columns);
    hide *;
    var x := Columns(s, a, ix.columns);
    assert (x + PkOf(s, a))[|x|..] == PkOf(s, a) && (x + PkOf(s, b))[|x|..] == PkOf(s, b);
  }

  // ---- what the table, its engine and its indexes hold ----------------------------------------------

  type Rows = map<ByteString, Row>

  ghost predicate Keyed(s: Schema, rows: Rows)
    requires s.Valid()
  {
    forall pk | pk in rows :: GoodRow(s, rows[pk]) && pk == PkOf(s, rows[pk])
  }

  ghost function BlobOf(s: Schema, row: Row): ByteString
    requires GoodRow(s, row)
  {
    FittingStorable(s, row);
    EncodeTuple(Types(s), row).value
  }

  /** The engine's entries under the table's prefix are the encoded rows; other tables are not looked at. */
  ghost predicate Represents(s: Schema, m: map<ByteString, ByteString>, rows: Rows)
    requires s.Valid() && Keyed(s, rows)
  {
    && (forall pk | pk in rows :: RowKey(s.tableId, pk) in m && m[RowKey(s.tableId, pk)] == BlobOf(s, rows[pk]))
    && (forall k | k in m && BigEndian(s.tableId, 4) <= k :: k[4..] in rows)
    && (forall k | k in m :: |k| >= 4)
  }

  /** The index holds exactly the entries of the current rows. */
  ghost predicate Indexed(s: Schema, ix: Index, m: map<ByteString, ByteString>, rows: Rows)
    requires Fit(s, ix) && Keyed(s, rows)
  {
    && (forall pk | pk in rows :: EntryOf(s, ix, rows[pk]) in m)
    && (forall e | e in m :: m[e] == [] && exists pk :: pk in rows && EntryOf(s, ix, rows[pk]) == e)
  }

  ghost predicate NoNulls(vs: seq<Value>) {
    forall i | 0 <= i < |vs| :: !vs[i].Null?
  }

  /** Two rows a unique index does not let stand together. */
  ghost predicate Clash(ix: Index, a: Row, b: Row) {
    && ix.unique && InRange(ix.columns, |a|) && InRange(ix.columns, |b|)
    && Project(a, ix.columns) == Project(b, ix.columns) && NoNulls(Project(a, ix.columns))
  }

  ghost predicate ClashFree(ix: Index, rows: Rows) {
    forall p, q | p in rows && q in rows && p != q :: !Clash(ix, rows[p], rows[q])
  }

  // ---- changing one row ---------------------------------------------------------------------------------

  lemma RowKeyStrip(s: Schema, pk: ByteString)
    ensures BigEndian(s.tableId, 4) <= RowKey(s.tableId, pk) && RowKey(s.tableId, pk)[4..] == pk
  {
  }

  lemma RowKeyWhole(s: Schema, k: ByteString)
    requires BigEndian(s.tableId, 4) <= k
    ensures |k| >= 4 && k == RowKey(s.tableId, k[4..])
  {
  }

  /** What the engine holds for other tables. */
  ghost function Others(s: Schema, m: map<ByteString, ByteString>): map<ByteString, ByteString> {
    map k | k in m && !(BigEndian(s.tableId, 4) <= k) :: m[k]
  }

  lemma OthersKept(s: Schema, m: map<ByteString, ByteString>, pk: ByteString, blob: ByteString)
    ensures Others(s, m[RowKey(s.tableId, pk) := blob]) == Others(s, m) == Others(s, m - {RowKey(s.tableId, pk)})
  {
    RowKeyStrip(s, pk);
  }

  lemma KeyedPut(s: Schema, rows: Rows, row: Row)
    requires s.Valid() && Keyed(s, rows) && GoodRow(s, row)
    ensures Keyed(s, rows[PkOf(s, row) := row])
  {
  }

  lemma PutRepresents(s: Schema, m: map<ByteString, ByteString>, rows: Rows, row: Row)
    requires s.Valid() && Keyed(s, rows) && Represents(s, m, rows) && GoodRow(s, row)
    ensures var pk := PkOf(s, row);
      Keyed(s, rows[pk := row]) && Represents(s, m[RowKey(s.tableId, pk) := BlobOf(s, row)], rows[pk := row])
  {
    hide FittingRow, ZeroFree, BlobOf, PkOf, RowKey;
    var pk := PkOf(s, row);
    var m', rows' := m[RowKey(s.tableId, pk) := BlobOf(s, row)], rows[pk := row];
    KeyedPut(s, rows, row);
    forall q | q in rows' ensures RowKey(s.tableId, q) in m' && m'[RowKey(s.tableId, q)] == BlobOf(s, rows'[q]) {
      RowKeyStrip(s, q);
      RowKeyStrip(s, pk);
    }
    RowKeyStrip(s, pk);
  }

  lemma DeleteRepresents(s: Schema, m: map<ByteString, ByteString>, rows: Rows, pk: ByteString)
    requires s.Valid() && Keyed(s, rows) && Represents(s, m, rows)
    ensures Keyed(s, rows - {pk}) && Represents(s, m - {RowKey(s.tableId, pk)}, rows - {pk})
  {
    hide FittingRow, ZeroFree, BlobOf, PkOf, RowKey;
    var m', rows' := m - {RowKey(s.tableId, pk)}, rows - {pk};
    forall q | q in rows' ensures RowKey(s.tableId, q) in m' {
      RowKeyStrip(s, q);
      RowKeyStrip(s, pk);
    }
    forall k | k in m' && BigEndian(s.tableId, 4) <= k ensures k[4..] in rows' {
      RowKeyWhole(s, k);
    }
  }

  lemma EntryPut(s: Schema, ix: Index, m: map<ByteString, ByteString>, rows: Rows, row: Row)
    requires Fit(s, ix) && Keyed(s, rows) && Indexed(s, ix, m, rows) && GoodRow(s, row) && PkOf(s, row) !in rows
    ensures Keyed(s, rows[PkOf(s, row) := row])
    ensures Indexed(s, ix, m[EntryOf(s, ix, row) := []], rows[PkOf(s, row) := row])
  {
    hide FittingRow, ZeroFree, PkOf, EntryOf;
    KeyedPut(s, rows, row);
    var pk, e := PkOf(s, row), EntryOf(s, ix, row);
    var m', rows' := m[e := []], rows[pk := row];
    forall x | x in m' ensures exists p :: p in rows' && EntryOf(s, ix, rows'[p]) == x {
      if x == e {
        assert pk in rows' && rows'[pk] == row;
      } else {
        var p :| p in rows && EntryOf(s, ix, rows[p]) == x;
        assert p in rows' && rows'[p] == rows[p];
      }
    }
  }

  lemma EntryDrop(s: Schema, ix: Index, m: map<ByteString, ByteString>, rows: Rows, pk: ByteString)
    requires Fit(s, ix) && Keyed(s, rows) && Indexed(s, ix, m, rows) && pk in rows
    ensures Keyed(s, rows - {pk}) && EntryOf(s, ix, rows[pk]) in m
    ensures Indexed(s, ix, m - {EntryOf(s, ix, rows[pk])}, rows - {pk})
  {
    hide FittingRow, ZeroFree, PkOf, EntryOf;
    var e := EntryOf(s, ix, rows[pk]);
    var m', rows' := m - {e}, rows - {pk};
    forall p | p in rows' ensures EntryOf(s, ix, rows'[p]) in m' {
      EntryAlwaysGood(s, ix, rows[p]);
      EntryAlwaysGood(s, ix, rows[pk]);
      if EntryOf(s, ix, rows[p]) == e { EntryDetermines(s, ix, rows[p], rows[pk]); }
    }
    forall x | x in m' ensures exists p :: p in rows' && EntryOf(s, ix, rows'[p]) == x {
      var p :| p in rows && EntryOf(s, ix, rows[p]) == x;
      assert p in rows' && rows'[p] == rows[p];
    }
  }

  // ---- what a unique check has to look for --------------------------------------------------------------

  /** Some other row has the same, all non-NULL, values in the indexed columns. */
  ghost predicate Taken(s: Schema, ix: Index, rows: Rows, row: Row)
    requires s.Valid() && FittingRow(s, row)
  {
    exists q :: q in rows && q != PkOf(s, row) && Clash(ix, row, rows[q])
  }

  /** A foreign entry under the row's prefix is there exactly when another row clashes with it. */
  lemma ForeignEntry(s: Schema, ix: Index, m: map<ByteString, ByteString>, rows: Rows, row: Row)
    requires Fit(s, ix) && Keyed(s, rows) && Indexed(s, ix, m, rows) && EntryGood(s, ix, row)
    requires ix.unique && NoNulls(Project(row, ix.columns))
    ensures Taken(s, ix, rows, row) <==>
            exists e :: e in m && Columns(s, row, ix.columns) <= e && e != EntryOf(s, ix, row)
  {
    hide FittingRow, ZeroFree, GoodOn, PkOf, EntryOf, Columns;
    if q :| q in rows && q != PkOf(s, row) && Clash(ix, row, rows[q]) {
      var e := EntryOf(s, ix, rows[q]);
      EntryAlwaysGood(s, ix, rows[q]);
      EntryPrefix(s, ix, row, rows[q]);
      if e == EntryOf(s, ix, row) { EntryDetermines(s, ix, rows[q], row); }
      assert e in m && Columns(s, row, ix.columns) <= e && e != EntryOf(s, ix, row);
    }
    if e :| e in m && Columns(s, row, ix.columns) <= e && e != EntryOf(s, ix, row) {
      var q :| q in rows && EntryOf(s, ix, rows[q]) == e;
      EntryAlwaysGood(s, ix, rows[q]);
      EntryPrefix(s, ix, row, rows[q]);
      if q == PkOf(s, row) { SameEntry(s, ix, row, rows[q]); }
      RowLength(s, row);
      RowLength(s, rows[q]);
      assert Clash(ix, row, rows[q]);
    }
  }

  lemma RowLength(s: Schema, row: Row)
    requires FittingRow(s, row)
    ensures |row| == |s.columns|
  {
  }

  lemma SameEntry(s: Schema, ix: Index, a: Row, b: Row)
    requires EntryGood(s, ix, a) && EntryGood(s, ix, b)
    requires PkOf(s, a) == PkOf(s, b) && Project(a, ix.columns) == Project(b, ix.columns)
    ensures EntryOf(s, ix, a) == EntryOf(s, ix, b)
  {
    EntryParts(s, ix, a);
    EntryParts(s, ix, b);
    SameColumns(s, a, b, ix.columns);
  }

  /** Storing a row that is not taken keeps the index free of clashes. */
  lemma StoreClashFree(s: Schema, ix: Index, rows: Rows, row: Row)
    requires Fit(s, ix) && Keyed(s, rows) && GoodRow(s, row) && ClashFree(ix, rows) && !Taken(s, ix, rows, row)
    ensures ClashFree(ix, rows[PkOf(s, row) := row])
  {
    hide FittingRow, ZeroFree, PkOf;
    var pk := PkOf(s, row);
    var rows' := rows[pk := row];
    forall p, q | p in rows' && q in rows' && p != q ensures !Clash(ix, rows'[p], rows'[q]) {
      if p == pk {
        assert !Clash(ix, row, rows[q]);
      } else if q == pk {
        assert !Clash(ix, row, rows[p]);
      }
    }
  }
}
