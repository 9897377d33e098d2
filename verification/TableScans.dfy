/** What the table code relies on: encoding and decoding of stored rows, and the exactness of its scan bounds. */
module TableScans {
  import opened Common
  import opened ByteOrder
  import opened Values
  import opened FixedWidth
  import opened CompositeKeys
  import opened TupleCodec
  import opened StorageEngine
  import opened TableRows
  import Counting
  import opened KeyEncoding

  // ---- lemmas about one engine -------------------------------------------------------------------

  lemma GetRepresents(s: Schema, m: map<ByteString, ByteString>, rows: Rows, pk: ByteString)
    requires s.Valid() && Keyed(s, rows) && Represents(s, m, rows)
    ensures RowKey(s.tableId, pk) in m <==> pk in rows
    ensures pk in rows ==> DecodeTuple(Types(s), m[RowKey(s.tableId, pk)]) == Ok(rows[pk])
  {
    RowKeyStrip(s, pk);
    if pk in rows { BlobDecodes(s, rows[pk]); }
    hide *;
  }

  lemma BlobDecodes(s: Schema, row: Row)
    requires GoodRow(s, row)
    ensures EncodeTuple(Types(s), row) == Ok(BlobOf(s, row)) && DecodeTuple(Types(s), BlobOf(s, row)) == Ok(row)
  {
    FittingStorable(s, row);
    RowRoundTrip(Types(s), row);
  }

  /** Each column read on its own is that column of the row; there are no others. */
  lemma StoredColumn(s: Schema, row: Row, blob: ByteString, col: nat)
    requires DecodeTuple(Types(s), blob) == Ok(row)
    ensures |row| == |s.columns|
    ensures Column(Types(s), blob, col) == if col < |s.columns| then Ok(row[col]) else Err(StorageCorrupted)
  {
    if col < |s.columns| {
      ColumnAgrees(Types(s), blob, col);
    } else {
      DecodedRowLength(Types(s), blob);
    }
  }

  lemma DecodedRowLength(tys: seq<ColumnType>, blob: ByteString)
    requires DecodeTuple(tys, blob).Ok?
    ensures |DecodeTuple(tys, blob).value| == |tys|
  {
    var len := BitmapLength(|tys|);
    DecodedLength(tys, blob[..len], blob[len..], 0);
  }

  /** Encoding a row fails exactly when some Char value has a zero byte. */
  lemma BlobFails(s: Schema, row: Row)
    requires FittingRow(s, row)
    ensures EncodeTuple(Types(s), row).Ok? <==> ZeroFree(row)
    ensures EncodeTuple(Types(s), row).Ok? ==> EncodeTuple(Types(s), row) == Ok(BlobOf(s, row))
  {
    FittingStorable(s, row);
    if ZeroFree(row) { BlobDecodes(s, row); }
  }

  /** Columns of a validated row encode exactly when none of them has a zero byte in a Char value. */
  lemma ColumnsEncode(s: Schema, row: Row, cols: seq<nat>)
    requires FittingRow(s, row) && InRange(cols, |s.columns|)
    ensures Encode(Project(row, cols), Project(Types(s), cols)) ==
            if GoodOn(s, row, cols) then Ok(Columns(s, row, cols)) else Err(StorageCorrupted)
  {
    if GoodOn(s, row, cols) { ProjectEncodable(s, row, cols); }
  }

  lemma GoodParts(s: Schema, ix: Index, row: Row)
    requires Fit(s, ix) && FittingRow(s, row)
    ensures GoodOn(s, row, ix.columns + s.primaryKey) <==> EntryGood(s, ix, row)
  {
    var all := ix.columns + s.primaryKey;
    if GoodOn(s, row, all) {
      forall i | 0 <= i < |ix.columns| ensures !HasZero(row[ix.columns[i]]) { assert all[i] == ix.columns[i]; }
      forall i | 0 <= i < |s.primaryKey| ensures !HasZero(row[s.primaryKey[i]]) {
        assert all[|ix.columns| + i] == s.primaryKey[i];
      }
    }
  }

  // ---- one row at a time ----------------------------------------------------------------------------------

  /** Row `a` leaves `e` among the keys seen. */
  ghost predicate SeenFrom(s: Schema, cols: seq<nat>, a: Row, e: ByteString)
    requires GoodRow(s, a) && InRange(cols, |s.columns|)
  {
    NoNulls(Project(a, cols)) && Columns(s, a, cols) == e
  }

  lemma NoNullsIs(vs: seq<Value>)
    ensures NoNulls(vs) <==> !exists k | 0 <= k < |vs| :: vs[k].Null?
  {
  }

  lemma NullNeverClashes(cols: seq<nat>, row: Row)
    requires InRange(cols, |row|) && !NoNulls(Project(row, cols))
    ensures forall other: Row :: !Clash(Index(cols, true), row, other) && !Clash(Index(cols, true), other, row)
  {
  }

  lemma NeverSeen(s: Schema, cols: seq<nat>, row: Row)
    requires GoodRow(s, row) && InRange(cols, |s.columns|) && !NoNulls(Project(row, cols))
    ensures forall e :: !SeenFrom(s, cols, row, e)
  {
  }

  lemma FeasibleStep(s: Schema, cols: seq<nat>, row: Row)
    requires GoodRow(s, row) && InRange(cols, |s.columns|) && NoNulls(Project(row, cols))
    ensures Encode(Project(row, cols), Project(Types(s), cols)) == Ok(Columns(s, row, cols))
    ensures forall e :: SeenFrom(s, cols, row, e) <==> e == Columns(s, row, cols)
  {
    GoodEverywhere(s, row, cols);
    ColumnsEncode(s, row, cols);
  }

  lemma SeenClash(s: Schema, cols: seq<nat>, a: Row, b: Row)
    requires GoodRow(s, a) && GoodRow(s, b) && InRange(cols, |s.columns|) && SeenFrom(s, cols, a, Columns(s, b, cols))
    ensures Clash(Index(cols, true), a, b)
  {
    GoodEverywhere(s, a, cols);
    GoodEverywhere(s, b, cols);
    SameColumns(s, a, b, cols);
  }

  lemma ClashSeen(s: Schema, cols: seq<nat>, a: Row, b: Row)
    requires GoodRow(s, a) && GoodRow(s, b) && InRange(cols, |s.columns|) && Clash(Index(cols, true), a, b)
    ensures SeenFrom(s, cols, a, Columns(s, b, cols))
  {
    GoodEverywhere(s, a, cols);
    GoodEverywhere(s, b, cols);
    SameColumns(s, a, b, cols);
  }

  ghost predicate GoodRows(s: Schema, out: seq<Row>) {
    forall i | 0 <= i < |out| :: GoodRow(s, out[i])
  }

  /** The first `i` rows do not clash, and `seen` holds their keys. */
  ghost predicate SeenSoFar(s: Schema, cols: seq<nat>, out: seq<Row>, i: nat, seen: set<ByteString>)
    requires GoodRows(s, out) && InRange(cols, |s.columns|) && i <= |out|
  {
    && (forall j, k | 0 <= j < k < i :: !Clash(Index(cols, true), out[j], out[k]))
    && (forall e :: e in seen <==> exists j :: 0 <= j < i && SeenFrom(s, cols, out[j], e))
  }

  lemma SeenNull(s: Schema, cols: seq<nat>, out: seq<Row>, i: nat, seen: set<ByteString>)
    requires GoodRows(s, out) && InRange(cols, |s.columns|) && i < |out| && SeenSoFar(s, cols, out, i, seen)
    requires InRange(cols, |out[i]|) && !NoNulls(Project(out[i], cols))
    ensures SeenSoFar(s, cols, out, i + 1, seen)
  {
    hide FittingRow, ZeroFree, Clash, NoNulls, Project, Columns;
    NullNeverClashes(cols, out[i]);
    NeverSeen(s, cols, out[i]);
  }

  /** A key seen before means a clash; a new one does not. */
  lemma SeenNext(s: Schema, cols: seq<nat>, out: seq<Row>, i: nat, seen: set<ByteString>)
    requires GoodRows(s, out) && InRange(cols, |s.columns|) && i < |out| && SeenSoFar(s, cols, out, i, seen)
    requires InRange(cols, |out[i]|) && NoNulls(Project(out[i], cols))
    ensures Columns(s, out[i], cols) in seen ==> exists j :: 0 <= j < i && Clash(Index(cols, true), out[j], out[i])
    ensures Columns(s, out[i], cols) !in seen ==> SeenSoFar(s, cols, out, i + 1, seen + {Columns(s, out[i], cols)})
  {
    hide FittingRow, ZeroFree, Clash, NoNulls, Project, Columns, SeenFrom;
    var key := Columns(s, out[i], cols);
    FeasibleStep(s, cols, out[i]);
    if key in seen {
      var j :| 0 <= j < i && SeenFrom(s, cols, out[j], key);
      SeenClash(s, cols, out[j], out[i]);
    } else {
      forall j | 0 <= j < i ensures !Clash(Index(cols, true), out[j], out[i]) {
        if Clash(Index(cols, true), out[j], out[i]) { ClashSeen(s, cols, out[j], out[i]); }
      }
    }
  }

  lemma AscendingDistinct(pks: seq<ByteString>, i: nat, j: nat)
    requires Ascending(pks) && i < j < |pks|
    ensures pks[i] != pks[j]
  {
    Trichotomy(pks[i], pks[i]);
  }

  /** Two listed rows that clash are two rows that clash. */
  lemma ListedClash(ix: Index, rows: Rows, pks: seq<ByteString>, out: seq<Row>, j: nat, k: nat)
    requires IsScan(rows, [], None, pks) && Lists(rows, pks, out) && j < k < |out| && Clash(ix, out[j], out[k])
    ensures !ClashFree(ix, rows)
  {
    hide Clash;
    AscendingDistinct(pks, j, k);
  }

  lemma AllPairs(ix: Index, rows: Rows, pks: seq<ByteString>, out: seq<Row>)
    requires IsScan(rows, [], None, pks) && Lists(rows, pks, out)
    requires forall j, k | 0 <= j < k < |out| :: !Clash(ix, out[j], out[k])
    ensures ClashFree(ix, rows)
  {
    hide NoNulls, Project;
    forall p, q | p in rows && q in rows && p != q ensures !Clash(ix, rows[p], rows[q]) {
      PrefixBelow([], p);
      PrefixBelow([], q);
      var j :| 0 <= j < |pks| && pks[j] == p;
      var k :| 0 <= k < |pks| && pks[k] == q;
      ClashSymmetric(ix, rows[p], rows[q]);
    }
  }

  lemma ClashSymmetric(ix: Index, a: Row, b: Row)
    ensures Clash(ix, a, b) <==> Clash(ix, b, a)
  {
  }

  /** The rows under the first `n` of these primary keys. */
  ghost function Part(rows: Rows, pks: seq<ByteString>, n: nat): Rows
    requires n <= |pks|
  {
    map pk | pk in pks[..n] && pk in rows :: rows[pk]
  }

  lemma EmptyIndexed(s: Schema, ix: Index, rows: Rows, pks: seq<ByteString>)
    requires Fit(s, ix)
    ensures Keyed(s, Part(rows, pks, 0)) && Indexed(s, ix, map[], Part(rows, pks, 0))
  {
  }

  lemma PartNext(s: Schema, rows: Rows, pks: seq<ByteString>, n: nat)
    requires s.Valid() && Keyed(s, rows) && Ascending(pks) && n < |pks| && pks[n] in rows
    ensures PkOf(s, rows[pks[n]]) == pks[n] && pks[n] !in Part(rows, pks, n)
    ensures Part(rows, pks, n + 1) == Part(rows, pks, n)[pks[n] := rows[pks[n]]]
    ensures Keyed(s, Part(rows, pks, n + 1))
  {
    hide FittingRow, ZeroFree, PkOf;
    assert pks[..n + 1] == pks[..n] + [pks[n]];
    forall i | 0 <= i < n ensures pks[i] != pks[n] { AscendingDistinct(pks, i, n); }
  }

  lemma PartAll(rows: Rows, pks: seq<ByteString>)
    requires IsScan(rows, [], None, pks)
    ensures Part(rows, pks, |pks|) == rows
  {
    assert pks[..|pks|] == pks;
    forall pk | pk in rows ensures pk in pks { PrefixBelow([], pk); }
  }

  /** Scanning from a prefix to its increment finds exactly the keys that extend it. */
  lemma ScanIsPrefix(m: map<ByteString, ByteString>, prefix: ByteString, ks: seq<ByteString>)
    requires IsScan(m, prefix, Successor(prefix), ks)
    ensures forall k :: k in ks <==> k in m && prefix <= k
  {
    forall k ensures k in ks <==> k in m && prefix <= k {
      PrefixRange(prefix, k);
    }
  }

  // ---- scan bounds -----------------------------------------------------------------------------------------

  ghost predicate Lists(rows: Rows, pks: seq<ByteString>, out: seq<Row>) {
    |out| == |pks| && forall i | 0 <= i < |pks| :: pks[i] in rows && out[i] == rows[pks[i]]
  }

  /** Between the prefix of a table and that of the next one lie exactly the keys with the table's prefix. */
  lemma TableBounds(t: u32, k: ByteString)
    requires t + 1 < 0x1_0000_0000 && |k| >= 4
    ensures InBounds(k, RowKey(t, []), Some(RowKey(t + 1, []))) <==> BigEndian(t, 4) <= k
  {
    var p, q, head := BigEndian(t, 4), BigEndian(t + 1, 4), k[..4];
    assert RowKey(t, []) == p && RowKey(t + 1, []) == q;
    assert k == head + k[4..];
    HeadBounds(p, head, k[4..]);
    HeadBounds(q, head, k[4..]);
    Consecutive(t, head);
    Trichotomy(p, head);
    Trichotomy(q, head);
    assert p <= k <==> head == p;
  }

  lemma HeadBounds(p: ByteString, head: ByteString, tail: ByteString)
    requires |p| == |head|
    ensures Below(head + tail, p) <==> Below(head, p)
    ensures AtMost(p, head + tail) <==> p == head || Below(p, head)
  {
    if head == p {
      PrefixBelow(p, head + tail);
      Trichotomy(p, p);
    } else {
      SameLengthApart(head, p);
      ApartExtends(head, p, tail, []);
      ApartExtends(p, head, [], tail);
      assert p + [] == p;
    }
  }

  lemma Consecutive(t: u32, head: ByteString)
    requires t + 1 < 0x1_0000_0000 && |head| == 4
    ensures !(Below(BigEndian(t, 4), head) && Below(head, BigEndian(t + 1, 4)))
    ensures Below(BigEndian(t, 4), BigEndian(t + 1, 4))
  {
    assert Pow256(2) == 0x1_0000 && Pow256(4) == 0x1_0000 * Pow256(2);
    var u := FromBigEndian(head);
    BigEndianOnto(head);
    BigEndianOrder(t, u, 4);
    BigEndianOrder(u, t + 1, 4);
    BigEndianOrder(t, t + 1, 4);
  }

  /** Between two keys of one table lie exactly the table's keys between the two primary keys. */
  lemma RowBounds(t: u32, a: ByteString, b: ByteString, k: ByteString)
    requires |k| >= 4
    ensures InBounds(k, RowKey(t, a), Some(RowKey(t, b))) <==> BigEndian(t, 4) <= k && InBounds(k[4..], a, Some(b))
  {
    var p, head, tail := BigEndian(t, 4), k[..4], k[4..];
    assert k == head + tail;
    assert p <= k <==> head == p;
    if head == p {
      SamePrefix(p, a, tail);
      SamePrefix(p, tail, b);
      assert p + a == k <==> a == tail by { assert (p + a)[4..] == a; }
    } else {
      SameLengthApart(head, p);
      ApartExtends(p, head, a, tail);
      ApartExtends(head, p, tail, b);
      Trichotomy(p, head);
    }
  }

  /** The primary keys behind a scan of storage keys. */
  lemma Stripped(s: Schema, ks: seq<ByteString>) returns (pks: seq<ByteString>)
    requires Ascending(ks) && forall k | k in ks :: BigEndian(s.tableId, 4) <= k
    ensures |pks| == |ks| && Ascending(pks)
    ensures forall i | 0 <= i < |ks| :: ks[i] == RowKey(s.tableId, pks[i])
    ensures forall pk :: pk in pks <==> RowKey(s.tableId, pk) in ks
  {
    forall k | k in ks ensures |k| >= 4 { RowKeyWhole(s, k); }
    pks := seq(|ks|, i requires 0 <= i < |ks| => assert ks[i] in ks; ks[i][4..]);
    forall i | 0 <= i < |ks| ensures ks[i] == RowKey(s.tableId, pks[i]) {
      assert ks[i] in ks;
      RowKeyWhole(s, ks[i]);
    }
    forall i, j | 0 <= i < j < |pks| ensures Below(pks[i], pks[j]) {
      SamePrefix(BigEndian(s.tableId, 4), pks[i], pks[j]);
    }
    forall pk ensures pk in pks <==> RowKey(s.tableId, pk) in ks {
      if RowKey(s.tableId, pk) in ks {
        var i :| 0 <= i < |ks| && ks[i] == RowKey(s.tableId, pk);
        RowKeyStrip(s, pk);
        RowKeyStrip(s, pks[i]);
        assert pks[i] == pk;
      }
    }
  }

  /** A scan of one table's key range is a scan of its rows. */
  lemma TableScan(s: Schema, m: map<ByteString, ByteString>, rows: Rows, ks: seq<ByteString>) returns (pks: seq<ByteString>)
    requires s.Valid() && Keyed(s, rows) && Represents(s, m, rows) && s.tableId + 1 < 0x1_0000_0000
    requires IsScan(m, RowKey(s.tableId, []), Some(RowKey(s.tableId + 1, [])), ks)
    ensures |pks| == |ks| && IsScan(rows, [], None, pks)
    ensures forall i | 0 <= i < |ks| :: pks[i] in rows && ks[i] == RowKey(s.tableId, pks[i])
  {
    hide Keyed, RowKey, BlobOf;
    forall k | k in m
      ensures InBounds(k, RowKey(s.tableId, []), Some(RowKey(s.tableId + 1, []))) <==> BigEndian(s.tableId, 4) <= k
    {
      TableBounds(s.tableId, k);
    }
    pks := Stripped(s, ks);
    forall pk ensures pk in pks <==> pk in rows && InBounds(pk, [], None) {
      RowKeyStrip(s, pk);
      PrefixBelow([], pk);
    }
    assert forall i | 0 <= i < |ks| :: pks[i] in pks;
  }

  lemma RangeScan(s: Schema, m: map<ByteString, ByteString>, rows: Rows, a: ByteString, b: ByteString, ks: seq<ByteString>)
    returns (pks: seq<ByteString>)
    requires s.Valid() && Keyed(s, rows) && Represents(s, m, rows)
    requires IsScan(m, RowKey(s.tableId, a), Some(RowKey(s.tableId, b)), ks)
    ensures |pks| == |ks| && IsScan(rows, a, Some(b), pks)
    ensures forall i | 0 <= i < |ks| :: pks[i] in rows && ks[i] == RowKey(s.tableId, pks[i])
  {
    hide Keyed, RowKey, BlobOf;
    forall k | k in m
      ensures InBounds(k, RowKey(s.tableId, a), Some(RowKey(s.tableId, b))) <==>
              BigEndian(s.tableId, 4) <= k && InBounds(k[4..], a, Some(b))
    {
      RowBounds(s.tableId, a, b, k);
    }
    pks := Stripped(s, ks);
    forall pk ensures pk in pks <==> pk in rows && InBounds(pk, a, Some(b)) {
      RowKeyStrip(s, pk);
    }
    assert forall i | 0 <= i < |ks| :: pks[i] in pks;
  }

  /** A full scan lists as many rows as there are. */
  lemma ScanSize(rows: Rows, pks: seq<ByteString>)
    requires IsScan(rows, [], None, pks)
    ensures |pks| == |rows|
  {
    forall i, j | 0 <= i < j < |pks| ensures pks[i] != pks[j] { AscendingDistinct(pks, i, j); }
    Counting.DistinctSize(pks);
    forall pk | pk in rows ensures pk in pks { PrefixBelow([], pk); }
    assert Counting.Elements(pks) == rows.Keys;
  }

  /** Scans list rows in the order of their primary keys as tuples. */
  lemma ScanInKeyOrder(s: Schema, rows: Rows, low: ByteString, high: Option<ByteString>, pks: seq<ByteString>, out: seq<Row>)
    requires s.Valid() && Keyed(s, rows) && IsScan(rows, low, high, pks) && Lists(rows, pks, out)
    ensures forall i, j | 0 <= i < j < |out| ::
              |out[i]| == |out[j]| == |s.columns| && TupleBelow(Project(out[i], s.primaryKey), Project(out[j], s.primaryKey))
  {
    hide FittingRow, ZeroFree, GoodOn, Project, TupleBelow;
    forall i, j | 0 <= i < j < |out|
      ensures |out[i]| == |out[j]| == |s.columns|
      ensures TupleBelow(Project(out[i], s.primaryKey), Project(out[j], s.primaryKey))
    {
      assert pks[i] in rows && pks[j] in rows;
      RowLength(s, out[i]);
      RowLength(s, out[j]);
      GoodEverywhere(s, out[i], s.primaryKey);
      GoodEverywhere(s, out[j], s.primaryKey);
      SameColumns(s, out[i], out[j], s.primaryKey);
    }
  }

  /** A row's encoded primary key is within encoded bounds exactly when its primary key is within the bounds:
      with the upper bound excluded, with it included through `byte_increment`, and without one. */
  lemma RangeMeaning(s: Schema, row: Row, low: seq<Value>, high: seq<Value>)
    requires s.Valid() && GoodRow(s, row)
    requires AllMatch(low, Project(Types(s), s.primaryKey)) && AllEncodable(low, Project(Types(s), s.primaryKey))
    requires AllMatch(high, Project(Types(s), s.primaryKey)) && AllEncodable(high, Project(Types(s), s.primaryKey))
    ensures var tys, pk := Project(Types(s), s.primaryKey), Project(row, s.primaryKey);
      && (InBounds(PkOf(s, row), Key(low, tys), Some(Key(high, tys))) <==>
          TupleAtMost(low, pk) && TupleBelow(pk, high))
      && (InBounds(PkOf(s, row), Key(low, tys), Some(ByteIncrement(Key(high, tys)))) <==>
          TupleAtMost(low, pk) && TupleAtMost(pk, high))
      && (InBounds(PkOf(s, row), Key(low, tys), None) <==> TupleAtMost(low, pk))
  {
    var tys, pk := Project(Types(s), s.primaryKey), Project(row, s.primaryKey);
    GoodEverywhere(s, row, s.primaryKey);
    ProjectEncodable(s, row, s.primaryKey);
    hide *;
    PkIs(s, row);
    OrderEmbedding(low, pk, tys);
    OrderEmbedding(pk, high, tys);
    BoundsAre(PkOf(s, row), Key(low, tys), Key(high, tys), low, pk, high);
    NothingBetween(Key(high, tys), PkOf(s, row));
  }

  /** Encoded primary keys from an encoded prefix up to its increment are those of the rows whose primary key
      starts with the prefix. */
  lemma PrefixMeaning(s: Schema, row: Row, prefix: seq<Value>)
    requires s.Valid() && GoodRow(s, row) && |prefix| <= |s.primaryKey|
    requires var tys := Project(Types(s), s.primaryKey)[..|prefix|]; AllMatch(prefix, tys) && AllEncodable(prefix, tys)
    ensures var p := Key(prefix, Project(Types(s), s.primaryKey)[..|prefix|]);
      InBounds(PkOf(s, row), p, Successor(p)) <==> prefix <= Project(row, s.primaryKey)
  {
    var tys, pk := Project(Types(s), s.primaryKey), Project(row, s.primaryKey);
    GoodEverywhere(s, row, s.primaryKey);
    ProjectEncodable(s, row, s.primaryKey);
    PkIs(s, row);
    LeadingMeansEqual(pk, prefix, tys);
    PrefixRange(Key(prefix, tys[..|prefix|]), PkOf(s, row));
  }

  lemma PkIs(s: Schema, row: Row)
    requires s.Valid() && FittingRow(s, row)
    ensures AllShaped(Project(row, s.primaryKey), Project(Types(s), s.primaryKey))
    ensures PkOf(s, row) == Key(Project(row, s.primaryKey), Project(Types(s), s.primaryKey))
  {
    ColumnsIs(s, row, s.primaryKey);
  }

  ghost predicate TupleAtMost(a: seq<Value>, b: seq<Value>) {
    a == b || TupleBelow(a, b)
  }

  /** Bounds on bytes are bounds on tuples when the encoding keeps their order. */
  lemma BoundsAre(k: ByteString, low: ByteString, high: ByteString, lowPk: seq<Value>, pk: seq<Value>, highPk: seq<Value>)
    requires (Below(low, k) <==> TupleBelow(lowPk, pk)) && (low == k <==> lowPk == pk)
    requires (Below(k, high) <==> TupleBelow(pk, highPk)) && (k == high <==> pk == highPk)
    ensures InBounds(k, low, Some(high)) <==> TupleAtMost(lowPk, pk) && TupleBelow(pk, highPk)
    ensures InBounds(k, low, None) <==> TupleAtMost(lowPk, pk)
    ensures AtMost(k, high) <==> TupleAtMost(pk, highPk)
    ensures forall end :: InBounds(k, low, Some(end)) <==> InBounds(k, low, None) && Below(k, end)
  {
    hide Below, TupleBelow;
  }
}
