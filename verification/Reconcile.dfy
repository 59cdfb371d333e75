/**
 * The two runs over all tables: the import with its running totals and the
 * reconciliation with what remains of the budgets.
 */
module Reconcile {
  import opened Strings
  import opened Framing
  import opened Import

  /** The loop over one row's values, shared by both runs; `spent` grows by the row's weight. */
  method NormalizeRow(c: Codec, row: Row, kinds: seq<string>, spent: int) returns (r: Option<Row>, bytes: int)
    requires |row| == |kinds|
    ensures r == NormalRow(c, row, kinds)
    ensures forall out :: r == Some(out) <==> RowMeans(c, kinds, row, out)
    ensures r.Some? ==> bytes == spent + RowWeight(r.value)
  {
    forall out
      ensures NormalRow(c, row, kinds) == Some(out) <==> RowMeans(c, kinds, row, out)
    {
      NormalRowMeans(c, row, kinds, out);
    }
    var values: Row := [];
    bytes := spent;
    for i := 0 to |row|
      invariant NormalRow(c, row[..i], kinds) == Some(values)
      invariant bytes == spent + RowWeight(values)
    {
      assert row[..i + 1][..i] == row[..i];
      var v := Normalize(c, row[i], kinds[i]);
      if v.None? {
        NormalRowPrefix(c, row, kinds, i + 1);
        return None, bytes;
      }
      assert (values + [v.value])[..|values|] == values;
      values := values + [v.value];
      bytes := bytes + Weight(v.value);
    }
    assert row[..|row|] == row;
    return Some(values), bytes;
  }

  lemma {:induction false} NormalRowPrefix(c: Codec, row: Row, kinds: seq<string>, i: nat)
    requires |row| <= |kinds| && i <= |row|
    ensures NormalRow(c, row[..i], kinds).None? ==> NormalRow(c, row, kinds).None?
    decreases |row|
  {
    if i < |row| {
      NormalRowPrefix(c, row[..|row| - 1], kinds, i);
      assert row[..|row| - 1][..i] == row[..i];
    } else {
      assert row[..i] == row;
    }
  }

  ghost predicate Fits(c: Codec, rows: seq<Row>, kinds: seq<string>, maxRows: int, maxBytes: int)
    requires Shaped(rows, kinds)
  {
    Normal(c, rows, kinds).Some? && |rows| <= maxRows && Weights(Normal(c, rows, kinds).value) <= maxBytes
  }

  lemma FitsPrefix(c: Codec, rows: seq<Row>, kinds: seq<string>, i: nat, maxRows: int, maxBytes: int)
    requires Shaped(rows, kinds) && i <= |rows| && Fits(c, rows, kinds, maxRows, maxBytes)
    ensures Fits(c, rows[..i], kinds, maxRows, maxBytes)
  {
    NormalPrefix(c, rows, kinds, i);
  }

  /** What a run over one table's rows yields. */
  datatype Scan = Scan(rows: seq<Row>, stream: seq<byte>)

  ghost predicate Scanned(c: Codec, rows: seq<Row>, kinds: seq<string>, s: Scan)
    requires Shaped(rows, kinds)
  {
    Normal(c, rows, kinds) == Some(s.rows) && Encodable(c, s.rows) && s.stream == Hashed(c, s.rows)
  }

  /** The import's copy source: running totals against the whole limits. */
  method CopyRows(c: Codec, rows: seq<Row>, kinds: seq<string>, limit: int, total: int, totalBytes: int) returns (r: Option<Scan>, total': int, totalBytes': int)
    requires Shaped(rows, kinds) && total <= limit && totalBytes <= MAXIMUM_BYTES
    ensures r.Some? <==> Fits(c, rows, kinds, limit - total, MAXIMUM_BYTES - totalBytes)
    ensures r.Some? ==> Scanned(c, rows, kinds, r.value)
    ensures r.Some? ==> total' == total + |rows| && totalBytes' == totalBytes + Weights(r.value.rows)
  {
    var copied: seq<Row>, stream: seq<byte> := [], [];
    total', totalBytes' := total, totalBytes;
    for i := 0 to |rows|
      invariant Scanned(c, rows[..i], kinds, Scan(copied, stream))
      invariant total' == total + i <= limit
      invariant totalBytes' == totalBytes + Weights(copied) <= MAXIMUM_BYTES
    {
      var fits := false;
      total' := total' + 1;
      if total' <= limit {
        var values;
        values, totalBytes' := NormalizeRow(c, rows[i], kinds, totalBytes');
        NormalNext(c, rows, kinds, i);
        if values.Some? && totalBytes' <= MAXIMUM_BYTES && c.encode(values.value).Some? {
          fits := true;
          stream := stream + Frame(c.encode(values.value).value);
          copied := copied + [values.value];
        }
      }
      if !fits {
        NotFitting(c, rows, kinds, i, limit - total, MAXIMUM_BYTES - totalBytes);
        return None, total', totalBytes';
      }
    }
    assert rows[..|rows|] == rows;
    return Some(Scan(copied, stream)), total', totalBytes';
  }

  /** A row that does not fit keeps the table from fitting. */
  lemma NotFitting(c: Codec, rows: seq<Row>, kinds: seq<string>, i: nat, maxRows: int, maxBytes: int)
    requires Shaped(rows, kinds) && i < |rows| && !Fits(c, rows[..i + 1], kinds, maxRows, maxBytes)
    ensures !Fits(c, rows, kinds, maxRows, maxBytes)
  {
    if Fits(c, rows, kinds, maxRows, maxBytes) {
      FitsPrefix(c, rows, kinds, i + 1, maxRows, maxBytes);
    }
  }

  /** digestSQLiteRows: counts from zero against what remains. */
  method DigestRows(c: Codec, rows: seq<Row>, kinds: seq<string>, remainingRows: int, remainingBytes: int) returns (r: Option<Scan>, count: int, bytes: int)
    requires Shaped(rows, kinds) && remainingRows >= 0 && remainingBytes >= 0
    ensures r.Some? <==> Fits(c, rows, kinds, remainingRows, remainingBytes)
    ensures r.Some? ==> Scanned(c, rows, kinds, r.value) && count == |rows| && bytes == Weights(r.value.rows)
  {
    var seen: seq<Row>, stream: seq<byte> := [], [];
    count, bytes := 0, 0;
    for i := 0 to |rows|
      invariant Scanned(c, rows[..i], kinds, Scan(seen, stream))
      invariant count == i <= remainingRows
      invariant bytes == Weights(seen) <= remainingBytes
    {
      var fits := false;
      count := count + 1;
      if count <= remainingRows {
        var values;
        values, bytes := NormalizeRow(c, rows[i], kinds, bytes);
        NormalNext(c, rows, kinds, i);
        if values.Some? && bytes <= remainingBytes && c.encode(values.value).Some? {
          fits := true;
          stream := stream + Frame(c.encode(values.value).value);
          seen := seen + [values.value];
        }
      }
      if !fits {
        NotFitting(c, rows, kinds, i, remainingRows, remainingBytes);
        return None, 0, 0;
      }
    }
    assert rows[..|rows|] == rows;
    return Some(Scan(seen, stream)), count, bytes;
  }

  /** Reading the target back in key order, without a budget. */
  method ReadBack(c: Codec, rows: seq<Row>, kinds: seq<string>) returns (r: Option<Scan>, count: int)
    requires Shaped(rows, kinds)
    ensures r.Some? <==> Normal(c, rows, kinds).Some?
    ensures r.Some? ==> Scanned(c, rows, kinds, r.value) && count == |rows|
  {
    var seen: seq<Row>, stream: seq<byte> := [], [];
    count := 0;
    for i := 0 to |rows|
      invariant Scanned(c, rows[..i], kinds, Scan(seen, stream)) && count == i
    {
      var values, _ := NormalizeRow(c, rows[i], kinds, 0);
      NormalNext(c, rows, kinds, i);
      if values.None? || c.encode(values.value).None? {
        if Normal(c, rows, kinds).Some? {
          NormalPrefix(c, rows, kinds, i + 1);
        }
        return None, 0;
      }
      stream := stream + Frame(c.encode(values.value).value);
      seen := seen + [values.value];
      count := count + 1;
    }
    assert rows[..|rows|] == rows;
    return Some(Scan(seen, stream)), count;
  }

  /** The copy of a table holds rows that normalise and encode like the source's, in the same order. */
  ghost predicate Same(c: Codec, source: seq<Row>, target: seq<Row>, kinds: seq<string>)
    requires Shaped(source, kinds) && Shaped(target, kinds)
  {
    Normal(c, source, kinds).Some? && Normal(c, target, kinds).Some?
    && Alike(c, Normal(c, source, kinds).value, Normal(c, target, kinds).value)
  }

  /** In terms of what the values mean. */
  lemma SameExactly(c: Codec, source: seq<Row>, target: seq<Row>, kinds: seq<string>)
    requires Shaped(source, kinds) && Shaped(target, kinds)
    ensures Same(c, source, target, kinds) <==> exists a, b :: MeanAlike(c, source, target, kinds, a, b)
  {
    if Same(c, source, target, kinds) {
      var a, b := Normal(c, source, kinds).value, Normal(c, target, kinds).value;
      NormalMeans(c, source, kinds, a);
      NormalMeans(c, target, kinds, b);
      assert MeanAlike(c, source, target, kinds, a, b);
    }
    if a, b :| MeanAlike(c, source, target, kinds, a, b) {
      NormalMeans(c, source, kinds, a);
      NormalMeans(c, target, kinds, b);
    }
  }

  /** `a` is what the source means, `b` what the target means, and they are encoded alike. */
  ghost predicate MeanAlike(c: Codec, source: seq<Row>, target: seq<Row>, kinds: seq<string>, a: seq<Row>, b: seq<Row>)
    requires Shaped(source, kinds) && Shaped(target, kinds)
  {
    TableMeans(c, kinds, source, a) && TableMeans(c, kinds, target, b) && Encodable(c, a) && Encodable(c, b) && Alike(c, a, b)
  }

  /** What the target was handed is what the source means, all of it was inserted, and `rows` is what it then returned. */
  ghost predicate HandedOver(c: Codec, source: seq<Row>, kinds: seq<string>, landed: seq<Row> -> Option<Landing>, rows: seq<Row>)
    requires Shaped(source, kinds)
  {
    exists handed :: TableMeans(c, kinds, source, handed) && landed(handed).Some? && landed(handed).value == Landing(|source|, rows)
  }

  /** What the target answers to a copy: the inserted count, and its rows in key order. */
  datatype Landing = Landing(inserted: int, rows: seq<Row>)

  /** importTable. */
  method ImportTable(c: Codec, source: seq<Row>, kinds: seq<string>, landed: seq<Row> -> Option<Landing>, limit: int, total: int, totalBytes: int)
      returns (r: Option<seq<Row>>, total': int, totalBytes': int, count: int)
    requires Faithful(c) && Shaped(source, kinds) && total <= limit && totalBytes <= MAXIMUM_BYTES
    requires forall s :: landed(s).Some? ==> Shaped(landed(s).value.rows, kinds)
    ensures r.Some? ==> Shaped(r.value, kinds) && Same(c, source, r.value, kinds) && count == |source|
    ensures r.Some? ==> HandedOver(c, source, kinds, landed, r.value)
    ensures r.Some? ==> Fits(c, source, kinds, limit - total, MAXIMUM_BYTES - totalBytes)
    ensures r.Some? ==> total' == total + |source| && totalBytes' == totalBytes + Weights(Normal(c, source, kinds).value)
  {
    var scan;
    scan, total', totalBytes' := CopyRows(c, source, kinds, limit, total, totalBytes);
    count := 0;
    if scan.None? {
      return None, total', totalBytes', 0;
    }
    var landing := landed(scan.value.rows);
    if landing.None? || landing.value.inserted != |scan.value.rows| || |source| != landing.value.inserted {
      return None, total', totalBytes', 0;
    }
    var back, verified := ReadBack(c, landing.value.rows, kinds);
    if back.None? || verified != landing.value.inserted || c.sha(scan.value.stream) != c.sha(back.value.stream) {
      return None, total', totalBytes', 0;
    }
    DigestDetermines(c, scan.value.rows, back.value.rows);
    NormalMeans(c, source, kinds, scan.value.rows);
    return Some(landing.value.rows), total', totalBytes', landing.value.inserted;
  }

  /** reconcileTable. */
  method ReconcileTable(c: Codec, source: seq<Row>, target: seq<Row>, kinds: seq<string>, remainingRows: int, remainingBytes: int)
      returns (ok: bool, count: int, bytes: int)
    requires Faithful(c) && Shaped(source, kinds) && Shaped(target, kinds)
    ensures ok <==> remainingRows >= 0 && remainingBytes >= 0 && Fits(c, source, kinds, remainingRows, remainingBytes) && Same(c, source, target, kinds)
    ensures ok ==> count == |source| && bytes == Weights(Normal(c, source, kinds).value)
  {
    if remainingRows < 0 || remainingBytes < 0 {
      return false, 0, 0;
    }
    var scan;
    scan, count, bytes := DigestRows(c, source, kinds, remainingRows, remainingBytes);
    if scan.None? {
      return false, 0, 0;
    }
    var back, targetCount := ReadBack(c, target, kinds);
    if back.None? {
      return false, 0, 0;
    }
    DigestDetermines(c, scan.value.rows, back.value.rows);
    if targetCount != count || c.sha(back.value.stream) != c.sha(scan.value.stream) {
      return false, 0, 0;
    }
    return true, count, bytes;
  }

  // ----- all tables -----------------------------------------------------------------------------

  /** A database as its tables' rows in key order, with the target's column types. */
  type Content = TableName -> seq<Row>
  type Kinds = TableName -> seq<string>

  ghost predicate WellShaped(d: Content, kinds: Kinds) {
    forall t :: Shaped(d(t), kinds(t))
  }

  function RowsOf(tables: seq<TableName>, d: Content): nat {
    if tables == [] then 0 else RowsOf(tables[..|tables| - 1], d) + |d(tables[|tables| - 1])|
  }

  ghost function TableBytes(c: Codec, d: Content, kinds: Kinds, t: TableName): nat
    requires WellShaped(d, kinds)
  {
    var n := Normal(c, d(t), kinds(t));
    if n.Some? then Weights(n.value) else 0
  }

  ghost function BytesOf(tables: seq<TableName>, c: Codec, d: Content, kinds: Kinds): nat
    requires WellShaped(d, kinds)
  {
    if tables == [] then 0
    else BytesOf(tables[..|tables| - 1], c, d, kinds) + TableBytes(c, d, kinds, tables[|tables| - 1])
  }

  ghost predicate TableSame(c: Codec, source: Content, target: Content, kinds: Kinds, t: TableName)
    requires WellShaped(source, kinds) && WellShaped(target, kinds)
  {
    Same(c, source(t), target(t), kinds(t))
  }

  /** The tables agree and stay within both budgets. */
  ghost predicate Accepts(tables: seq<TableName>, c: Codec, source: Content, target: Content, kinds: Kinds, limit: int)
    requires WellShaped(source, kinds) && WellShaped(target, kinds)
  {
    (forall t :: t in tables ==> TableSame(c, source, target, kinds, t))
    && RowsOf(tables, source) <= limit && BytesOf(tables, c, source, kinds) <= MAXIMUM_BYTES
  }

  predicate LimitOk(limit: int) {
    1 <= limit <= 1000000
  }

  /** The source's row counts, which both runs return. */
  function Counts(tables: seq<TableName>, d: Content): map<TableName, int> {
    map t | t in tables :: |d(t)|
  }

  lemma CountsNext(tables: seq<TableName>, t: TableName, d: Content)
    ensures Counts(tables + [t], d) == Counts(tables, d)[t := |d(t)|]
  {
  }

  lemma {:induction false} AcceptsPrefix(tables: seq<TableName>, k: nat, c: Codec, source: Content, target: Content, kinds: Kinds, limit: int)
    requires WellShaped(source, kinds) && WellShaped(target, kinds) && k <= |tables|
    requires Accepts(tables, c, source, target, kinds, limit)
    ensures Accepts(tables[..k], c, source, target, kinds, limit)
    decreases |tables|
  {
    if k < |tables| {
      var fewer := tables[..|tables| - 1];
      assert Accepts(fewer, c, source, target, kinds, limit);
      AcceptsPrefix(fewer, k, c, source, target, kinds, limit);
      assert fewer[..k] == tables[..k];
    } else {
      assert tables[..k] == tables;
    }
  }

  /** The remaining-budget check of one more table decides the running totals over all of them. */
  lemma AcceptsNext(tables: seq<TableName>, t: TableName, c: Codec, source: Content, target: Content, kinds: Kinds, limit: int)
    requires WellShaped(source, kinds) && WellShaped(target, kinds)
    requires Accepts(tables, c, source, target, kinds, limit)
    ensures Accepts(tables + [t], c, source, target, kinds, limit) <==>
              TableSame(c, source, target, kinds, t)
              && Fits(c, source(t), kinds(t), limit - RowsOf(tables, source), MAXIMUM_BYTES - BytesOf(tables, c, source, kinds))
    ensures RowsOf(tables + [t], source) == RowsOf(tables, source) + |source(t)|
    ensures BytesOf(tables + [t], c, source, kinds) == BytesOf(tables, c, source, kinds) + TableBytes(c, source, kinds, t)
  {
    assert (tables + [t])[..|tables|] == tables;
    assert t in tables + [t];
  }

  /** ReconcileSQLite accepts exactly when every table agrees and both budgets hold. */
  method ReconcileTables(tables: seq<TableName>, c: Codec, source: Content, target: Content, kinds: Kinds, limit: int) returns (r: Option<map<TableName, int>>)
    requires Faithful(c) && WellShaped(source, kinds) && WellShaped(target, kinds)
    ensures r.Some? <==> LimitOk(limit) && Accepts(tables, c, source, target, kinds, limit)
    ensures r.Some? ==> r.value == Counts(tables, source)
  {
    if limit < 1 || limit > 1000000 {
      return None;
    }
    var counts: map<TableName, int>, total, totalBytes := map[], 0, 0;
    for k := 0 to |tables|
      invariant Accepts(tables[..k], c, source, target, kinds, limit)
      invariant total == RowsOf(tables[..k], source) && totalBytes == BytesOf(tables[..k], c, source, kinds)
      invariant counts == Counts(tables[..k], source)
    {
      var t := tables[k];
      assert tables[..k + 1] == tables[..k] + [t];
      var ok, count, bytes := ReconcileTable(c, source(t), target(t), kinds(t), limit - total, MAXIMUM_BYTES - totalBytes);
      AcceptsNext(tables[..k], t, c, source, target, kinds, limit);
      if !ok {
        if Accepts(tables, c, source, target, kinds, limit) {
          AcceptsPrefix(tables, k + 1, c, source, target, kinds, limit);
        }
        return None;
      }
      total, totalBytes := total + count, totalBytes + bytes;
      CountsNext(tables[..k], t, source);
      counts := counts[t := count];
    }
    assert tables[..|tables|] == tables;
    return Some(counts);
  }

  /** What the environment of an import answers. */
  datatype World = World(landed: TableName -> (seq<Row> -> Option<Landing>), ambiguousUsers: bool, watermarksValid: bool, commits: bool)

  ghost predicate WorldShaped(w: World, kinds: Kinds) {
    forall t, s :: w.landed(t)(s).Some? ==> Shaped(w.landed(t)(s).value.rows, kinds(t))
  }

  ghost predicate Landed(tables: seq<TableName>, c: Codec, source: Content, rows: map<TableName, seq<Row>>, kinds: Kinds, w: World)
    requires WellShaped(source, kinds)
  {
    rows.Keys == (set t | t in tables)
    && forall t :: t in rows ==> Shaped(rows[t], kinds(t)) && Same(c, source(t), rows[t], kinds(t)) && HandedOver(c, source(t), kinds(t), w.landed(t), rows[t])
  }

  lemma LandedNext(tables: seq<TableName>, t: TableName, c: Codec, source: Content, rows: map<TableName, seq<Row>>, kinds: Kinds, w: World, back: seq<Row>)
    requires WellShaped(source, kinds) && Landed(tables, c, source, rows, kinds, w)
    requires Shaped(back, kinds(t)) && Same(c, source(t), back, kinds(t)) && HandedOver(c, source(t), kinds(t), w.landed(t), back)
    ensures Landed(tables + [t], c, source, rows[t := back], kinds, w)
  {
  }

  lemma LandedIsAccepted(tables: seq<TableName>, c: Codec, source: Content, rows: map<TableName, seq<Row>>, target: Content, kinds: Kinds, w: World, limit: int)
    requires WellShaped(source, kinds) && Landed(tables, c, source, rows, kinds, w)
    requires RowsOf(tables, source) <= limit && BytesOf(tables, c, source, kinds) <= MAXIMUM_BYTES
    requires forall t :: target(t) == if t in rows then rows[t] else []
    ensures WellShaped(target, kinds) && Accepts(tables, c, source, target, kinds, limit)
  {
  }

  /** The import's loop over all tables, in one transaction. */
  method CopyTables(tables: seq<TableName>, c: Codec, source: Content, kinds: Kinds, limit: int, w: World)
      returns (ok: bool, copied: map<TableName, seq<Row>>, counts: map<TableName, int>)
    requires Faithful(c) && WellShaped(source, kinds) && WorldShaped(w, kinds) && limit >= 0
    ensures ok ==> Landed(tables, c, source, copied, kinds, w) && counts == Counts(tables, source)
    ensures ok ==> RowsOf(tables, source) <= limit && BytesOf(tables, c, source, kinds) <= MAXIMUM_BYTES
  {
    var total, totalBytes := 0, 0;
    copied, counts := map[], map[];
    for k := 0 to |tables|
      invariant Landed(tables[..k], c, source, copied, kinds, w)
      invariant total == RowsOf(tables[..k], source) <= limit
      invariant totalBytes == BytesOf(tables[..k], c, source, kinds) <= MAXIMUM_BYTES
      invariant counts == Counts(tables[..k], source)
    {
      var t := tables[k];
      assert tables[..k + 1] == tables[..k] + [t] && tables[..k + 1][..k] == tables[..k];
      var back, count;
      back, total, totalBytes, count := ImportTable(c, source(t), kinds(t), w.landed(t), limit, total, totalBytes);
      if back.None? {
        return false, copied, counts;
      }
      LandedNext(tables[..k], t, c, source, copied, kinds, w, back.value);
      CountsNext(tables[..k], t, source);
      copied, counts := copied[t := back.value], counts[t := count];
    }
    assert tables[..|tables|] == tables;
    return true, copied, counts;
  }

  /** PostgreSQL as the import sees it: the rows of every table in key order. */
  class Target {
    var rows: map<TableName, seq<Row>>

    function Table(t: TableName): seq<Row>
      reads this
    {
      if t in rows then rows[t] else []
    }

    /** The content as a value. */
    function Content(): Content
      reads this
    {
      var now := rows;
      (t: TableName) => if t in now then now[t] else []
    }

    /** ImportSQLite: the target has to be empty, and a failure leaves it as it was. */
    method ImportTables(tables: seq<TableName>, c: Codec, source: Content, kinds: Kinds, limit: int, w: World) returns (r: Option<map<TableName, int>>)
      requires Faithful(c) && WellShaped(source, kinds) && WorldShaped(w, kinds)
      modifies this
      ensures r.None? ==> rows == old(rows)
      ensures r.Some? ==> (forall t :: t in tables ==> old(Table(t)) == []) && !w.ambiguousUsers && w.watermarksValid && w.commits
      ensures r.Some? ==> LimitOk(limit) && r.value == Counts(tables, source) && WellShaped(Content(), kinds)
      ensures r.Some? ==> Accepts(tables, c, source, Content(), kinds, limit) && BytesOf(tables, c, source, kinds) <= 134_217_728
      ensures r.Some? ==> forall t :: t in tables ==> HandedOver(c, source(t), kinds(t), w.landed(t), Table(t))
    {
      if limit < 1 || limit > 1000000 {
        return None;
      }
      if exists t :: t in tables && Table(t) != [] {
        return None;
      }
      var ok, copied, counts := CopyTables(tables, c, source, kinds, limit, w);
      if !ok || w.ambiguousUsers || !w.watermarksValid || !w.commits {
        return None;
      }
      rows := copied;
      LandedIsAccepted(tables, c, source, copied, Content(), kinds, w, limit);
      return Some(counts);
    }
  }

  /** Whatever an import commits, the reconciliation of the unchanged target accepts with the same counts. */
  method ImportThenReconcile(target: Target, c: Codec, source: Content, kinds: Kinds, limit: int, w: World)
      returns (imported: Option<map<TableName, int>>, reconciled: Option<map<TableName, int>>)
    requires Faithful(c) && WellShaped(source, kinds) && WorldShaped(w, kinds)
    modifies target
    ensures imported.Some? ==> reconciled == imported
  {
    imported := target.ImportTables(TABLES, c, source, kinds, limit, w);
    reconciled := None;
    if imported.Some? {
      reconciled := ReconcileTables(TABLES, c, source, target.Content(), kinds, limit);
    }
  }
}
