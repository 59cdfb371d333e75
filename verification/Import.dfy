/**
 * Copying a SQLite snapshot into an empty PostgreSQL target, and checking the copy
 * independently afterwards (database/postgres_import.go, database/postgres_reconcile.go).
 * What the target makes of the rows it is given is not known: `landed` says which
 * rows it returns in key order. The encoder, the hash and the time layouts are
 * parameters.
 */
module Import {
  import opened Strings
  import opened Framing

  /** Go's nil, bool, int64, float64, string, []byte and time.Time. */
  datatype Value = Null | Bool(b: bool) | Int(i: int) | Real(r: real) | Text(s: string) | Bytes(bytes: string) | Time(ns: int)

  type Row = seq<Value>

  /** `layouts` parses a time, `encode` is the row's JSON, `sha` the digest of the whole stream. */
  datatype Codec = Codec(layouts: string -> Option<int>, encode: Row -> Option<seq<byte>>, sha: seq<byte> -> string)

  /** Encoded rows have Go lengths and the hash is injective. Nothing is assumed of the encoder here: JSON prints some different values alike. */
  ghost predicate Faithful(c: Codec) {
    && (forall r: Row :: c.encode(r).Some? ==> Sized(c.encode(r).value))
    && (forall s: seq<byte>, t: seq<byte> :: c.sha(s) == c.sha(t) ==> s == t)
  }

  datatype TableName =
    | Users | Badges | AuditLog | Clients | SelfServiceSessions | OidcClients | OidcCodes | OidcSessions | WebauthnUsers
    | WebauthnCredentials | WebauthnCeremonies | EmergencyAdminGrants | ClientEnrollmentTokens | ClientDeviceCredentials
    | ClientUpdateJobs

  const TABLES: seq<TableName> := [
    Users, Badges, AuditLog, Clients, SelfServiceSessions, OidcClients, OidcCodes, OidcSessions, WebauthnUsers,
    WebauthnCredentials, WebauthnCeremonies, EmergencyAdminGrants, ClientEnrollmentTokens, ClientDeviceCredentials,
    ClientUpdateJobs]

  /** Where each table comes in the order that its references demand. */
  function Place(t: TableName): nat {
    match t
    case Users => 0
    case Badges => 1
    case AuditLog => 2
    case Clients => 3
    case SelfServiceSessions => 4
    case OidcClients => 5
    case OidcCodes => 6
    case OidcSessions => 7
    case WebauthnUsers => 8
    case WebauthnCredentials => 9
    case WebauthnCeremonies => 10
    case EmergencyAdminGrants => 11
    case ClientEnrollmentTokens => 12
    case ClientDeviceCredentials => 13
    case ClientUpdateJobs => 14
  }

  /** Every table is copied once. */
  lemma TablesComplete(t: TableName, i: nat)
    ensures |TABLES| == 15 && (i < 15 ==> (TABLES[i] == t <==> Place(t) == i))
  {
  }

  const MAXIMUM_BYTES: int := 0x8000000

  // ----- normal form -----------------------------------------------------------------------

  function Microseconds(ns: int): int {
    ns - ns % 1000
  }

  /** normalizeSQLiteValue; times are nanoseconds since Go's zero time. */
  function Normalize(c: Codec, v: Value, kind: string): Option<Value> {
    if v.Null? then Some(Null)
    else if kind == "boolean" then
      if v.Bool? then Some(v)
      else if v == Int(0) then Some(Bool(false))
      else if v == Int(1) then Some(Bool(true))
      else None
    else if kind == "timestamp with time zone" then
      if v.Time? then Some(Time(Microseconds(v.ns)))
      else
        var text := if v.Text? then Some(v.s) else if v.Bytes? then Some(v.bytes) else None;
        if text.None? then None
        else match c.layouts(text.value)
          case None => None
          case Some(ns) => Some(Time(Microseconds(ns)))
    else Some(v)
  }

  /** Reading a stored value back and normalising it again changes nothing. */
  lemma NormalizeIdempotent(c: Codec, v: Value, kind: string)
    ensures Normalize(c, v, kind).Some? ==> Normalize(c, Normalize(c, v, kind).value, kind) == Normalize(c, v, kind)
  {
    assert forall ns :: Microseconds(Microseconds(ns)) == Microseconds(ns);
  }

  // ----- what a value means --------------------------------------------------------------------

  /** The moment a value names, directly or in one of the layouts. */
  predicate Tells(c: Codec, v: Value, ns: int) {
    v == Time(ns) || (v.Text? && c.layouts(v.s) == Some(ns)) || (v.Bytes? && c.layouts(v.bytes) == Some(ns))
  }

  /**
   * `w` is what `v` means in a column of this type: nothing stays nothing, truth is
   * itself or 1 for yes and 0 for no, a time is its last whole microsecond, and
   * everywhere else a value is kept.
   */
  ghost predicate Means(c: Codec, kind: string, v: Value, w: Value) {
    if v.Null? || w.Null? then v == w
    else if kind == "boolean" then w.Bool? && (v == w || v == Int(if w.b then 1 else 0))
    else if kind == "timestamp with time zone" then w.Time? && w.ns % 1000 == 0 && exists ns :: Tells(c, v, ns) && w.ns <= ns <= w.ns + 999
    else v == w
  }

  /** Normalisation finds exactly what a value means, and refuses exactly what means nothing. */
  lemma NormalizeMeans(c: Codec, v: Value, kind: string, w: Value)
    ensures Normalize(c, v, kind) == Some(w) <==> Means(c, kind, v, w)
  {
    if kind == "timestamp with time zone" && !v.Null? && w.Time? {
      var told := if v.Time? then Some(v.ns) else if v.Text? then c.layouts(v.s) else if v.Bytes? then c.layouts(v.bytes) else None;
      forall ns
        ensures Tells(c, v, ns) <==> told == Some(ns)
      {
      }
      if told.Some? {
        assert Tells(c, v, told.value);
        assert w.ns % 1000 == 0 && w.ns <= told.value <= w.ns + 999 <==> w.ns == Microseconds(told.value);
      }
    }
  }

  ghost predicate RowMeans(c: Codec, kinds: seq<string>, row: Row, out: Row)
    requires |row| <= |kinds|
  {
    |out| == |row| && forall i :: 0 <= i < |row| ==> Means(c, kinds[i], row[i], out[i])
  }

  /** Row for row and column for column, `out` is what the rows mean. */
  ghost predicate TableMeans(c: Codec, kinds: seq<string>, rows: seq<Row>, out: seq<Row>)
    requires Shaped(rows, kinds)
  {
    |out| == |rows| && forall i :: 0 <= i < |rows| ==> RowMeans(c, kinds, rows[i], out[i])
  }

  function Weight(v: Value): nat {
    match v
    case Text(s) => |s|
    case Bytes(b) => |b|
    case _ => 16
  }

  function NormalRow(c: Codec, row: Row, kinds: seq<string>): (r: Option<Row>)
    requires |row| <= |kinds|
    ensures r.Some? ==> |r.value| == |row|
  {
    if row == [] then Some([])
    else
      var last := |row| - 1;
      match NormalRow(c, row[..last], kinds)
      case None => None
      case Some(rest) =>
        match Normalize(c, row[last], kinds[last])
        case None => None
        case Some(v) => Some(rest + [v])
  }

  lemma {:induction false} NormalRowMeans(c: Codec, row: Row, kinds: seq<string>, out: Row)
    requires |row| <= |kinds|
    ensures NormalRow(c, row, kinds) == Some(out) <==> RowMeans(c, kinds, row, out)
    decreases |row|
  {
    if row != [] && |out| == |row| {
      var last := |row| - 1;
      NormalRowMeans(c, row[..last], kinds, out[..last]);
      NormalizeMeans(c, row[last], kinds[last], out[last]);
      assert out == out[..last] + [out[last]];
      if NormalRow(c, row, kinds) == Some(out) {
        assert NormalRow(c, row[..last], kinds).value == out[..last];
      }
    }
  }

  function RowWeight(row: Row): nat {
    if row == [] then 0 else RowWeight(row[..|row| - 1]) + Weight(row[|row| - 1])
  }

  /** All the text and bytes of a row. */
  function Letters(row: Row): string {
    if row == [] then ""
    else
      var v := row[|row| - 1];
      Letters(row[..|row| - 1]) + (if v.Text? then v.s else if v.Bytes? then v.bytes else "")
  }

  /** The columns that hold neither. */
  function Others(row: Row): set<nat> {
    set i: nat | i < |row| && !row[i].Text? && !row[i].Bytes?
  }

  /** A row weighs its letters, and sixteen for every other value. */
  lemma {:induction false} RowWeightCounts(row: Row)
    ensures RowWeight(row) == |Letters(row)| + 16 * |Others(row)|
    decreases |row|
  {
    if row == [] {
      assert Others(row) == {};
    } else {
      var last := |row| - 1;
      RowWeightCounts(row[..last]);
      var before := Others(row[..last]);
      if row[last].Text? || row[last].Bytes? {
        assert Others(row) == before;
      } else {
        assert last !in before && Others(row) == before + {last};
      }
    }
  }

  ghost predicate Shaped(rows: seq<Row>, kinds: seq<string>) {
    forall i :: 0 <= i < |rows| ==> |rows[i]| == |kinds|
  }

  /** All rows in normal form, if every one of them has one and can be encoded. */
  function Normal(c: Codec, rows: seq<Row>, kinds: seq<string>): (r: Option<seq<Row>>)
    requires Shaped(rows, kinds)
    ensures r.Some? ==> |r.value| == |rows|
  {
    if rows == [] then Some([])
    else
      var last := |rows| - 1;
      match Normal(c, rows[..last], kinds)
      case None => None
      case Some(rest) =>
        match NormalRow(c, rows[last], kinds)
        case None => None
        case Some(row) => if c.encode(row).Some? then Some(rest + [row]) else None
  }

  /** Whole tables are normalised to what they mean, and only if all of it can be encoded. */
  lemma {:induction false} NormalMeans(c: Codec, rows: seq<Row>, kinds: seq<string>, out: seq<Row>)
    requires Shaped(rows, kinds)
    ensures Normal(c, rows, kinds) == Some(out) <==> TableMeans(c, kinds, rows, out) && Encodable(c, out)
    decreases |rows|
  {
    if rows != [] && |out| == |rows| {
      var last := |rows| - 1;
      NormalMeans(c, rows[..last], kinds, out[..last]);
      NormalRowMeans(c, rows[last], kinds, out[last]);
      assert out == out[..last] + [out[last]];
      if Normal(c, rows, kinds) == Some(out) {
        assert Normal(c, rows[..last], kinds).value == out[..last];
      }
      assert TableMeans(c, kinds, rows, out) <==> TableMeans(c, kinds, rows[..last], out[..last]) && RowMeans(c, kinds, rows[last], out[last]);
      assert Encodable(c, out) <==> Encodable(c, out[..last]) && c.encode(out[last]).Some?;
    }
  }

  function Weights(rows: seq<Row>): nat {
    if rows == [] then 0 else Weights(rows[..|rows| - 1]) + RowWeight(rows[|rows| - 1])
  }

  predicate Encodable(c: Codec, rows: seq<Row>) {
    forall i :: 0 <= i < |rows| ==> c.encode(rows[i]).Some?
  }

  function Encoded(c: Codec, rows: seq<Row>): (r: seq<seq<byte>>)
    requires Encodable(c, rows)
    ensures |r| == |rows| && forall i :: 0 <= i < |r| ==> r[i] == c.encode(rows[i]).value
  {
    if rows == [] then [] else Encoded(c, rows[..|rows| - 1]) + [c.encode(rows[|rows| - 1]).value]
  }

  lemma {:induction false} NormalEncodable(c: Codec, rows: seq<Row>, kinds: seq<string>)
    requires Shaped(rows, kinds) && Normal(c, rows, kinds).Some?
    ensures Encodable(c, Normal(c, rows, kinds).value)
  {
    if rows != [] {
      NormalEncodable(c, rows[..|rows| - 1], kinds);
    }
  }

  /** What the digest is taken of. */
  function Hashed(c: Codec, rows: seq<Row>): seq<byte>
    requires Encodable(c, rows)
  {
    Stream(Encoded(c, rows))
  }

  /** Row for row the same encoding. */
  ghost predicate Alike(c: Codec, a: seq<Row>, b: seq<Row>) {
    |a| == |b| && forall i :: 0 <= i < |a| ==> c.encode(a[i]) == c.encode(b[i])
  }

  /** Equal digests if and only if the rows are encoded alike, one by one and in order. */
  lemma DigestDetermines(c: Codec, a: seq<Row>, b: seq<Row>)
    requires Faithful(c) && Encodable(c, a) && Encodable(c, b)
    ensures c.sha(Hashed(c, a)) == c.sha(Hashed(c, b)) <==> Alike(c, a, b)
  {
    var x, y := Encoded(c, a), Encoded(c, b);
    FramingRoundTrip(x);
    FramingRoundTrip(y);
    if Stream(x) == Stream(y) {
      assert x == y;
      forall i | 0 <= i < |a|
        ensures c.encode(a[i]) == c.encode(b[i])
      {
        assert x[i] == c.encode(a[i]).value && y[i] == c.encode(b[i]).value;
      }
    }
    if Alike(c, a, b) {
      assert x == y;
    }
  }

  datatype Tag = ATruth | ANumber | AFraction | AText | SomeBytes | ATime

  function TagOf(v: Value): Option<Tag> {
    match v
    case Null => None
    case Bool(_) => Some(ATruth)
    case Int(_) => Some(ANumber)
    case Real(_) => Some(AFraction)
    case Text(_) => Some(AText)
    case Bytes(_) => Some(SomeBytes)
    case Time(_) => Some(ATime)
  }

  /** Each column holds values of one sort, or nothing. */
  predicate Typed(row: Row, tags: seq<Tag>) {
    |row| == |tags| && forall i :: 0 <= i < |row| ==> row[i].Null? || TagOf(row[i]) == Some(tags[i])
  }

  /** The encoder tells rows of one typing apart. */
  ghost predicate InjectiveOn(c: Codec, tags: seq<Tag>) {
    forall r: Row, q: Row :: Typed(r, tags) && Typed(q, tags) && c.encode(r).Some? && c.encode(r) == c.encode(q) ==> r == q
  }

  /** Where every column has one sort on both sides, equal digests mean equal rows in the same order. */
  lemma TypedDigestDetermines(c: Codec, tags: seq<Tag>, a: seq<Row>, b: seq<Row>)
    requires Faithful(c) && InjectiveOn(c, tags) && Encodable(c, a) && Encodable(c, b)
    requires forall i :: 0 <= i < |a| ==> Typed(a[i], tags)
    requires forall i :: 0 <= i < |b| ==> Typed(b[i], tags)
    ensures c.sha(Hashed(c, a)) == c.sha(Hashed(c, b)) <==> a == b
  {
    DigestDetermines(c, a, b);
    if Alike(c, a, b) {
      forall i | 0 <= i < |a|
        ensures a[i] == b[i]
      {
        assert c.encode(a[i]).Some? && c.encode(a[i]) == c.encode(b[i]);
      }
    }
  }

  /** One row more, in the terms of the loops below. */
  lemma NormalNext(c: Codec, rows: seq<Row>, kinds: seq<string>, i: nat)
    requires Shaped(rows, kinds) && i < |rows| && Normal(c, rows[..i], kinds).Some?
    ensures NormalRow(c, rows[i], kinds).None? || c.encode(NormalRow(c, rows[i], kinds).value).None? ==> Normal(c, rows[..i + 1], kinds).None?
    ensures var n := NormalRow(c, rows[i], kinds);
            n.Some? && c.encode(n.value).Some? ==>
              var before := Normal(c, rows[..i], kinds).value;
              Normal(c, rows[..i + 1], kinds) == Some(before + [n.value])
              && Encodable(c, before) && Encodable(c, before + [n.value])
              && Weights(before + [n.value]) == Weights(before) + RowWeight(n.value)
              && Hashed(c, before + [n.value]) == Hashed(c, before) + Frame(c.encode(n.value).value)
  {
    assert rows[..i + 1][..i] == rows[..i];
    NormalEncodable(c, rows[..i], kinds);
    var n := NormalRow(c, rows[i], kinds);
    if n.Some? && c.encode(n.value).Some? {
      var before := Normal(c, rows[..i], kinds).value;
      var after := before + [n.value];
      NormalEncodable(c, rows[..i + 1], kinds);
      assert after[..|before|] == before;
      assert Encoded(c, after) == Encoded(c, before) + [c.encode(n.value).value];
      assert Encoded(c, after)[..|before|] == Encoded(c, before);
    }
  }

  /** A prefix of normal rows is normal; its weight is no larger. */
  lemma {:induction false} NormalPrefix(c: Codec, rows: seq<Row>, kinds: seq<string>, i: nat)
    requires Shaped(rows, kinds) && i <= |rows| && Normal(c, rows, kinds).Some?
    ensures Normal(c, rows[..i], kinds).Some?
    ensures Weights(Normal(c, rows[..i], kinds).value) <= Weights(Normal(c, rows, kinds).value)
    decreases |rows|
  {
    if i < |rows| {
      var last := |rows| - 1;
      NormalPrefix(c, rows[..last], kinds, i);
      assert rows[..last][..i] == rows[..i];
      var rest := Normal(c, rows[..last], kinds).value;
      var all := Normal(c, rows, kinds).value;
      assert all[..|rest|] == rest;
    } else {
      assert rows[..i] == rows;
    }
  }
}
