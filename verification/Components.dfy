/** The managed components and the file names the updater derives from them (internal/clientupdate/stage.go). */
module Components {

  datatype Spec = Spec(target: string, mode: nat, restartLightDM: bool)

  /** One line of componentSpecs: every target is a directory followed by the component's own name. */
  datatype Row = Row(component: string, directory: string, mode: nat, restartLightDM: bool) {
    function ToSpec(): Spec {
      Spec(directory + "/" + component, mode, restartLightDM)
    }
  }

  /** componentSpecs; modes 493 and 420 are octal 0755 and 0644. */
  const ROWS: seq<Row> := ROWS_A + ROWS_B + ROWS_C + ROWS_D + ROWS_E + ROWS_F

  const ROWS_A: seq<Row> := [
    Row("sw-badge-native-greeter", "/usr/local/bin", 493, true),
    Row("sw-badge-pam-helper", "/usr/local/libexec", 493, false)
  ]

  const ROWS_B: seq<Row> := [
    Row("sw-badge-client-status", "/usr/local/libexec", 493, false),
    Row("sw-badge-client-diagnostics", "/usr/local/sbin", 493, false)
  ]

  const ROWS_C: seq<Row> := [
    Row("sw-badge-client-updater", "/usr/local/sbin", 493, false),
    Row("sw-badge-client-update-worker", "/usr/local/sbin", 493, false)
  ]

  const ROWS_D: seq<Row> := [
    Row("swbadge-client-updates.service", "/etc/systemd/system", 420, false),
    Row("swbadge-client-updates.timer", "/etc/systemd/system", 420, false)
  ]

  const ROWS_E: seq<Row> := [
    Row("sw-badge-native-greeter-wrapper", "/usr/local/bin", 493, true),
    Row("sw-badge-pam-helper-wrapper", "/usr/local/libexec", 493, false)
  ]

  const ROWS_F: seq<Row> := [
    Row("swbadge-client-status.service", "/etc/systemd/system", 420, false),
    Row("swbadge-client-status.timer", "/etc/systemd/system", 420, false)
  ]

  function FromRows(rows: seq<Row>): map<string, Spec> {
    if rows == [] then map[]
    else FromRows(rows[1..])[rows[0].component := rows[0].ToSpec()]
  }

  function Table(): map<string, Spec> {
    FromRows(ROWS)
  }

  /** What the installer needs of a component table: one target per component and usable modes. */
  ghost predicate GoodTable(specs: map<string, Spec>) {
    (forall a, b :: a in specs && b in specs && specs[a].target == specs[b].target ==> a == b)
    && (forall a :: a in specs ==> 0 < specs[a].mode <= 511)
  }

  /** A name without path separator that ends in an ordinary character. */
  predicate PlainName(s: string) {
    s != "" && (forall i :: 0 <= i < |s| ==> s[i] != '/') && s[|s| - 1] != 'w'
  }

  ghost predicate PlainRows(rows: seq<Row>) {
    forall i :: 0 <= i < |rows| ==> PlainName(rows[i].component) && 0 < rows[i].mode <= 511
  }

  lemma PlainRowsA()
    ensures PlainRows(ROWS_A)
  {
  }

  lemma PlainRowsB()
    ensures PlainRows(ROWS_B)
  {
  }

  lemma PlainRowsC()
    ensures PlainRows(ROWS_C)
  {
  }

  lemma PlainRowsD()
    ensures PlainRows(ROWS_D)
  {
  }

  lemma PlainRowsE()
    ensures PlainRows(ROWS_E)
  {
  }

  lemma PlainRowsF()
    ensures PlainRows(ROWS_F)
  {
  }

  lemma TableRowsArePlain()
    ensures PlainRows(ROWS)
  {
    PlainRowsA();
    PlainRowsB();
    PlainRowsC();
    PlainRowsD();
    PlainRowsE();
    PlainRowsF();
  }

  lemma {:induction false} RowOf(rows: seq<Row>, c: string) returns (i: nat)
    requires c in FromRows(rows)
    ensures i < |rows| && rows[i].component == c && FromRows(rows)[c] == rows[i].ToSpec()
  {
    if rows[0].component == c {
      i := 0;
    } else {
      var k := RowOf(rows[1..], c);
      i := k + 1;
    }
  }

  lemma BaseNameUnique(d: string, a: string, e: string, b: string)
    requires '/' !in a && '/' !in b
    requires d + "/" + a == e + "/" + b
    ensures a == b && d == e
  {
    var s := d + "/" + a;
    assert s[|d|] == '/' && s[|e|] == '/';
    if |d| < |e| {
      assert false;
    } else if |e| < |d| {
      assert false;
    }
    assert a == s[|d| + 1..] == b;
    assert d == s[..|d|] == e;
  }

  /** The component table gives every component its own target. */
  lemma TableIsGood()
    ensures GoodTable(Table())
  {
    TableRowsArePlain();
    var specs := Table();
    forall a | a in specs
      ensures 0 < specs[a].mode <= 511
    {
      var i := RowOf(ROWS, a);
    }
    forall a, b | a in specs && b in specs && specs[a].target == specs[b].target
      ensures a == b
    {
      var i := RowOf(ROWS, a);
      var j := RowOf(ROWS, b);
      BaseNameUnique(ROWS[i].directory, a, ROWS[j].directory, b);
    }
  }

  /** The file a name stands for: a target, or a replacement about to be renamed onto it. */
  datatype Role = InPlace | ForInstall | ForRestore

  function Suffix(r: Role): string {
    match r
    case InPlace => ""
    case ForInstall => ".swbadge-install-new"
    case ForRestore => ".swbadge-restore-new"
  }

  /** rootedTarget(root, target) plus suffix, for a cleaned root without a trailing slash. */
  function FileName(root: string, target: string, r: Role): string {
    root + target + Suffix(r)
  }

  /** The last character separates targets from replacements, the fifth last the two replacements. */
  lemma SuffixMarks(s: string, r: Role)
    requires s != ""
    ensures r.InPlace? ==> (s + Suffix(r))[|s + Suffix(r)| - 1] == s[|s| - 1]
    ensures !r.InPlace? ==> |Suffix(r)| == 20 && (s + Suffix(r))[|s + Suffix(r)| - 1] == 'w'
    ensures r.ForInstall? ==> (s + Suffix(r))[|s + Suffix(r)| - 5] == 'l'
    ensures r.ForRestore? ==> (s + Suffix(r))[|s + Suffix(r)| - 5] == 'e'
  {
    assert r.InPlace? ==> s + Suffix(r) == s;
  }

  lemma SuffixTells(s: string, t: string, p: Role, q: Role)
    requires s + Suffix(p) == t + Suffix(q)
    requires s != "" && s[|s| - 1] != 'w'
    requires t != "" && t[|t| - 1] != 'w'
    ensures p == q && s == t
  {
    SuffixMarks(s, p);
    SuffixMarks(t, q);
    var n := s + Suffix(p);
    assert s == n[..|s|] && t == n[..|t|];
  }

  /** Different roles or targets never share a file name, so the structured paths of the model stand for different files. */
  lemma FileNamesDistinct(root: string, a: string, p: Role, b: string, q: Role)
    requires a in Table() && b in Table()
    requires FileName(root, Table()[a].target, p) == FileName(root, Table()[b].target, q)
    ensures a == b && p == q
  {
    TableRowsArePlain();
    var i := RowOf(ROWS, a);
    var j := RowOf(ROWS, b);
    RowNamesDistinct(root, ROWS[i], p, ROWS[j], q);
  }

  lemma RowNamesDistinct(root: string, x: Row, p: Role, y: Row, q: Role)
    requires PlainName(x.component) && PlainName(y.component)
    requires FileName(root, x.ToSpec().target, p) == FileName(root, y.ToSpec().target, q)
    ensures x.component == y.component && p == q
  {
    var s, t := root + x.ToSpec().target, root + y.ToSpec().target;
    SuffixTells(s, t, p, q);
    assert s == root + x.directory + "/" + x.component;
    assert t == root + y.directory + "/" + y.component;
    BaseNameUnique(root + x.directory, x.component, root + y.directory, y.component);
  }
}
