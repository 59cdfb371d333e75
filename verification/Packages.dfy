/** Package verification (verify.go): archive entries, signed manifest, payload sizes and hashes. */
module Packages {
  import opened Strings
  import opened Components
  import opened Disks
  import Versions

  const MAX_MANIFEST_SIZE: nat := 0x1_0000
  const MAX_PACKAGE_SIZE: nat := 0x1000_0000
  const MAX_SIGNATURE_TEXT: nat := 1024
  const MAX_ENTRIES: nat := 32

  /** A zip entry; `declared` is the uncompressed size its header claims. */
  datatype Entry = Entry(name: string, isDir: bool, declared: nat, data: Bytes)

  datatype ManifestFileEntry = ManifestFileEntry(component: string, size: int, sha: Digest)

  datatype Manifest = Manifest(
    schema: int, releaseVersion: string, channel: string, architecture: string,
    minimumVersion: string, createdAt: int, files: seq<ManifestFileEntry>)

  /** The foreign parts: JSON decoding of the manifest, Ed25519 verification under the trusted key, and the platform's own name. */
  datatype Crypto = Crypto(decode: Bytes -> Option<Manifest>, signed: (Bytes, Bytes) -> bool, native: string)

  // ----- manifest ------------------------------------------------------------------

  predicate FileEntryValid(specs: map<string, Spec>, f: ManifestFileEntry) {
    f.component in specs && 0 <= f.size <= 67_108_864 && f.sha.Sha256?
  }

  ghost predicate FilesValid(specs: map<string, Spec>, fs: seq<ManifestFileEntry>) {
    (forall i :: 0 <= i < |fs| ==> FileEntryValid(specs, fs[i]))
    && forall i, j :: 0 <= i < j < |fs| ==> fs[i].component != fs[j].component
  }

  /** `current` is empty when no installed version is to be compared. */
  predicate VersionAllowed(m: Manifest, current: string) {
    Versions.Valid(m.releaseVersion) && Versions.Valid(m.minimumVersion)
    && (current != "" ==>
      Versions.Valid(current)
      && Versions.Compare(current, m.minimumVersion) >= 0
      && Versions.Compare(current, m.releaseVersion) < 0)
  }

  /** Without an expected architecture the platform's own is expected. */
  ghost predicate ManifestValid(specs: map<string, Spec>, native: string, m: Manifest, architecture: string, current: string) {
    m.schema == 1 && VersionAllowed(m, current)
    && (m.channel == "development" || m.channel == "stable")
    && m.architecture == (if architecture == "" then native else architecture) && m.createdAt != 0 && m.files != []
    && FilesValid(specs, m.files)
  }

  /** validateManifest. */
  method ValidateManifest(specs: map<string, Spec>, native: string, m: Manifest, architecture: string, current: string) returns (ok: bool)
    ensures ok <==> ManifestValid(specs, native, m, architecture, current)
  {
    if m.schema != 1 {
      return false;
    }
    var release := Versions.ValidVersion(m.releaseVersion);
    var minimum := Versions.ValidVersion(m.minimumVersion);
    if !release || !minimum {
      return false;
    }
    if m.channel != "development" && m.channel != "stable" {
      return false;
    }
    var expected := architecture;
    if expected == "" {
      expected := native;
    }
    if m.architecture != expected || m.createdAt == 0 || m.files == [] {
      return false;
    }
    if current != "" {
      var valid := Versions.ValidVersion(current);
      if !valid {
        return false;
      }
      var low := Versions.CompareVersions(current, m.minimumVersion);
      if low < 0 {
        return false;
      }
      var high := Versions.CompareVersions(current, m.releaseVersion);
      if high >= 0 {
        return false;
      }
    }
    ok := ValidateFiles(specs, m.files);
  }

  method ValidateFiles(specs: map<string, Spec>, fs: seq<ManifestFileEntry>) returns (ok: bool)
    ensures ok <==> FilesValid(specs, fs)
  {
    var seen: set<string> := {};
    for i := 0 to |fs|
      invariant seen == set k | 0 <= k < i :: fs[k].component
      invariant forall k :: 0 <= k < i ==> FileEntryValid(specs, fs[k])
      invariant forall j, k :: 0 <= j < k < i ==> fs[j].component != fs[k].component
    {
      if fs[i].component !in specs || fs[i].component in seen {
        return false;
      }
      seen := seen + {fs[i].component};
      if fs[i].size < 0 || fs[i].size > MAX_FILE_SIZE || fs[i].sha.Malformed? {
        return false;
      }
    }
    return true;
  }

  // ----- archive -------------------------------------------------------------------

  predicate HasDots(s: string) {
    exists i :: 0 <= i < |s| - 1 && s[i] == '.' && s[i + 1] == '.'
  }

  predicate SafeEntry(e: Entry) {
    !e.isDir && '\\' !in e.name && !HasDots(e.name) && !(e.name != "" && e.name[0] == '/')
  }

  ghost predicate EntriesSafe(es: seq<Entry>) {
    |es| <= MAX_ENTRIES
    && (forall i :: 0 <= i < |es| ==> SafeEntry(es[i]))
    && forall i, j :: 0 <= i < j < |es| ==> es[i].name != es[j].name
  }

  /** The archive as a map from entry name to entry. */
  ghost predicate Indexes(index: map<string, Entry>, es: seq<Entry>) {
    (forall i :: 0 <= i < |es| ==> es[i].name in index && index[es[i].name] == es[i])
    && forall n :: n in index ==> exists i :: 0 <= i < |es| && es[i].name == n
  }

  /** The first loop of verifyPackageEntries. */
  method IndexEntries(es: seq<Entry>) returns (ok: bool, index: map<string, Entry>)
    ensures ok <==> EntriesSafe(es)
    ensures ok ==> Indexes(index, es)
  {
    index := map[];
    for i := 0 to |es|
      invariant i <= MAX_ENTRIES && |index| == i
      invariant forall k :: 0 <= k < i ==> SafeEntry(es[k])
      invariant forall j, k :: 0 <= j < k < i ==> es[j].name != es[k].name
      invariant forall k :: 0 <= k < i ==> es[k].name in index && index[es[k].name] == es[k]
      invariant index.Keys == set k | 0 <= k < i :: es[k].name
    {
      if |index| >= MAX_ENTRIES {
        return false, index;
      }
      if !SafeEntry(es[i]) || es[i].name in index {
        return false, index;
      }
      index := index[es[i].name := es[i]];
    }
    return true, index;
  }

  /** readEntry: the entry's data if it exists and respects the limit. */
  function ReadEntry(index: map<string, Entry>, name: string, limit: int): Option<Bytes> {
    if name !in index || index[name].declared > limit || |index[name].data| > limit then None
    else Some(index[name].data)
  }

  function PayloadName(component: string): string { "payload/" + component }

  predicate PayloadMatches(index: map<string, Entry>, f: ManifestFileEntry) {
    var data := ReadEntry(index, PayloadName(f.component), f.size);
    data.Some? && |data.value| == f.size && Sha256(data.value) == f.sha
  }

  function Total(fs: seq<ManifestFileEntry>): int {
    if fs == [] then 0 else Total(fs[..|fs| - 1]) + fs[|fs| - 1].size
  }

  function Concatenated(datas: seq<Bytes>): Bytes {
    if datas == [] then [] else Concatenated(datas[..|datas| - 1]) + datas[|datas| - 1]
  }

  /** The total is the length of all payloads together. */
  lemma {:induction false} TotalIsLength(fs: seq<ManifestFileEntry>, datas: seq<Bytes>)
    requires |datas| == |fs| && forall i :: 0 <= i < |fs| ==> |datas[i]| == fs[i].size
    ensures Total(fs) == |Concatenated(datas)|
  {
    if fs != [] {
      TotalIsLength(fs[..|fs| - 1], datas[..|datas| - 1]);
    }
  }

  ghost predicate PayloadsMatch(index: map<string, Entry>, fs: seq<ManifestFileEntry>) {
    (forall i :: 0 <= i < |fs| ==> PayloadMatches(index, fs[i])) && Total(fs) <= MAX_PACKAGE_SIZE
  }

  lemma TotalGrows(fs: seq<ManifestFileEntry>, i: nat)
    requires i <= |fs| && forall k :: 0 <= k < |fs| ==> fs[k].size >= 0
    ensures Total(fs[..i]) <= Total(fs)
    decreases |fs| - i
  {
    if i < |fs| {
      assert fs[..i + 1][..i] == fs[..i];
      TotalGrows(fs, i + 1);
    } else {
      assert fs[..i] == fs;
    }
  }

  /** The second loop of verifyPackageEntries, with its running total. */
  method CheckPayloads(index: map<string, Entry>, fs: seq<ManifestFileEntry>) returns (ok: bool, listed: set<string>, names: seq<string>)
    requires forall i :: 0 <= i < |fs| ==> fs[i].size >= 0
    ensures ok <==> PayloadsMatch(index, fs)
    ensures ok ==> names == NamesOf(fs)
    ensures ok ==> listed == {"manifest.json", "manifest.sig"} + set i | 0 <= i < |fs| :: PayloadName(fs[i].component)
  {
    listed, names := {"manifest.json", "manifest.sig"}, [];
    var total := 0;
    for i := 0 to |fs|
      invariant total == Total(fs[..i]) <= MAX_PACKAGE_SIZE
      invariant names == NamesOf(fs[..i])
      invariant listed == {"manifest.json", "manifest.sig"} + set k | 0 <= k < i :: PayloadName(fs[k].component)
      invariant forall k :: 0 <= k < i ==> PayloadMatches(index, fs[k])
    {
      var f := fs[i];
      assert fs[..i + 1][..i] == fs[..i];
      listed := listed + {PayloadName(f.component)};
      names := names + [f.component];
      total := total + f.size;
      if total > MAX_PACKAGE_SIZE {
        TotalGrows(fs, i + 1);
        return false, listed, names;
      }
      if !PayloadMatches(index, f) {
        return false, listed, names;
      }
    }
    assert fs[..|fs|] == fs;
    return true, listed, names;
  }

  function NamesOf(fs: seq<ManifestFileEntry>): seq<string> {
    seq(|fs|, i requires 0 <= i < |fs| => fs[i].component)
  }

  // ----- sorting the component names -------------------------------------------------

  ghost predicate Sorted(names: seq<string>) {
    forall i, j :: 0 <= i < j < |names| ==> !LexLess(names[j], names[i])
  }

  function Insert(x: string, names: seq<string>): (r: seq<string>)
    ensures multiset(r) == multiset(names) + multiset{x}
  {
    if names == [] || !LexLess(names[0], x) then [x] + names
    else
      assert names == [names[0]] + names[1..];
      [names[0]] + Insert(x, names[1..])
  }

  /** sort.Strings. */
  function SortStrings(names: seq<string>): (r: seq<string>)
    ensures multiset(r) == multiset(names)
  {
    if names == [] then []
    else
      assert names == [names[0]] + names[1..];
      Insert(names[0], SortStrings(names[1..]))
  }

  lemma {:induction false} InsertSorts(x: string, names: seq<string>)
    requires Sorted(names)
    ensures Sorted(Insert(x, names))
  {
    if names != [] && LexLess(names[0], x) {
      InsertSorts(x, names[1..]);
      var rest := Insert(x, names[1..]);
      forall j | 0 <= j < |rest|
        ensures !LexLess(rest[j], names[0])
      {
        assert rest[j] in multiset(rest);
        LexTrichotomy(names[0], x);
      }
    } else {
      forall j | 0 <= j < |names|
        ensures !LexLess(names[j], x)
      {
        if LexLess(names[j], x) {
          LexTrichotomy(names[0], names[j]);
          LexTrichotomy(names[0], x);
          if LexLess(names[0], names[j]) {
            LexTransitive(names[0], names[j], x);
          }
        }
      }
    }
  }

  lemma {:induction false} SortStringsSorts(names: seq<string>)
    ensures Sorted(SortStrings(names))
  {
    if names != [] {
      SortStringsSorts(names[1..]);
      InsertSorts(names[0], SortStrings(names[1..]));
    }
  }

  ghost predicate NoRepeats(names: seq<string>) {
    forall i, j :: 0 <= i < j < |names| ==> names[i] != names[j]
  }

  lemma {:induction false} NoRepeatsCount(names: seq<string>, x: string)
    requires NoRepeats(names)
    ensures multiset(names)[x] <= 1
  {
    if names != [] {
      assert names == [names[0]] + names[1..];
      NoRepeatsCount(names[1..], x);
      assert names[0] !in names[1..];
    }
  }

  /** Rearranging distinct names keeps them distinct, and keeps the set. */
  lemma RearrangedNames(a: seq<string>, b: seq<string>)
    requires multiset(a) == multiset(b) && NoRepeats(b)
    ensures NoRepeats(a) && |a| == |b|
    ensures forall x :: x in a <==> x in b
  {
    assert |multiset(a)| == |a| && |multiset(b)| == |b|;
    forall x
      ensures x in a <==> x in b
    {
      assert (x in a <==> x in multiset(a)) && (x in b <==> x in multiset(b));
    }
    forall i, j | 0 <= i < j < |a|
      ensures a[i] != a[j]
    {
      NoRepeatsCount(b, a[i]);
      assert a == a[..j] + [a[j]] + a[j + 1..];
      assert a[i] in a[..j];
      assert multiset(a[..j])[a[i]] >= 1;
    }
  }

  // ----- the package -----------------------------------------------------------------

  /** The manifest of an archive whose signature verifies and which decodes. */
  function SignedManifest(crypto: Crypto, index: map<string, Entry>): Option<Manifest> {
    var raw, sig := ReadEntry(index, "manifest.json", MAX_MANIFEST_SIZE), ReadEntry(index, "manifest.sig", MAX_SIGNATURE_TEXT);
    if raw.Some? && sig.Some? && crypto.signed(raw.value, sig.value) then crypto.decode(raw.value) else None
  }

  ghost function Listed(m: Manifest): set<string> {
    {"manifest.json", "manifest.sig"} + set i | 0 <= i < |m.files| :: PayloadName(m.files[i].component)
  }

  /** The archive is signed, valid for this client and carries exactly the manifest's payloads. */
  ghost predicate ArchiveGood(specs: map<string, Spec>, crypto: Crypto, index: map<string, Entry>, architecture: string, current: string) {
    SignedManifest(crypto, index).Some? &&
    var m := SignedManifest(crypto, index).value;
    ManifestValid(specs, crypto.native, m, architecture, current) && PayloadsMatch(index, m.files) && index.Keys <= Listed(m)
  }

  /** What verifyPackageEntries accepts. */
  ghost predicate PackageGood(specs: map<string, Spec>, crypto: Crypto, es: seq<Entry>, architecture: string, current: string) {
    EntriesSafe(es) && exists index :: Indexes(index, es) && ArchiveGood(specs, crypto, index, architecture, current)
  }

  /** What it reports; `index` is the archive that staging reads again. */
  datatype Release = Release(manifest: Manifest, names: seq<string>, index: map<string, Entry>)

  ghost predicate IsRelease(specs: map<string, Spec>, crypto: Crypto, r: Release, architecture: string, current: string) {
    ArchiveGood(specs, crypto, r.index, architecture, current)
    && SignedManifest(crypto, r.index) == Some(r.manifest)
    && r.names == SortStrings(NamesOf(r.manifest.files))
  }

  // ----- the same, said of the archive's entries alone -------------------------------

  /** Some entry of that name holds the data, within the limit. */
  ghost predicate Carries(es: seq<Entry>, name: string, limit: int, data: Bytes) {
    exists i :: 0 <= i < |es| && es[i].name == name && es[i].declared <= limit && |es[i].data| <= limit && es[i].data == data
  }

  /** A manifest entry that decodes to `m`, and a signature entry that verifies for it under the trusted key. */
  ghost predicate SignedIn(crypto: Crypto, es: seq<Entry>, m: Manifest) {
    exists raw, sig :: Carries(es, "manifest.json", 65_536, raw) && Carries(es, "manifest.sig", 1_024, sig)
      && crypto.signed(raw, sig) && crypto.decode(raw) == Some(m)
  }

  /** At most 32 files, each under its own relative name without backslash or "..". */
  ghost predicate WellNamed(es: seq<Entry>) {
    |es| <= 32
    && (forall i :: 0 <= i < |es| ==> !es[i].isDir && '\\' !in es[i].name && (es[i].name != "" ==> es[i].name[0] != '/'))
    && (forall i, k :: 0 <= i < |es| && 0 <= k < |es[i].name| - 1 ==> es[i].name[k] != '.' || es[i].name[k + 1] != '.')
    && forall i, j :: 0 <= i < j < |es| ==> es[i].name != es[j].name
  }

  ghost predicate CarriesPayload(es: seq<Entry>, f: ManifestFileEntry) {
    exists data :: Carries(es, "payload/" + f.component, f.size, data) && |data| == f.size && Sha256(data) == f.sha
  }

  predicate NamedIn(name: string, m: Manifest) {
    name == "manifest.json" || name == "manifest.sig" || exists k :: 0 <= k < |m.files| && name == "payload/" + m.files[k].component
  }

  /** A payload of the signed size and digest for every manifest file, within the total, and no other entry. */
  ghost predicate Complete(es: seq<Entry>, m: Manifest) {
    (forall k :: 0 <= k < |m.files| ==> CarriesPayload(es, m.files[k]))
    && (forall i :: 0 <= i < |es| ==> NamedIn(es[i].name, m))
    && Total(m.files) <= 0x1000_0000
  }

  ghost predicate Acceptable(specs: map<string, Spec>, crypto: Crypto, es: seq<Entry>, architecture: string, current: string, m: Manifest) {
    WellNamed(es) && SignedIn(crypto, es, m) && ManifestValid(specs, crypto.native, m, architecture, current) && Complete(es, m)
  }

  lemma ReadIsCarried(index: map<string, Entry>, es: seq<Entry>, name: string, limit: int, data: Bytes)
    requires Indexes(index, es)
    ensures ReadEntry(index, name, limit) == Some(data) <==> Carries(es, name, limit, data)
  {
    if Carries(es, name, limit, data) {
      var i :| 0 <= i < |es| && es[i].name == name && es[i].declared <= limit && |es[i].data| <= limit && es[i].data == data;
      assert index[es[i].name] == es[i];
    }
    if ReadEntry(index, name, limit) == Some(data) {
      var i :| 0 <= i < |es| && es[i].name == name;
      assert index[es[i].name] == es[i];
    }
  }

  lemma SafeIsWellNamed(es: seq<Entry>)
    ensures EntriesSafe(es) <==> WellNamed(es)
  {
    forall i | 0 <= i < |es|
      ensures !HasDots(es[i].name) <==> forall k :: 0 <= k < |es[i].name| - 1 ==> es[i].name[k] != '.' || es[i].name[k + 1] != '.'
    {
    }
  }

  lemma SignedExactly(crypto: Crypto, index: map<string, Entry>, es: seq<Entry>, m: Manifest)
    requires Indexes(index, es)
    ensures SignedManifest(crypto, index) == Some(m) <==> SignedIn(crypto, es, m)
  {
    forall data: Bytes
      ensures ReadEntry(index, "manifest.json", MAX_MANIFEST_SIZE) == Some(data) <==> Carries(es, "manifest.json", MAX_MANIFEST_SIZE, data)
      ensures ReadEntry(index, "manifest.sig", MAX_SIGNATURE_TEXT) == Some(data) <==> Carries(es, "manifest.sig", MAX_SIGNATURE_TEXT, data)
    {
      ReadIsCarried(index, es, "manifest.json", MAX_MANIFEST_SIZE, data);
      ReadIsCarried(index, es, "manifest.sig", MAX_SIGNATURE_TEXT, data);
    }
  }

  lemma PayloadExactly(index: map<string, Entry>, es: seq<Entry>, f: ManifestFileEntry)
    requires Indexes(index, es)
    ensures PayloadMatches(index, f) <==> CarriesPayload(es, f)
  {
    var name := PayloadName(f.component);
    forall data: Bytes
      ensures ReadEntry(index, name, f.size) == Some(data) <==> Carries(es, name, f.size, data)
    {
      ReadIsCarried(index, es, name, f.size, data);
    }
  }

  lemma CompleteExactly(index: map<string, Entry>, es: seq<Entry>, m: Manifest)
    requires Indexes(index, es)
    ensures PayloadsMatch(index, m.files) && index.Keys <= Listed(m) <==> Complete(es, m)
  {
    forall k | 0 <= k < |m.files|
      ensures PayloadMatches(index, m.files[k]) <==> CarriesPayload(es, m.files[k])
    {
      PayloadExactly(index, es, m.files[k]);
    }
    assert (forall k :: 0 <= k < |m.files| ==> PayloadMatches(index, m.files[k])) <==> (forall k :: 0 <= k < |m.files| ==> CarriesPayload(es, m.files[k]));
    KeysExactly(index, es, m);
  }

  lemma KeysExactly(index: map<string, Entry>, es: seq<Entry>, m: Manifest)
    requires Indexes(index, es)
    ensures index.Keys <= Listed(m) <==> forall i :: 0 <= i < |es| ==> NamedIn(es[i].name, m)
  {
    forall n
      ensures n in Listed(m) <==> NamedIn(n, m)
    {
      ListedIsNamed(n, m);
    }
    assert forall i :: 0 <= i < |es| ==> es[i].name in index.Keys;
  }

  lemma ListedIsNamed(n: string, m: Manifest)
    ensures n in Listed(m) <==> NamedIn(n, m)
  {
    assert forall k :: 0 <= k < |m.files| ==> PayloadName(m.files[k].component) == "payload/" + m.files[k].component;
  }

  /** An archive is good exactly if its entries are acceptable, for the manifest it carries. */
  lemma AcceptableExactly(specs: map<string, Spec>, crypto: Crypto, index: map<string, Entry>, es: seq<Entry>, architecture: string, current: string, m: Manifest)
    requires Indexes(index, es)
    ensures EntriesSafe(es) && ArchiveGood(specs, crypto, index, architecture, current) && SignedManifest(crypto, index) == Some(m)
       <==> Acceptable(specs, crypto, es, architecture, current, m)
  {
    SafeIsWellNamed(es);
    SignedExactly(crypto, index, es, m);
    CompleteExactly(index, es, m);
  }

  lemma SignedInUnique(crypto: Crypto, es: seq<Entry>, m: Manifest, n: Manifest)
    requires WellNamed(es) && SignedIn(crypto, es, m) && SignedIn(crypto, es, n)
    ensures m == n
  {
    var raw, sig :| Carries(es, "manifest.json", MAX_MANIFEST_SIZE, raw) && Carries(es, "manifest.sig", MAX_SIGNATURE_TEXT, sig)
      && crypto.signed(raw, sig) && crypto.decode(raw) == Some(m);
    var other, sign :| Carries(es, "manifest.json", MAX_MANIFEST_SIZE, other) && Carries(es, "manifest.sig", MAX_SIGNATURE_TEXT, sign)
      && crypto.signed(other, sign) && crypto.decode(other) == Some(n);
    CarriedOnce(es, "manifest.json", MAX_MANIFEST_SIZE, raw, other);
  }

  lemma CarriedOnce(es: seq<Entry>, name: string, limit: int, x: Bytes, y: Bytes)
    requires WellNamed(es) && Carries(es, name, limit, x) && Carries(es, name, limit, y)
    ensures x == y
  {
    var i :| 0 <= i < |es| && es[i].name == name && es[i].declared <= limit && |es[i].data| <= limit && es[i].data == x;
    var j :| 0 <= j < |es| && es[j].name == name && es[j].declared <= limit && |es[j].data| <= limit && es[j].data == y;
    assert i == j;
  }

  /** Uniquely named entries have an index. */
  lemma IndexOfEntries(es: seq<Entry>) returns (index: map<string, Entry>)
    requires forall i, j :: 0 <= i < j < |es| ==> es[i].name != es[j].name
    ensures Indexes(index, es)
  {
    index := map i | 0 <= i < |es| :: es[i].name := es[i];
  }

  /** verifyPackageEntries. */
  method VerifyPackage(specs: map<string, Spec>, crypto: Crypto, es: seq<Entry>, architecture: string, current: string) returns (r: Option<Release>)
    ensures r.Some? <==> PackageGood(specs, crypto, es, architecture, current)
    ensures r.Some? ==> Indexes(r.value.index, es) && IsRelease(specs, crypto, r.value, architecture, current)
    ensures r.Some? <==> exists m :: Acceptable(specs, crypto, es, architecture, current, m)
    ensures r.Some? ==> Acceptable(specs, crypto, es, architecture, current, r.value.manifest)
  {
    var ok, index := IndexEntries(es);
    SafeIsWellNamed(es);
    if !ok {
      return None;
    }
    r := VerifyArchive(specs, crypto, index, architecture, current);
    forall m {
      AcceptableExactly(specs, crypto, index, es, architecture, current, m);
    }
    if other :| Indexes(other, es) && ArchiveGood(specs, crypto, other, architecture, current) {
      IndexUnique(other, index, es);
    }
  }

  method VerifyArchive(specs: map<string, Spec>, crypto: Crypto, index: map<string, Entry>, architecture: string, current: string) returns (r: Option<Release>)
    ensures r.Some? <==> ArchiveGood(specs, crypto, index, architecture, current)
    ensures r.Some? ==> r.value.index == index && IsRelease(specs, crypto, r.value, architecture, current)
  {
    var signed := SignedManifest(crypto, index);
    if signed.None? {
      return None;
    }
    var m := signed.value;
    var valid := ValidateManifest(specs, crypto.native, m, architecture, current);
    if !valid {
      return None;
    }
    var matching, listed, names := CheckPayloads(index, m.files);
    if !matching {
      return None;
    }
    if !(index.Keys <= listed) {
      return None;
    }
    return Some(Release(m, SortStrings(names), index));
  }

  lemma IndexUnique(a: map<string, Entry>, b: map<string, Entry>, es: seq<Entry>)
    requires Indexes(a, es) && Indexes(b, es)
    ensures a == b
  {
    forall n | n in a
      ensures n in b && a[n] == b[n]
    {
      var i :| 0 <= i < |es| && es[i].name == n;
    }
    forall n | n in b
      ensures n in a
    {
      var i :| 0 <= i < |es| && es[i].name == n;
    }
  }
}
