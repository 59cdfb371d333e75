/**
 * Release version order: the client's validVersion and compareVersions
 * (internal/clientupdate/verify.go) and the server's parseSemanticVersion and
 * compareSemanticVersions (internal/server/clients.go).
 */
module Versions {
  import opened Strings

  // ----- shape of a version string ----------------------------------------

  predicate IdentifierChar(c: char) {
    c == '-' || '0' <= c <= '9' || 'A' <= c <= 'Z' || 'a' <= c <= 'z'
  }

  predicate ValidIdentifier(s: string) {
    s != "" && forall i :: 0 <= i < |s| ==> IdentifierChar(s[i])
  }

  predicate ValidNumber(s: string) {
    CanonicalDigits(s)
  }

  /** The string without its optional v prefix and without build metadata. */
  function Body(value: string): string {
    var t := TrimV(value);
    var i := IndexOf(t, '+');
    if i >= 0 then t[..i] else t
  }

  function CorePart(value: string): string {
    var b := Body(value);
    var i := IndexOf(b, '-');
    if i >= 0 then b[..i] else b
  }

  function PrePart(value: string): Option<string> {
    var b := Body(value);
    var i := IndexOf(b, '-');
    if i >= 0 then Some(b[i + 1..]) else None
  }

  function BuildPart(value: string): Option<string> {
    var t := TrimV(value);
    var i := IndexOf(t, '+');
    if i >= 0 then Some(t[i + 1..]) else None
  }

  predicate AllIdentifiers(parts: seq<string>) {
    forall i :: 0 <= i < |parts| ==> ValidIdentifier(parts[i])
  }

  predicate ValidCore(parts: seq<string>) {
    |parts| == 3 && forall i :: 0 <= i < 3 ==> ValidNumber(parts[i])
  }

  /** What validVersion accepts. */
  predicate Valid(value: string) {
    && (BuildPart(value).Some? ==> AllIdentifiers(Split(BuildPart(value).value, '.')))
    && (PrePart(value).Some? ==> AllIdentifiers(Split(PrePart(value).value, '.')))
    && ValidCore(Split(CorePart(value), '.'))
  }

  method ValidIdentifiers(value: string) returns (ok: bool)
    ensures ok == AllIdentifiers(Split(value, '.'))
  {
    var parts := Split(value, '.');
    for p := 0 to |parts|
      invariant AllIdentifiers(parts[..p])
    {
      var part := parts[p];
      if part == "" {
        return false;
      }
      for i := 0 to |part|
        invariant forall k :: 0 <= k < i ==> IdentifierChar(part[k])
      {
        if !IdentifierChar(part[i]) {
          return false;
        }
      }
    }
    assert parts[..|parts|] == parts;
    return true;
  }

  method ValidNumbers(parts: seq<string>) returns (ok: bool)
    ensures ok == ValidCore(parts)
  {
    if |parts| != 3 {
      return false;
    }
    for p := 0 to 3
      invariant forall k :: 0 <= k < p ==> ValidNumber(parts[k])
    {
      var part := parts[p];
      if part == "" {
        return false;
      }
      if |part| > 1 && part[0] == '0' {
        return false;
      }
      for i := 0 to |part|
        invariant forall k :: 0 <= k < i ==> IsDigit(part[k])
      {
        if !IsDigit(part[i]) {
          return false;
        }
      }
    }
    return true;
  }

  lemma EmptyIsNoIdentifier()
    ensures !AllIdentifiers(Split("", '.'))
  {
    var parts := Split("", '.');
    assert !ValidIdentifier(parts[0]);
  }

  method ValidVersion(input: string) returns (ok: bool)
    ensures ok == Valid(input)
  {
    var value := TrimV(input);
    var build := IndexOf(value, '+');
    if build >= 0 {
      var metadata := value[build + 1..];
      if build == |value| - 1 {
        EmptyIsNoIdentifier();
        return false;
      }
      ok := ValidIdentifiers(metadata);
      if !ok {
        return;
      }
      value := value[..build];
    }
    ok := ValidRelease(input, value);
  }

  /** The second half of validVersion, after the build metadata is gone. */
  method ValidRelease(ghost input: string, value: string) returns (ok: bool)
    requires value == Body(input)
    ensures ok == ((PrePart(input).Some? ==> AllIdentifiers(Split(PrePart(input).value, '.')))
                   && ValidCore(Split(CorePart(input), '.')))
  {
    var dash := IndexOf(value, '-');
    if dash >= 0 {
      ok := ValidIdentifiers(value[dash + 1..]);
      if !ok {
        return;
      }
    }
    ok := ValidNumbers(Split(if dash >= 0 then value[..dash] else value, '.'));
  }

  // ----- comparison --------------------------------------------------------

  /** What compareVersions reads from a string: three numbers and the pre-release identifiers. */
  datatype Version = Version(core: seq<int>, pre: Option<seq<string>>)

  function Parse(value: string): (v: Version)
    requires Valid(value)
    ensures |v.core| == 3
  {
    Version(CoreNumbers(Split(CorePart(value), '.')),
            if PrePart(value).Some? then Some(Split(PrePart(value).value, '.')) else None)
  }

  function CoreNumbers(parts: seq<string>): (numbers: seq<int>)
    requires |parts| == 3
    ensures |numbers| == 3
  {
    [AtoiValue(parts[0]), AtoiValue(parts[1]), AtoiValue(parts[2])]
  }

  /** The number an identifier reads as, when strconv.Atoi accepts it. */
  function Reading(id: string): Option<int> {
    match Atoi(id)
    case Number(n) => Some(n)
    case _ => None
  }

  function Sign(less: bool): int { if less then -1 else 1 }

  /** Outcome for two different identifiers. */
  function CompareId(a: string, b: string): int {
    match (Reading(a), Reading(b))
    case (Some(m), Some(n)) => Sign(m < n)
    case (Some(_), None) => -1
    case (None, Some(_)) => 1
    case (None, None) => Sign(LexLess(a, b))
  }

  function CompareIds(l: seq<string>, r: seq<string>): int {
    if l == [] && r == [] then 0
    else if l == [] then -1
    else if r == [] then 1
    else if l[0] == r[0] then CompareIds(l[1..], r[1..])
    else CompareId(l[0], r[0])
  }

  function CompareCore(l: seq<int>, r: seq<int>): int
    requires |l| == |r|
  {
    if l == [] then 0
    else if l[0] == r[0] then CompareCore(l[1..], r[1..])
    else Sign(l[0] < r[0])
  }

  function CompareParsed(l: Version, r: Version): int
    requires |l.core| == |r.core|
  {
    var c := CompareCore(l.core, r.core);
    if c != 0 then c
    else match (l.pre, r.pre)
      case (None, None) => 0
      case (None, Some(_)) => 1
      case (Some(_), None) => -1
      case (Some(p), Some(q)) => CompareIds(p, q)
  }

  /** The verdict of compareVersions. */
  function Compare(left: string, right: string): int
    requires Valid(left) && Valid(right)
  {
    CompareParsed(Parse(left), Parse(right))
  }

  lemma CompareIdsSkip(l: seq<string>, r: seq<string>, i: nat)
    requires i <= |l| && i <= |r| && l[..i] == r[..i]
    ensures CompareIds(l, r) == CompareIds(l[i..], r[i..])
  {
    if i == 0 {
      assert l[0..] == l && r[0..] == r;
    } else {
      assert l[0] == l[..i][0] == r[..i][0] == r[0];
      assert l[1..][..i - 1] == l[..i][1..] && r[1..][..i - 1] == r[..i][1..];
      CompareIdsSkip(l[1..], r[1..], i - 1);
      assert l[1..][i - 1..] == l[i..] && r[1..][i - 1..] == r[i..];
    }
  }

  lemma CompareCoreSkip(l: seq<int>, r: seq<int>, i: nat)
    requires |l| == |r| && i <= |l| && l[..i] == r[..i]
    ensures CompareCore(l, r) == CompareCore(l[i..], r[i..])
  {
    if i == 0 {
      assert l[0..] == l && r[0..] == r;
    } else {
      assert l[0] == l[..i][0] == r[..i][0] == r[0];
      assert l[1..][..i - 1] == l[..i][1..] && r[1..][..i - 1] == r[..i][1..];
      CompareCoreSkip(l[1..], r[1..], i - 1);
      assert l[1..][i - 1..] == l[i..] && r[1..][i - 1..] == r[i..];
    }
  }

  /** The identifier loop shared in substance by both comparison functions. */
  method ScanIdentifiers(l: seq<string>, r: seq<string>) returns (verdict: Option<int>)
    ensures verdict.Some? ==> verdict.value == CompareIds(l, r)
    ensures verdict.None? ==> l <= r || r <= l
  {
    var i := 0;
    while i < |l| && i < |r|
      invariant i <= |l| && i <= |r| && l[..i] == r[..i]
    {
      if l[i] != r[i] {
        CompareIdsSkip(l, r, i);
        var a, b := Reading(l[i]), Reading(r[i]);
        if a.Some? && b.Some? {
          if a.value < b.value {
            return Some(-1);
          }
          return Some(1);
        }
        if a.Some? {
          return Some(-1);
        }
        if b.Some? {
          return Some(1);
        }
        if LexLess(l[i], r[i]) {
          return Some(-1);
        }
        return Some(1);
      }
      assert l[..i + 1] == l[..i] + [l[i]] && r[..i + 1] == r[..i] + [r[i]];
      i := i + 1;
    }
    return None;
  }

  lemma CompareIdsPrefix(l: seq<string>, r: seq<string>)
    requires l <= r || r <= l
    ensures CompareIds(l, r) == if |l| < |r| then -1 else if |l| > |r| then 1 else 0
  {
    var n := if |l| < |r| then |l| else |r|;
    assert l[..n] == r[..n];
    CompareIdsSkip(l, r, n);
  }

  /** The loop over the three core numbers. */
  method ScanCore(l: seq<int>, r: seq<int>) returns (verdict: int)
    requires |l| == |r| == 3
    ensures verdict == CompareCore(l, r)
  {
    for i := 0 to 3
      invariant l[..i] == r[..i]
    {
      CompareCoreSkip(l, r, i);
      if l[i] < r[i] {
        return -1;
      }
      if l[i] > r[i] {
        return 1;
      }
      assert l[..i + 1] == l[..i] + [l[i]] && r[..i + 1] == r[..i] + [r[i]];
    }
    CompareCoreSkip(l, r, 3);
    return 0;
  }

  method CompareVersions(left: string, right: string) returns (verdict: int)
    requires Valid(left) && Valid(right)
    ensures verdict == Compare(left, right)
  {
    var l, r := Parse(left), Parse(right);
    verdict := ScanCore(l.core, r.core);
    if verdict != 0 {
      return;
    }
    if l.pre.None? && r.pre.None? {
      return 0;
    }
    if l.pre.None? {
      return 1;
    }
    if r.pre.None? {
      return -1;
    }
    var found := ScanIdentifiers(l.pre.value, r.pre.value);
    if found.Some? {
      return found.value;
    }
    CompareIdsPrefix(l.pre.value, r.pre.value);
    if |l.pre.value| < |r.pre.value| {
      return -1;
    }
    if |l.pre.value| > |r.pre.value| {
      return 1;
    }
    return 0;
  }

  // ----- the order ---------------------------------------------------------

  predicate IdLess(a: string, b: string) {
    a != b && CompareId(a, b) == -1
  }

  lemma IdLessTransitive(a: string, b: string, c: string)
    requires IdLess(a, b) && IdLess(b, c)
    ensures IdLess(a, c)
  {
    LexTrichotomy(a, c);
    if Reading(a).None? && Reading(b).None? && Reading(c).None? {
      LexTransitive(a, b, c);
    }
  }

  lemma {:induction false} IdsLessTransitive(a: seq<string>, b: seq<string>, c: seq<string>)
    requires CompareIds(a, b) == -1 && CompareIds(b, c) == -1
    ensures CompareIds(a, c) == -1
    decreases |a|
  {
    if a != [] {
      if a[0] == b[0] == c[0] {
        IdsLessTransitive(a[1..], b[1..], c[1..]);
      } else if a[0] != b[0] && b[0] != c[0] {
        IdLessTransitive(a[0], b[0], c[0]);
      }
    }
  }

  lemma {:induction false} CoreLessTransitive(a: seq<int>, b: seq<int>, c: seq<int>)
    requires |a| == |b| == |c|
    requires CompareCore(a, b) <= 0 && CompareCore(b, c) <= 0
    ensures CompareCore(a, c) <= 0
    ensures CompareCore(a, c) == 0 ==> CompareCore(a, b) == 0 && CompareCore(b, c) == 0
    decreases |a|
  {
    if a != [] && a[0] == b[0] == c[0] {
      CoreLessTransitive(a[1..], b[1..], c[1..]);
    }
  }

  lemma {:induction false} CoreZeroIsEqual(a: seq<int>, b: seq<int>)
    requires |a| == |b|
    ensures CompareCore(a, b) == 0 <==> a == b
    ensures CompareCore(a, b) == -CompareCore(b, a)
  {
    if a != [] {
      CoreZeroIsEqual(a[1..], b[1..]);
      assert a == [a[0]] + a[1..] && b == [b[0]] + b[1..];
    }
  }

  lemma {:induction false} IdsZeroIsEqual(a: seq<string>, b: seq<string>)
    ensures CompareIds(a, b) == 0 <==> a == b
  {
    if a != [] && b != [] {
      IdsZeroIsEqual(a[1..], b[1..]);
      assert a == [a[0]] + a[1..] && b == [b[0]] + b[1..];
    }
  }

  /** Verdict 0 means that both strings are read the same way. */
  lemma ZeroMeansSameReading(a: string, b: string)
    requires Valid(a) && Valid(b)
    ensures Compare(a, b) == 0 <==> Parse(a) == Parse(b)
  {
    var l, r := Parse(a), Parse(b);
    CoreZeroIsEqual(l.core, r.core);
    if l.pre.Some? && r.pre.Some? {
      IdsZeroIsEqual(l.pre.value, r.pre.value);
    }
  }

  /** "Older than" is transitive on all valid versions, canonical or not. */
  lemma OlderIsTransitive(a: string, b: string, c: string)
    requires Valid(a) && Valid(b) && Valid(c)
    requires Compare(a, b) <= 0 && Compare(b, c) <= 0
    ensures Compare(a, c) <= 0
    ensures Compare(a, b) < 0 || Compare(b, c) < 0 ==> Compare(a, c) < 0
  {
    ZeroMeansSameReading(a, b);
    ZeroMeansSameReading(b, c);
    if Compare(a, b) != 0 && Compare(b, c) != 0 {
      var x, y, z := Parse(a), Parse(b), Parse(c);
      CoreLessTransitive(x.core, y.core, z.core);
      CoreZeroIsEqual(x.core, y.core);
      CoreZeroIsEqual(y.core, z.core);
      CoreZeroIsEqual(x.core, z.core);
      if x.core == y.core == z.core && x.pre.Some? && y.pre.Some? && z.pre.Some? {
        VerdictRange(x.pre.value, y.pre.value);
        VerdictRange(y.pre.value, z.pre.value);
        IdsLessTransitive(x.pre.value, y.pre.value, z.pre.value);
      }
    }
  }

  lemma VerdictRange(l: seq<string>, r: seq<string>)
    ensures -1 <= CompareIds(l, r) <= 1
  {
  }

  /** At the first position where the lists differ, both identifiers read as one number. */
  predicate AmbiguousIds(l: seq<string>, r: seq<string>) {
    l != [] && r != [] &&
    if l[0] == r[0] then AmbiguousIds(l[1..], r[1..])
    else Reading(l[0]).Some? && Reading(l[0]) == Reading(r[0])
  }

  predicate Ambiguous(a: string, b: string)
    requires Valid(a) && Valid(b)
  {
    var l, r := Parse(a), Parse(b);
    l.core == r.core && l.pre.Some? && r.pre.Some? && AmbiguousIds(l.pre.value, r.pre.value)
  }

  lemma {:induction false} IdsAntisymmetry(l: seq<string>, r: seq<string>)
    ensures CompareIds(l, r) == -CompareIds(r, l) <==> !AmbiguousIds(l, r)
    ensures AmbiguousIds(l, r) ==> CompareIds(l, r) == 1 == CompareIds(r, l)
  {
    if l != [] && r != [] {
      if l[0] == r[0] {
        IdsAntisymmetry(l[1..], r[1..]);
      } else {
        LexTrichotomy(l[0], r[0]);
      }
    }
  }

  /**
   * Swapping the arguments negates the verdict exactly when the two versions
   * are not ambiguous; for an ambiguous pair each is reported newer than the other.
   */
  lemma AntisymmetryExact(a: string, b: string)
    requires Valid(a) && Valid(b)
    ensures Compare(a, b) == -Compare(b, a) <==> !Ambiguous(a, b)
    ensures Ambiguous(a, b) ==> Compare(a, b) == 1 == Compare(b, a)
  {
    var l, r := Parse(a), Parse(b);
    CoreZeroIsEqual(l.core, r.core);
    if l.pre.Some? && r.pre.Some? {
      IdsAntisymmetry(l.pre.value, r.pre.value);
    }
  }

  lemma SplitAtFirst(s: string, sep: char, head: string, rest: string)
    requires s == head + [sep] + rest && sep !in head
    ensures IndexOf(s, sep) == |head| && Split(s, sep) == [head] + Split(rest, sep)
  {
    var i := IndexOf(s, sep);
    IndexOfFirst(s, sep);
    assert s[|head|] == sep;
    assert i >= 0 && forall k :: 0 <= k < |head| ==> s[k] == head[k];
    assert sep in s[..|head| + 1];
    assert s[..i] == head && s[i + 1..] == rest;
  }

  lemma SplitNone(s: string, sep: char)
    requires sep !in s
    ensures IndexOf(s, sep) == -1 && Split(s, sep) == [s]
  {
    IndexOfFirst(s, sep);
  }

  lemma SplitThree(s: string, x: string, y: string, z: string)
    requires s == x + ['.'] + (y + ['.'] + z) && '.' !in x && '.' !in y && '.' !in z
    ensures Split(s, '.') == [x, y, z]
  {
    SplitAtFirst(s, '.', x, y + ['.'] + z);
    SplitAtFirst(y + ['.'] + z, '.', y, z);
    SplitNone(z, '.');
  }

  lemma ReadDigit(s: string)
    requires |s| == 1 && AllDigits(s)
    ensures Decimal(s) == AtoiValue(s) == s[0] as int - '0' as int
  {
    assert s[..0] == "";
  }

  lemma CoreOneOh()
    ensures Split("1.0.0", '.') == ["1", "0", "0"]
    ensures ValidCore(["1", "0", "0"]) && CoreNumbers(["1", "0", "0"]) == [1, 0, 0]
  {
    SplitThree("1.0.0", "1", "0", "0");
    ReadDigit("1");
    ReadDigit("0");
  }

  lemma PartsOfOneOh(v: string, pre: string)
    requires v == "1.0.0" + ['-'] + pre && ValidIdentifier(pre)
    ensures CorePart(v) == "1.0.0" && PrePart(v) == Some(pre) && BuildPart(v) == None
  {
    assert v[0] == '1' && '-' !in "1.0.0" && '+' !in "1.0.0";
    assert '+' !in v;
    SplitNone(v, '+');
    SplitAtFirst(v, '-', "1.0.0", pre);
    assert v[..5] == "1.0.0" && v[6..] == pre;
  }

  /** Versions with core 1.0.0 and one pre-release identifier. */
  lemma OneOh(v: string, pre: string)
    requires v == "1.0.0" + ['-'] + pre && ValidIdentifier(pre)
    ensures Valid(v) && CorePart(v) == "1.0.0"
    ensures Valid(v) && Parse(v) == Version([1, 0, 0], Some([pre]))
  {
    PartsOfOneOh(v, pre);
    CoreOneOh();
    SplitNone(pre, '.');
  }

  lemma ReadingsOfSeven(p: string, q: string)
    requires p == "7" && q == "07"
    ensures AllDigits(p) && AllDigits(q) && Reading(p) == Some(7) == Reading(q)
  {
    var zero := q[..1];
    assert p[..0] == "" && zero == "0" && zero[..0] == "" && |q| == 2 && q[1] == '7';
    assert Decimal("") == 0 && Decimal(zero) == 0 && Decimal(p) == 7;
    assert Decimal(q) == 10 * Decimal(zero) + 7;
  }

  lemma BothNewer(a: string, b: string, p: string, q: string)
    requires a == "1.0.0" + ['-'] + p && b == "1.0.0" + ['-'] + q && p != q && p != "" && q != "" && AllDigits(p) && AllDigits(q)
    requires Reading(p).Some? && Reading(p) == Reading(q)
    ensures Valid(a) && Valid(b) && Compare(a, b) == 1 && Compare(b, a) == 1
  {
    OneOh(a, p);
    OneOh(b, q);
    assert AmbiguousIds([p], [q]);
    AntisymmetryExact(a, b);
  }

  /** Two spellings of one number: each version is reported newer than the other. */
  lemma EachNewerThanTheOther(a: string, b: string)
    requires a == "1.0.0-7" && b == "1.0.0-07"
    ensures Valid(a) && Valid(b) && Compare(a, b) == 1 && Compare(b, a) == 1
  {
    var p, q := a[6..], b[6..];
    ReadingsOfSeven(p, q);
    BothNewer(a, b, p, q);
  }

  /** An identifier that is not another spelling of a number: no leading zero and no "-0". */
  predicate CanonicalId(id: string) {
    Reading(id).Some? ==>
      if id[0] == '-' then CanonicalDigits(id[1..]) && id != "-0" else CanonicalDigits(id)
  }

  predicate CanonicalVersion(value: string)
    requires Valid(value)
  {
    var p := Parse(value).pre;
    p.Some? ==> forall i :: 0 <= i < |p.value| ==> CanonicalId(p.value[i])
  }

  lemma CanonicalReadingInjective(a: string, b: string)
    requires CanonicalId(a) && CanonicalId(b)
    requires Reading(a).Some? && Reading(a) == Reading(b)
    ensures a == b
  {
    var n := Reading(a).value;
    var da, db := if a[0] == '-' then a[1..] else a, if b[0] == '-' then b[1..] else b;
    assert (a[0] == '-' ==> a == "-" + da) && (b[0] == '-' ==> b == "-" + db);
    NegativeReading(a);
    NegativeReading(b);
    DecimalInjective(da, db);
  }

  lemma NegativeReading(a: string)
    requires CanonicalId(a) && Reading(a).Some?
    ensures a[0] == '-' <==> Reading(a).value < 0
    ensures a[0] == '-' ==> Reading(a).value + Decimal(a[1..]) == 0
    ensures a[0] != '-' ==> Reading(a).value == Decimal(a)
  {
    if a[0] == '-' {
      assert a == "-" + a[1..];
      if a[1] != '0' {
        DecimalPositive(a[1..]);
      }
    }
  }

  lemma {:induction false} CanonicalIdsUnambiguous(l: seq<string>, r: seq<string>)
    requires forall i :: 0 <= i < |l| ==> CanonicalId(l[i])
    requires forall i :: 0 <= i < |r| ==> CanonicalId(r[i])
    ensures !AmbiguousIds(l, r)
  {
    if l != [] && r != [] {
      if l[0] == r[0] {
        CanonicalIdsUnambiguous(l[1..], r[1..]);
      } else if Reading(l[0]).Some? && Reading(l[0]) == Reading(r[0]) {
        CanonicalReadingInjective(l[0], r[0]);
      }
    }
  }

  // ----- what the verdict says about the text --------------------------------------

  /** The three numbers as written, however large. */
  function Numbers(value: string): (r: seq<nat>)
    requires Valid(value)
    ensures |r| == 3
  {
    var parts := Split(CorePart(value), '.');
    [Decimal(parts[0]), Decimal(parts[1]), Decimal(parts[2])]
  }

  /** All three numbers fit a machine integer. */
  predicate CoreFits(value: string)
    requires Valid(value)
  {
    forall i :: 0 <= i < 3 ==> Numbers(value)[i] <= MAX_INT
  }

  /** Equal numbers, or two that are both cut off at the largest machine integer. */
  predicate SameOrHuge(m: nat, n: nat) {
    m == n || (m >= MAX_INT && n >= MAX_INT)
  }

  lemma ReadNumber(part: string)
    requires ValidNumber(part)
    ensures AtoiValue(part) == if Decimal(part) <= MAX_INT then Decimal(part) else MAX_INT
  {
    assert IsDigit(part[0]);
  }

  lemma ReadCore(value: string)
    requires Valid(value)
    ensures forall i :: 0 <= i < 3 ==> Parse(value).core[i] == if Numbers(value)[i] <= MAX_INT then Numbers(value)[i] else MAX_INT
  {
    var parts := Split(CorePart(value), '.');
    ReadNumber(parts[0]);
    ReadNumber(parts[1]);
    ReadNumber(parts[2]);
  }

  /**
   * Verdict 0 means: the same pre-release identifiers, and numbers that are equal or
   * that both reach the largest machine integer; whatever the v prefix and the build
   * metadata.
   */
  lemma EqualVerdict(a: string, b: string)
    requires Valid(a) && Valid(b)
    ensures Compare(a, b) == 0 <==> Parse(a).pre == Parse(b).pre && forall i :: 0 <= i < 3 ==> SameOrHuge(Numbers(a)[i], Numbers(b)[i])
    ensures CoreFits(a) && CoreFits(b) ==> (Compare(a, b) == 0 <==> Parse(a).pre == Parse(b).pre && Numbers(a) == Numbers(b))
  {
    ZeroMeansSameReading(a, b);
    ReadCore(a);
    ReadCore(b);
    var l, r, m, n := Parse(a).core, Parse(b).core, Numbers(a), Numbers(b);
    assert l == r <==> l[0] == r[0] && l[1] == r[1] && l[2] == r[2];
    assert m == n <==> m[0] == n[0] && m[1] == n[1] && m[2] == n[2];
  }

  /** On canonical versions the order is total: exactly one of older, same, newer, where "same" is as in EqualVerdict. */
  lemma CanonicalOrderIsTotal(a: string, b: string)
    requires Valid(a) && Valid(b) && CanonicalVersion(a) && CanonicalVersion(b)
    ensures Compare(a, b) == -Compare(b, a)
    ensures Compare(a, b) == -1 || Compare(b, a) == -1 <==> !(Parse(a).pre == Parse(b).pre && forall i :: 0 <= i < 3 ==> SameOrHuge(Numbers(a)[i], Numbers(b)[i]))
    ensures CoreFits(a) && CoreFits(b) ==> (Compare(a, b) == -1 || Compare(b, a) == -1 <==> Parse(a).pre != Parse(b).pre || Numbers(a) != Numbers(b))
  {
    AntisymmetryExact(a, b);
    EqualVerdict(a, b);
    if Ambiguous(a, b) {
      CanonicalIdsUnambiguous(Parse(a).pre.value, Parse(b).pre.value);
    }
    VerdictIsUnit(a, b);
  }

  /** Twenty digits do not fit. */
  lemma LongIsHuge(s: string)
    requires AllDigits(s) && |s| >= 20 && s[0] != '0'
    ensures Decimal(s) > MAX_INT
  {
    DigitsBound(s);
    var p := PowerOfTen(|s| - 1);
    PowersGrow(19, |s| - 1);
    assert PowerOfTen(5) == 100000 && PowerOfTen(10) == 10000000000 && PowerOfTen(15) == 1000000000000000;
    assert PowerOfTen(19) == 10000000000000000000;
  }

  function PowerOfTen(k: nat): nat {
    if k == 0 then 1 else 10 * PowerOfTen(k - 1)
  }

  lemma {:induction false} PowersGrow(j: nat, k: nat)
    requires j <= k
    ensures PowerOfTen(j) <= PowerOfTen(k)
    decreases k
  {
    if j < k {
      PowersGrow(j, k - 1);
    }
  }

  lemma {:induction false} DigitsBound(s: string)
    requires AllDigits(s) && s != "" && s[0] != '0'
    ensures Decimal(s) >= PowerOfTen(|s| - 1)
    decreases |s|
  {
    if |s| > 1 {
      DigitsBound(s[..|s| - 1]);
    } else {
      assert s[..0] == "";
    }
  }

  /** Versions without pre-release and build, with a one-digit minor and patch. */
  lemma MajorOnly(v: string, n: string, zero: string)
    requires v == n + ['.'] + (zero + ['.'] + zero) && CanonicalDigits(n) && |zero| == 1 && zero[0] == '0'
    ensures Valid(v) && Numbers(v) == [Decimal(n), 0, 0] && Parse(v).pre == None
  {
    assert v[0] == n[0] && IsDigit(n[0]);
    NoneInDigits(n, zero);
    PlainParts(v);
    SplitThree(v, n, zero, zero);
    ReadDigit(zero);
  }

  lemma NoneInDigits(n: string, zero: string)
    requires AllDigits(n) && AllDigits(zero)
    ensures '.' !in n && '.' !in zero
    ensures var v := n + ['.'] + (zero + ['.'] + zero); '+' !in v && '-' !in v
  {
  }

  lemma PlainParts(v: string)
    requires v != "" && v[0] != 'v' && '+' !in v && '-' !in v
    ensures CorePart(v) == v && PrePart(v) == None && BuildPart(v) == None
  {
    SplitNone(v, '+');
    SplitNone(v, '-');
  }

  /** A twenty-digit number: a leading digit and nineteen zeros. */
  function TwentyDigits(first: char): string {
    [first] + seq(19, _ => '0')
  }

  /** Two valid versions, 1 and 2 with nineteen zeros each, of different numbers and verdict 0 both ways. */
  lemma HugeCoresCollide(a: string, b: string)
    requires a == TwentyDigits('1') + ['.'] + ("0" + ['.'] + "0") && b == TwentyDigits('2') + ['.'] + ("0" + ['.'] + "0")
    ensures Valid(a) && Valid(b) && Compare(a, b) == 0 == Compare(b, a) && Numbers(a) != Numbers(b)
  {
    var m, n := TwentyDigits('1'), TwentyDigits('2');
    MajorOnly(a, m, "0");
    MajorOnly(b, n, "0");
    LongIsHuge(m);
    LongIsHuge(n);
    EqualVerdict(a, b);
    EqualVerdict(b, a);
    assert m[0] != n[0];
    if Decimal(m) == Decimal(n) {
      DecimalInjective(m, n);
    }
  }

  lemma VerdictIsUnit(a: string, b: string)
    requires Valid(a) && Valid(b)
    ensures -1 <= Compare(a, b) <= 1
  {
    var l, r := Parse(a), Parse(b);
    if l.pre.Some? && r.pre.Some? {
      VerdictRange(l.pre.value, r.pre.value);
    }
    CoreRange(l.core, r.core);
  }

  lemma CoreRange(l: seq<int>, r: seq<int>)
    requires |l| == |r|
    ensures -1 <= CompareCore(l, r) <= 1
  {
  }
}
