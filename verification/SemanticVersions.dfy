/**
 * The server's own version comparison (internal/server/clients.go), its
 * agreement with the client's, and the agreement of both with the precedence
 * rules of section 11 of Semantic Versioning 2.0.0.
 */
module SemanticVersions {
  import opened Strings
  import opened Versions

  // ----- the server's parser and comparison ---------------------------------

  /** `core` holds the source's major, minor and patch. */
  datatype SemanticVersion = SemanticVersion(core: seq<int>, prerelease: string)

  /** parseSemanticVersion: None where the source reports ok = false. */
  method ParseSemanticVersion(input: string) returns (v: Option<SemanticVersion>)
    ensures v == ServerParse(input)
  {
    var value := TrimV(TrimSpace(input));
    var metadata := IndexOf(value, '+');
    if metadata >= 0 {
      var build := value[metadata + 1..];
      if metadata == |value| - 1 {
        assert build == "";
        return None;
      }
      assert build != "";
      value := value[..metadata];
    }
    v := ParseRelease(TrimSpace(input), value);
  }

  /** The part of parseSemanticVersion after the build metadata is gone. */
  method ParseRelease(ghost trimmed: string, value: string) returns (v: Option<SemanticVersion>)
    requires value == Body(trimmed)
    ensures v == ServerRelease(trimmed)
  {
    var dash := IndexOf(value, '-');
    var core := if dash >= 0 then value[..dash] else value;
    assert core == CorePart(trimmed) && PrePart(trimmed) == if dash >= 0 then Some(value[dash + 1..]) else None;
    var numbers := ParseNumbers(Split(core, '.'));
    if numbers.None? {
      return None;
    }
    if dash >= 0 && value[dash + 1..] == "" {
      return None;
    }
    return Some(SemanticVersion(numbers.value, if dash >= 0 then value[dash + 1..] else ""));
  }

  method ParseNumbers(parts: seq<string>) returns (numbers: Option<seq<int>>)
    ensures numbers == Naturals(parts)
  {
    if |parts| != 3 {
      return None;
    }
    var out: seq<int> := [];
    for i := 0 to 3
      invariant |out| == i
      invariant forall k :: 0 <= k < i ==> Natural(parts[k]) == Some(out[k])
    {
      match Atoi(parts[i])
      case Number(n) =>
        if n < 0 {
          return None;
        }
        out := out + [n];
      case _ =>
        return None;
    }
    assert out == [out[0], out[1], out[2]];
    return Some(out);
  }

  function Natural(part: string): Option<int> {
    match Atoi(part)
    case Number(n) => if n < 0 then None else Some(n)
    case _ => None
  }

  function Naturals(parts: seq<string>): (r: Option<seq<int>>)
    ensures r.Some? ==> |r.value| == 3
  {
    if |parts| != 3 then None
    else match (Natural(parts[0]), Natural(parts[1]), Natural(parts[2]))
      case (Some(a), Some(b), Some(c)) => Some([a, b, c])
      case _ => None
  }

  function ServerParse(input: string): (v: Option<SemanticVersion>)
    ensures v.Some? ==> |v.value.core| == 3
  {
    var t := TrimSpace(input);
    if BuildPart(t) == Some("") then None else ServerRelease(t)
  }

  function ServerRelease(t: string): (v: Option<SemanticVersion>)
    ensures v.Some? ==> |v.value.core| == 3
  {
    var numbers := Naturals(Split(CorePart(t), '.'));
    if numbers.None? || PrePart(t) == Some("") then None
    else Some(SemanticVersion(numbers.value, if PrePart(t).Some? then PrePart(t).value else ""))
  }

  /** Equal identifier lists come from equal strings, so the final verdict 1 is never given to equal lists. */
  lemma SplitInjective(a: string, b: string)
    requires a != b
    ensures Split(a, '.') != Split(b, '.')
  {
    SplitJoin(a, '.');
    SplitJoin(b, '.');
  }

  method CompareSemanticVersions(left: SemanticVersion, right: SemanticVersion) returns (verdict: int)
    requires |left.core| == 3 && |right.core| == 3
    ensures verdict == ServerCompare(left, right)
  {
    verdict := ScanCore(left.core, right.core);
    if verdict != 0 {
      return;
    }
    if left.prerelease == right.prerelease {
      return 0;
    }
    if left.prerelease == "" {
      return 1;
    }
    if right.prerelease == "" {
      return -1;
    }
    var p, q := Split(left.prerelease, '.'), Split(right.prerelease, '.');
    var found := ScanIdentifiers(p, q);
    if found.Some? {
      return found.value;
    }
    CompareIdsPrefix(p, q);
    if |p| < |q| {
      return -1;
    }
    SplitInjective(left.prerelease, right.prerelease);
    return 1;
  }

  function ServerCompare(left: SemanticVersion, right: SemanticVersion): int
    requires |left.core| == |right.core|
  {
    var c := CompareCore(left.core, right.core);
    if c != 0 then c
    else if left.prerelease == right.prerelease then 0
    else if left.prerelease == "" then 1
    else if right.prerelease == "" then -1
    else CompareIds(Split(left.prerelease, '.'), Split(right.prerelease, '.'))
  }

  // ----- agreement of the two implementations -------------------------------

  predicate NumbersFit(parts: seq<string>)
    requires ValidCore(parts)
  {
    Decimal(parts[0]) <= MAX_INT && Decimal(parts[1]) <= MAX_INT && Decimal(parts[2]) <= MAX_INT
  }

  predicate NoSpace(s: string) {
    forall i :: 0 <= i < |s| ==> !IsSpace(s[i])
  }

  lemma JoinNoSpace(parts: seq<string>)
    requires |parts| >= 1
    requires forall i :: 0 <= i < |parts| ==> NoSpace(parts[i])
    ensures NoSpace(Join(parts, '.'))
  {
    if |parts| > 1 {
      JoinNoSpace(parts[1..]);
    }
  }

  lemma IdentifiersNoSpace(s: string)
    requires AllIdentifiers(Split(s, '.'))
    ensures NoSpace(s)
  {
    SplitJoin(s, '.');
    JoinNoSpace(Split(s, '.'));
  }

  lemma NumbersNoSpace(s: string)
    requires ValidCore(Split(s, '.'))
    ensures NoSpace(s)
  {
    SplitJoin(s, '.');
    JoinNoSpace(Split(s, '.'));
  }

  lemma JoinedNoSpace(left: string, separator: char, right: string, whole: string)
    requires NoSpace(left) && NoSpace(right) && !IsSpace(separator)
    requires whole == left + [separator] + right
    ensures NoSpace(whole)
  {
  }

  lemma CutAt(s: string, c: char)
    requires IndexOf(s, c) >= 0
    ensures var i := IndexOf(s, c); s == s[..i] + [c] + s[i + 1..]
  {
    IndexOfFirst(s, c);
  }

  lemma BodyHasNoSpace(value: string)
    requires Valid(value)
    ensures NoSpace(Body(value))
  {
    var b := Body(value);
    var core, dash := CorePart(value), IndexOf(b, '-');
    NumbersNoSpace(core);
    if dash >= 0 {
      CutAt(b, '-');
      var pre := PrePart(value).value;
      IdentifiersNoSpace(pre);
      JoinedNoSpace(core, '-', pre, b);
    }
  }

  lemma ValidHasNoSpace(value: string)
    requires Valid(value)
    ensures NoSpace(value)
  {
    var t := TrimV(value);
    var b, plus := Body(value), IndexOf(t, '+');
    BodyHasNoSpace(value);
    if plus >= 0 {
      var build := BuildPart(value).value;
      CutAt(t, '+');
      IdentifiersNoSpace(build);
      JoinedNoSpace(b, '+', build, t);
    }
    PrefixNoSpace(value);
  }

  lemma PrefixNoSpace(value: string)
    requires NoSpace(TrimV(value))
    ensures NoSpace(value)
  {
    if value != "" && value[0] == 'v' {
      assert value == [value[0]] + value[1..];
    }
  }

  lemma TrimIsIdentity(value: string)
    requires NoSpace(value)
    ensures TrimSpace(value) == value
  {
  }

  lemma NumberReading(part: string)
    requires ValidNumber(part)
    ensures Natural(part) == if Decimal(part) <= MAX_INT then Some(Decimal(part)) else None
    ensures Decimal(part) <= MAX_INT ==> AtoiValue(part) == Decimal(part)
  {
    assert IsDigit(part[0]);
  }

  lemma NumberReadings(parts: seq<string>)
    requires ValidCore(parts)
    ensures Naturals(parts).Some? <==> NumbersFit(parts)
    ensures NumbersFit(parts) ==> Naturals(parts) == Some(CoreNumbers(parts))
    ensures NumbersFit(parts) ==> CoreNumbers(parts) == [Decimal(parts[0]), Decimal(parts[1]), Decimal(parts[2])]
  {
    NumberReading(parts[0]);
    NumberReading(parts[1]);
    NumberReading(parts[2]);
  }

  lemma ValidPartsNonempty(value: string)
    requires Valid(value)
    ensures PrePart(value) != Some("") && BuildPart(value) != Some("")
  {
    EmptyIsNoIdentifier();
  }

  /** The server parses a valid version exactly when its core numbers fit a machine integer. */
  lemma ServerParsesValid(value: string)
    requires Valid(value)
    ensures ServerParse(value).Some? <==> CoreFits(value)
    ensures ServerParse(value).Some? ==>
      var s := ServerParse(value).value;
      Parse(value) == Version(s.core, if s.prerelease == "" then None else Some(Split(s.prerelease, '.')))
  {
    ValidHasNoSpace(value);
    TrimIsIdentity(value);
    ValidPartsNonempty(value);
    NumberReadings(Split(CorePart(value), '.'));
    FitsByParts(value);
  }

  lemma FitsByParts(value: string)
    requires Valid(value)
    ensures CoreFits(value) <==> NumbersFit(Split(CorePart(value), '.'))
  {
    var parts := Split(CorePart(value), '.');
    assert Numbers(value)[0] == Decimal(parts[0]) && Numbers(value)[1] == Decimal(parts[1]) && Numbers(value)[2] == Decimal(parts[2]);
  }

  lemma SameVerdict(l: SemanticVersion, r: SemanticVersion, p: Version, q: Version)
    requires |l.core| == |r.core|
    requires p == Version(l.core, if l.prerelease == "" then None else Some(Split(l.prerelease, '.')))
    requires q == Version(r.core, if r.prerelease == "" then None else Some(Split(r.prerelease, '.')))
    ensures ServerCompare(l, r) == CompareParsed(p, q)
  {
    if l.prerelease != "" && r.prerelease != "" {
      IdsZeroIsEqual(Split(l.prerelease, '.'), Split(r.prerelease, '.'));
    }
  }

  /** Client and server give the same verdict on every pair the server can parse. */
  lemma ImplementationsAgree(a: string, b: string)
    requires Valid(a) && Valid(b) && CoreFits(a) && CoreFits(b)
    ensures ServerParse(a).Some? && ServerParse(b).Some?
    ensures ServerCompare(ServerParse(a).value, ServerParse(b).value) == Compare(a, b)
  {
    ServerParsesValid(a);
    ServerParsesValid(b);
    SameVerdict(ServerParse(a).value, ServerParse(b).value, Parse(a), Parse(b));
  }

  // ----- section 11 of Semantic Versioning 2.0.0 ------------------------------

  /** ASCII order, stated by the first difference. */
  ghost predicate AsciiBefore(a: string, b: string) {
    exists k :: 0 <= k <= |a| && AsciiSplit(a, b, k)
  }

  predicate AsciiSplit(a: string, b: string, k: nat) {
    k <= |a| && k < |b| && a[..k] == b[..k] && (k == |a| || a[k] < b[k])
  }

  /** Rules 11.4.1 to 11.4.3 for two identifiers. */
  ghost predicate IdPrecedes(a: string, b: string) {
    if AllDigits(a) && AllDigits(b) then Decimal(a) < Decimal(b)
    else AllDigits(a) || (!AllDigits(b) && AsciiBefore(a, b))
  }

  ghost predicate IdsSplit(l: seq<string>, r: seq<string>, i: nat) {
    i <= |l| && i < |r| && l[..i] == r[..i] && (i == |l| || (l[i] != r[i] && IdPrecedes(l[i], r[i])))
  }

  /** Rule 11.4: the first differing identifier decides; 11.4.4: a proper prefix precedes. */
  ghost predicate IdsPrecede(l: seq<string>, r: seq<string>) {
    exists i :: 0 <= i <= |l| && IdsSplit(l, r, i)
  }

  predicate CoreSplit(l: seq<int>, r: seq<int>, i: nat) {
    i < |l| && i < |r| && l[..i] == r[..i] && l[i] < r[i]
  }

  /** Precedence of section 11, over unbounded numbers. */
  ghost predicate Precedes(a: string, b: string)
    requires Valid(a) && Valid(b)
  {
    (exists i :: 0 <= i < 3 && CoreSplit(Numbers(a), Numbers(b), i))
    || (Numbers(a) == Numbers(b) &&
        match (Parse(a).pre, Parse(b).pre)
        case (Some(_), None) => true
        case (Some(p), Some(q)) => IdsPrecede(p, q)
        case (None, _) => false)
  }

  // ----- where the code departs from it -----------------------------------------

  /** A minus sign and digits that fit: a number to strconv.Atoi, a word to the standard. */
  predicate Negative(id: string) {
    |id| > 1 && id[0] == '-' && AllDigits(id[1..]) && Decimal(id[1..]) <= MAX_INT + 1
  }

  /** Digits that do not fit: a word to the code, a number to the standard. */
  predicate Huge(id: string) {
    id != "" && AllDigits(id) && Decimal(id) > MAX_INT
  }

  /** Two different identifiers on which the code and the standard disagree, told from their text. */
  ghost predicate DeviatesAt(x: string, y: string) {
    if AllDigits(x) && AllDigits(y) then
      Huge(x) && Huge(y) && !(Decimal(x) < Decimal(y) <==> AsciiBefore(x, y))
    else if AllDigits(x) then
      Negative(y) || (Huge(x) && !AsciiBefore(x, y))
    else if AllDigits(y) then
      if Negative(x) then Decimal(x[1..]) > 0 || Decimal(y) > 0 else Huge(y) && AsciiBefore(x, y)
    else if Negative(x) && Negative(y) then
      !(Decimal(y[1..]) < Decimal(x[1..]) <==> AsciiBefore(x, y))
    else
      (Negative(x) && !AsciiBefore(x, y)) || (Negative(y) && AsciiBefore(x, y))
  }

  /** The first differing identifiers deviate. */
  ghost predicate IdsDeviate(l: seq<string>, r: seq<string>) {
    l != [] && r != [] && if l[0] == r[0] then IdsDeviate(l[1..], r[1..]) else DeviatesAt(l[0], r[0])
  }

  ghost predicate Deviates(a: string, b: string)
    requires Valid(a) && Valid(b)
  {
    Numbers(a) == Numbers(b) && Parse(a).pre.Some? && Parse(b).pre.Some? && IdsDeviate(Parse(a).pre.value, Parse(b).pre.value)
  }

  lemma {:induction false} LexIsAscii(a: string, b: string)
    ensures LexLess(a, b) <==> AsciiBefore(a, b)
  {
    if LexLess(a, b) {
      var k := LexWitness(a, b);
    }
    if AsciiBefore(a, b) {
      var k :| 0 <= k <= |a| && AsciiSplit(a, b, k);
      LexFromSplit(a, b, k);
    }
  }

  lemma LexWitness(a: string, b: string) returns (k: nat)
    requires LexLess(a, b)
    ensures AsciiSplit(a, b, k)
  {
    if a == "" || a[0] != b[0] {
      k := 0;
    } else {
      var k' := LexWitness(a[1..], b[1..]);
      k := k' + 1;
      assert a[..k] == [a[0]] + a[1..][..k'] && b[..k] == [b[0]] + b[1..][..k'];
    }
  }

  lemma {:induction false} LexFromSplit(a: string, b: string, k: nat)
    requires AsciiSplit(a, b, k)
    ensures LexLess(a, b)
  {
    if k > 0 {
      assert a[0] == a[..k][0] == b[..k][0] == b[0];
      assert a[1..][..k - 1] == a[..k][1..] && b[1..][..k - 1] == b[..k][1..];
      LexFromSplit(a[1..], b[1..], k - 1);
    }
  }

  /** How strconv.Atoi reads an identifier, in terms of its text. */
  lemma ReadingByText(id: string)
    requires ValidIdentifier(id)
    ensures AllDigits(id) ==> Reading(id) == if Huge(id) then None else Some(Decimal(id))
    ensures !AllDigits(id) && Negative(id) ==> Reading(id).Some? && Reading(id).value + Decimal(id[1..]) == 0
    ensures !AllDigits(id) && !Negative(id) ==> Reading(id).None?
  {
    assert IdentifierChar(id[0]);
    if AllDigits(id) {
      assert IsDigit(id[0]);
    }
  }

  lemma IdDeviation(x: string, y: string)
    requires ValidIdentifier(x) && ValidIdentifier(y) && x != y
    ensures (CompareId(x, y) == -1 <==> IdPrecedes(x, y)) <==> !DeviatesAt(x, y)
  {
    ReadingByText(x);
    ReadingByText(y);
    LexIsAscii(x, y);
  }

  lemma IdsPrecedeNext(l: seq<string>, r: seq<string>)
    requires l != [] && r != [] && l[0] == r[0]
    ensures IdsPrecede(l, r) <==> IdsPrecede(l[1..], r[1..])
  {
    if i :| 0 <= i <= |l| && IdsSplit(l, r, i) {
      assert i > 0;
      IdsSplitBack(l, r, i);
    }
    if i :| 0 <= i <= |l[1..]| && IdsSplit(l[1..], r[1..], i) {
      IdsSplitNext(l, r, i);
    }
  }

  lemma IdsSplitBack(l: seq<string>, r: seq<string>, i: nat)
    requires l != [] && r != [] && 0 < i && IdsSplit(l, r, i)
    ensures IdsSplit(l[1..], r[1..], i - 1)
  {
    assert l[1..][..i - 1] == l[..i][1..] && r[1..][..i - 1] == r[..i][1..];
  }

  lemma IdsSplitNext(l: seq<string>, r: seq<string>, i: nat)
    requires l != [] && r != [] && l[0] == r[0] && IdsSplit(l[1..], r[1..], i)
    ensures IdsSplit(l, r, i + 1)
  {
    assert l[..i + 1] == [l[0]] + l[1..][..i] && r[..i + 1] == [r[0]] + r[1..][..i];
  }

  lemma IdsPrecedeFirst(l: seq<string>, r: seq<string>)
    requires l == [] || r == [] || l[0] != r[0]
    ensures IdsPrecede(l, r) <==> r != [] && (l == [] || IdPrecedes(l[0], r[0]))
  {
    assert forall i :: 0 < i <= |l| && i <= |r| && l[..i] == r[..i] ==> l[..i][0] == l[0] && r[..i][0] == r[0];
    if r != [] && (l == [] || IdPrecedes(l[0], r[0])) {
      assert IdsSplit(l, r, 0);
    }
  }

  lemma {:induction false} IdsDeviation(l: seq<string>, r: seq<string>)
    requires AllIdentifiers(l) && AllIdentifiers(r)
    ensures (CompareIds(l, r) == -1 <==> IdsPrecede(l, r)) <==> !IdsDeviate(l, r)
    decreases |l|
  {
    if l != [] && r != [] && l[0] == r[0] {
      IdsDeviation(l[1..], r[1..]);
      IdsPrecedeNext(l, r);
    } else {
      IdsPrecedeFirst(l, r);
      if l != [] && r != [] {
        IdDeviation(l[0], r[0]);
      }
    }
  }

  lemma CoreIsLexicographic(l: seq<int>, r: seq<int>)
    requires |l| == |r| == 3
    ensures CompareCore(l, r) == -1 <==> exists i :: 0 <= i < 3 && CoreSplit(l, r, i)
  {
    if CompareCore(l, r) == -1 {
      if l[0] != r[0] {
        assert CoreSplit(l, r, 0);
      } else if l[1] != r[1] {
        assert CompareCore(l[1..], r[1..]) == -1;
        assert CoreSplit(l, r, 1);
      } else {
        CompareCoreSkip(l, r, 2);
        assert CoreSplit(l, r, 2);
      }
    }
    if i :| 0 <= i < 3 && CoreSplit(l, r, i) {
      CompareCoreSkip(l, r, i);
    }
  }

  /**
   * compareVersions reports "older" exactly where section 11 gives lower precedence, if
   * and only if the versions do not deviate.
   */
  lemma FollowsSection11(a: string, b: string)
    requires Valid(a) && Valid(b) && CoreFits(a) && CoreFits(b)
    ensures (Compare(a, b) == -1 <==> Precedes(a, b)) <==> !Deviates(a, b)
  {
    NumbersAreParsed(a);
    NumbersAreParsed(b);
    var l, r := Parse(a), Parse(b);
    CoreIsLexicographic(l.core, r.core);
    CoreZeroIsEqual(l.core, r.core);
    if l.pre.Some? && r.pre.Some? {
      IdsDeviation(l.pre.value, r.pre.value);
    }
    SplitsDiffer(l.core, r.core);
  }

  lemma SplitsDiffer(l: seq<int>, r: seq<int>)
    ensures l == r ==> !exists i :: 0 <= i < 3 && CoreSplit(l, r, i)
  {
  }

  /** Without such identifiers there is nothing to deviate on. */
  lemma {:induction false} PlainIdsAgree(l: seq<string>, r: seq<string>)
    requires forall i :: 0 <= i < |l| ==> !Negative(l[i]) && !Huge(l[i])
    requires forall i :: 0 <= i < |r| ==> !Negative(r[i]) && !Huge(r[i])
    ensures !IdsDeviate(l, r)
    decreases |l|
  {
    if l != [] && r != [] && l[0] == r[0] {
      PlainIdsAgree(l[1..], r[1..]);
    }
  }

  lemma NumbersAreParsed(a: string)
    requires Valid(a) && CoreFits(a)
    ensures Parse(a).core == Numbers(a)
  {
    NumberReadings(Split(CorePart(a), '.'));
    FitsByParts(a);
  }

  lemma NegativeFive(x: string, y: string)
    requires x == "-5" && y == "4"
    ensures ValidIdentifier(x) && ValidIdentifier(y) && Negative(x) && !AllDigits(x) && AllDigits(y) && Decimal(y) > 0
  {
    var five := x[1..];
    assert five == "5" && x[0] == '-' && !IsDigit(x[0]);
    ReadDigit(five);
    ReadDigit(y);
  }

  /** Two valid versions where the code and section 11 differ: it reports 1.0.0--5 older than 1.0.0-4. */
  lemma NegativeIdentifierDeviates(a: string, b: string)
    requires a == "1.0.0--5" && b == "1.0.0-4"
    ensures Valid(a) && Valid(b) && Compare(a, b) == -1 && !Precedes(a, b)
  {
    var x, y := a[6..], b[6..];
    NegativeFive(x, y);
    ReportedOlder(a, b, x, y);
  }

  lemma ReportedOlder(a: string, b: string, x: string, y: string)
    requires a == "1.0.0" + ['-'] + x && b == "1.0.0" + ['-'] + y && ValidIdentifier(x) && ValidIdentifier(y)
    requires Negative(x) && !AllDigits(x) && AllDigits(y) && 0 < Decimal(y) <= MAX_INT
    ensures Valid(a) && Valid(b) && Compare(a, b) == -1 && !Precedes(a, b)
  {
    OneOh(a, x);
    OneOh(b, y);
    ReadingByText(x);
    ReadingByText(y);
    assert CompareIds([x], [y]) == CompareId(x, y);
    IdsPrecedeFirst([x], [y]);
    SplitsDiffer(Numbers(a), Numbers(b));
  }
}
