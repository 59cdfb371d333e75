/** The string helpers of Go's standard library that the version code relies on. */
module Strings {

  datatype Option<+T> = None | Some(value: T)

  /** strings.IndexByte: position of the first occurrence of `c`, or -1. */
  function IndexOf(s: string, c: char): (r: int)
    ensures -1 <= r < |s|
  {
    if s == "" then -1
    else if s[0] == c then 0
    else
      var rest := IndexOf(s[1..], c);
      if rest < 0 then -1 else rest + 1
  }

  lemma {:induction false} IndexOfFirst(s: string, c: char)
    ensures var r := IndexOf(s, c);
            if r >= 0 then s[r] == c && c !in s[..r] else c !in s
  {
    if s != "" && s[0] != c {
      IndexOfFirst(s[1..], c);
      var rest := IndexOf(s[1..], c);
      if rest >= 0 {
        assert s[..rest + 1] == [s[0]] + s[1..][..rest];
      }
    }
  }

  /** strings.Split with a one-byte separator: always at least one part. */
  function Split(s: string, sep: char): (parts: seq<string>)
    ensures |parts| >= 1
  {
    var i := IndexOf(s, sep);
    if i < 0 then [s] else [s[..i]] + Split(s[i + 1..], sep)
  }

  /** Joining undoes splitting, and no part contains the separator. */
  lemma {:induction false} SplitJoin(s: string, sep: char)
    ensures Join(Split(s, sep), sep) == s
    ensures forall p :: p in Split(s, sep) ==> sep !in p
    decreases |s|
  {
    var i := IndexOf(s, sep);
    IndexOfFirst(s, sep);
    if i >= 0 {
      SplitJoin(s[i + 1..], sep);
      var rest := Split(s[i + 1..], sep);
      assert ([s[..i]] + rest)[1..] == rest;
      assert s == s[..i] + [s[i]] + s[i + 1..];
    }
  }

  /** The inverse of Split. */
  function Join(parts: seq<string>, sep: char): string
    requires |parts| >= 1
  {
    if |parts| == 1 then parts[0] else parts[0] + [sep] + Join(parts[1..], sep)
  }

  /** strings.TrimPrefix(value, "v"). */
  function TrimV(s: string): string {
    if |s| > 0 && s[0] == 'v' then s[1..] else s
  }

  predicate IsSpace(c: char) {
    c == ' ' || c == '\t' || c == '\n' || c == '\r' || c == '\U{000B}' || c == '\U{000C}' || c == '\U{0085}' || c == '\U{00A0}'
    || c == '\U{1680}' || '\U{2000}' <= c <= '\U{200A}' || c == '\U{2028}' || c == '\U{2029}' || c == '\U{202F}' || c == '\U{205F}' || c == '\U{3000}'
  }

  function TrimLeft(s: string): string {
    if |s| > 0 && IsSpace(s[0]) then TrimLeft(s[1..]) else s
  }

  function TrimRight(s: string): string {
    if |s| > 0 && IsSpace(s[|s| - 1]) then TrimRight(s[..|s| - 1]) else s
  }

  /** strings.TrimSpace. */
  function TrimSpace(s: string): string {
    TrimRight(TrimLeft(s))
  }

  /** Byte-wise string order, Go's `<` on strings. */
  predicate LexLess(a: string, b: string) {
    if b == "" then false
    else if a == "" then true
    else if a[0] == b[0] then LexLess(a[1..], b[1..])
    else a[0] < b[0]
  }

  lemma LexTrichotomy(a: string, b: string)
    ensures !(LexLess(a, b) && LexLess(b, a))
    ensures a == b || LexLess(a, b) || LexLess(b, a)
    ensures a == b ==> !LexLess(a, b)
  {
    if a != "" && b != "" && a[0] == b[0] {
      LexTrichotomy(a[1..], b[1..]);
      assert a == [a[0]] + a[1..] && b == [b[0]] + b[1..];
    }
  }

  lemma LexTransitive(a: string, b: string, c: string)
    requires LexLess(a, b) && LexLess(b, c)
    ensures LexLess(a, c)
  {
    if a != "" && a[0] == b[0] == c[0] {
      LexTransitive(a[1..], b[1..], c[1..]);
    }
  }

  predicate IsDigit(c: char) { '0' <= c <= '9' }

  predicate AllDigits(s: string) { forall i :: 0 <= i < |s| ==> IsDigit(s[i]) }

  const MAX_INT: int := 0x7FFF_FFFF_FFFF_FFFF

  /** Decimal value of a digit string. */
  function Decimal(s: string): (n: nat)
    requires AllDigits(s)
  {
    if s == "" then 0
    else 10 * Decimal(s[..|s| - 1]) + (s[|s| - 1] as int - '0' as int)
  }

  /** The outcome of strconv.Atoi on a 64-bit platform. */
  datatype Parsed = Number(value: int) | Syntax | Range(clamped: int)

  function Atoi(s: string): Parsed {
    var signed := |s| > 0 && (s[0] == '-' || s[0] == '+');
    var digits := if signed then s[1..] else s;
    if digits == "" || !AllDigits(digits) then Syntax
    else
      var n: int := Decimal(digits);
      if signed && s[0] == '-' then
        if n <= MAX_INT + 1 then Number(-n) else Range(-MAX_INT - 1)
      else
        if n <= MAX_INT then Number(n) else Range(MAX_INT)
  }

  /** The value a caller sees when it ignores the error of strconv.Atoi. */
  function AtoiValue(s: string): int {
    match Atoi(s)
    case Number(n) => n
    case Syntax => 0
    case Range(n) => n
  }

  /** A digit string without a superfluous leading zero. */
  predicate CanonicalDigits(s: string) {
    s != "" && AllDigits(s) && (s[0] == '0' ==> |s| == 1)
  }

  lemma DecimalPositive(s: string)
    requires CanonicalDigits(s) && s[0] != '0'
    ensures Decimal(s) >= 1
  {
    if |s| > 1 {
      DecimalPositive(s[..|s| - 1]);
    }
  }

  /** Canonical digit strings are determined by their value. */
  lemma {:induction false} DecimalInjective(a: string, b: string)
    requires CanonicalDigits(a) && CanonicalDigits(b) && Decimal(a) == Decimal(b)
    ensures a == b
  {
    var a', b' := a[..|a| - 1], b[..|b| - 1];
    assert Decimal(a') == Decimal(b') && a[|a| - 1] == b[|b| - 1];
    if |a| > 1 && |b| > 1 {
      DecimalInjective(a', b');
      assert a == a' + [a[|a| - 1]] && b == b' + [b[|b| - 1]];
    } else if |a| > 1 {
      DecimalPositive(a');
      assert false;
    } else if |b| > 1 {
      DecimalPositive(b');
      assert false;
    }
  }
}
