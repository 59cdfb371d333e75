/**
 * The grammar of release versions, given by how they are written rather than by
 * how they are read: an optional v, three plain numbers, and dot-separated
 * identifiers after a hyphen and after a plus sign.
 */
module Spelling {
  import opened Strings
  import opened Versions

  datatype Spelled = Spelled(prefixed: bool, core: seq<string>, pre: seq<string>, build: seq<string>)

  /** Letters, digits and the hyphen, in ASCII. */
  predicate Plain(c: char) {
    48 <= c as int <= 57 || 65 <= c as int <= 90 || 97 <= c as int <= 122 || c as int == 45
  }

  predicate PlainWord(s: string) {
    s != "" && forall i :: 0 <= i < |s| ==> Plain(s[i])
  }

  /** A number without a superfluous leading zero. */
  predicate PlainNumber(s: string) {
    s != "" && (forall i :: 0 <= i < |s| ==> 48 <= s[i] as int <= 57) && (|s| > 1 ==> s[0] as int != 48)
  }

  ghost predicate Proper(v: Spelled) {
    |v.core| == 3 && (forall i :: 0 <= i < |v.core| ==> PlainNumber(v.core[i]))
    && (forall i :: 0 <= i < |v.pre| ==> PlainWord(v.pre[i]))
    && (forall i :: 0 <= i < |v.build| ==> PlainWord(v.build[i]))
  }

  /** The identifiers as one string, if there are any. */
  function Joined(parts: seq<string>): Option<string> {
    if parts == [] then None else Some(Join(parts, '.'))
  }

  /** What follows `mark`, if anything does. */
  function Marked(mark: char, text: Option<string>): string {
    if text.None? then [] else [mark] + text.value
  }

  function Prefix(prefixed: bool): string {
    if prefixed then ['v'] else []
  }

  function Write(v: Spelled): string
    requires v.core != []
  {
    Prefix(v.prefixed) + (Join(v.core, '.') + Marked('-', Joined(v.pre))) + Marked('+', Joined(v.build))
  }

  // ----- joining and splitting ---------------------------------------------------------------

  lemma {:induction false} IndexOfAfter(a: string, c: char, b: string)
    requires c !in a
    ensures IndexOf(a + [c] + b, c) == |a|
  {
    if a != "" {
      IndexOfAfter(a[1..], c, b);
      assert (a + [c] + b)[1..] == a[1..] + [c] + b;
    }
  }

  lemma {:induction false} IndexOfAbsent(a: string, c: char)
    requires c !in a
    ensures IndexOf(a, c) == -1
  {
    if a != "" {
      IndexOfAbsent(a[1..], c);
    }
  }

  /** Splitting undoes joining. */
  lemma {:induction false} JoinSplit(parts: seq<string>, sep: char)
    requires |parts| >= 1 && forall i :: 0 <= i < |parts| ==> sep !in parts[i]
    ensures Split(Join(parts, sep), sep) == parts
    decreases |parts|
  {
    if |parts| == 1 {
      IndexOfAbsent(parts[0], sep);
    } else {
      var rest := Join(parts[1..], sep);
      JoinSplit(parts[1..], sep);
      IndexOfAfter(parts[0], sep, rest);
      assert Join(parts, sep)[|parts[0]| + 1..] == rest;
      assert Join(parts, sep)[..|parts[0]|] == parts[0];
    }
  }

  /** A character that is neither the separator nor in a part is not in the whole. */
  lemma {:induction false} JoinLacks(parts: seq<string>, sep: char, c: char)
    requires |parts| >= 1 && c != sep && forall i :: 0 <= i < |parts| ==> c !in parts[i]
    ensures c !in Join(parts, sep)
    decreases |parts|
  {
    if |parts| > 1 {
      JoinLacks(parts[1..], sep, c);
    }
  }

  // ----- written is valid ----------------------------------------------------------------------

  lemma WordsLack(words: seq<string>, c: char)
    requires words != [] && (forall i :: 0 <= i < |words| ==> PlainWord(words[i])) && !Plain(c)
    ensures c != '.' ==> c !in Join(words, '.')
    ensures c == '.' ==> Split(Join(words, '.'), '.') == words
  {
    if c == '.' {
      JoinSplit(words, c);
    } else {
      JoinLacks(words, '.', c);
    }
  }

  lemma NumbersLack(numbers: seq<string>, c: char)
    requires numbers != [] && (forall i :: 0 <= i < |numbers| ==> PlainNumber(numbers[i])) && !('0' <= c <= '9')
    ensures c != '.' ==> c !in Join(numbers, '.')
    ensures c == '.' ==> Split(Join(numbers, '.'), '.') == numbers
    ensures Join(numbers, '.') != "" && '0' <= Join(numbers, '.')[0] <= '9'
  {
    if c == '.' {
      JoinSplit(numbers, c);
    } else {
      JoinLacks(numbers, '.', c);
    }
  }

  /** Everything before the build metadata. */
  function Release(v: Spelled): string
    requires v.core != []
  {
    Join(v.core, '.') + Marked('-', Joined(v.pre))
  }

  lemma ReleaseLacksPlus(v: Spelled)
    requires Proper(v)
    ensures '+' !in Release(v) && Release(v) != "" && Release(v)[0] != 'v'
  {
    NumbersLack(v.core, '+');
    if v.pre != [] {
      WordsLack(v.pre, '+');
    }
  }

  lemma Associates(a: string, b: string, c: string)
    ensures (a + b) + c == a + (b + c)
  {
  }

  lemma AroundMark(a: string, c: char, b: string)
    ensures (a + [c] + b)[..|a|] == a && (a + [c] + b)[|a| + 1..] == b
  {
  }

  /** Cutting at the first mark finds what precedes and what follows it. */
  lemma CutMarked(s: string, head: string, mark: char, text: Option<string>)
    requires s == head + Marked(mark, text) && mark !in head
    ensures var i := IndexOf(s, mark);
      if text.None? then i < 0 && s == head else i == |head| && s[..i] == head && s[i + 1..] == text.value
  {
    if text.None? {
      IndexOfAbsent(head, mark);
      assert s == head;
    } else {
      Associates(head, [mark], text.value);
      IndexOfAfter(head, mark, text.value);
      AroundMark(head, mark, text.value);
    }
  }

  lemma ReadBuild(value: string, prefixed: bool, release: string, build: Option<string>)
    requires value == Prefix(prefixed) + release + Marked('+', build)
    requires '+' !in release && release != "" && release[0] != 'v'
    ensures Body(value) == release && BuildPart(value) == build
  {
    var rest := release + Marked('+', build);
    Associates(Prefix(prefixed), release, Marked('+', build));
    TrimPrefix(prefixed, rest);
    CutMarked(rest, release, '+', build);
  }

  lemma TrimPrefix(prefixed: bool, rest: string)
    requires rest != "" && rest[0] != 'v'
    ensures TrimV(Prefix(prefixed) + rest) == rest
  {
  }

  lemma ReadPre(value: string, core: string, pre: Option<string>)
    requires Body(value) == core + Marked('-', pre) && '-' !in core
    ensures CorePart(value) == core && PrePart(value) == pre
  {
    CutMarked(Body(value), core, '-', pre);
  }

  lemma ReadParts(v: Spelled)
    requires Proper(v)
    ensures BuildPart(Write(v)) == Joined(v.build) && PrePart(Write(v)) == Joined(v.pre) && CorePart(Write(v)) == Join(v.core, '.')
  {
    ReleaseLacksPlus(v);
    ReadBuild(Write(v), v.prefixed, Release(v), Joined(v.build));
    NumbersLack(v.core, '-');
    ReadPre(Write(v), Join(v.core, '.'), Joined(v.pre));
  }

  lemma PlainIsIdentifier(s: string)
    ensures PlainWord(s) <==> ValidIdentifier(s)
    ensures PlainNumber(s) <==> ValidNumber(s)
  {
  }

  lemma SplitWords(words: seq<string>)
    requires forall i :: 0 <= i < |words| ==> PlainWord(words[i])
    ensures AllIdentifiers(words) && (words != [] ==> Split(Join(words, '.'), '.') == words)
  {
    forall i | 0 <= i < |words|
      ensures ValidIdentifier(words[i])
    {
      PlainIsIdentifier(words[i]);
    }
    if words != [] {
      WordsLack(words, '.');
    }
  }

  lemma SplitNumbers(numbers: seq<string>)
    requires |numbers| == 3 && forall i :: 0 <= i < |numbers| ==> PlainNumber(numbers[i])
    ensures ValidCore(numbers) && Split(Join(numbers, '.'), '.') == numbers
  {
    forall i | 0 <= i < |numbers|
      ensures ValidNumber(numbers[i])
    {
      PlainIsIdentifier(numbers[i]);
    }
    NumbersLack(numbers, '.');
  }

  /** Whatever is written this way is valid, and read as its numbers and pre-release identifiers. */
  lemma WrittenIsValid(v: Spelled)
    requires Proper(v)
    ensures Valid(Write(v))
    ensures Parse(Write(v)) == Version(CoreNumbers(v.core), if v.pre == [] then None else Some(v.pre))
  {
    ReadParts(v);
    SplitNumbers(v.core);
    SplitWords(v.pre);
    SplitWords(v.build);
    assert ValidCore(v.core);
  }

  // ----- valid is written ------------------------------------------------------------------------

  /** The spelling of a valid version. */
  function Spell(value: string): Spelled {
    Spelled(|value| > 0 && value[0] == 'v', Split(CorePart(value), '.'),
            if PrePart(value).Some? then Split(PrePart(value).value, '.') else [],
            if BuildPart(value).Some? then Split(BuildPart(value).value, '.') else [])
  }

  lemma CutAt(s: string, c: char)
    ensures var i := IndexOf(s, c); i >= 0 ==> s == s[..i] + [c] + s[i + 1..]
  {
    IndexOfFirst(s, c);
  }

  lemma CutBuild(value: string)
    ensures value == Prefix(|value| > 0 && value[0] == 'v') + Body(value) + Marked('+', BuildPart(value))
  {
    var t, p := TrimV(value), Prefix(|value| > 0 && value[0] == 'v');
    CutRest(value, t);
    assert value == p + t;
    Associates(p, Body(value), Marked('+', BuildPart(value)));
  }

  lemma CutRest(value: string, t: string)
    requires t == TrimV(value)
    ensures t == Body(value) + Marked('+', BuildPart(value))
  {
    CutAt(t, '+');
  }

  lemma CutPre(value: string)
    ensures Body(value) == CorePart(value) + Marked('-', PrePart(value))
  {
    CutAt(Body(value), '-');
  }

  lemma JoinedAgain(text: Option<string>)
    ensures Joined(if text.Some? then Split(text.value, '.') else []) == text
  {
    if text.Some? {
      SplitJoin(text.value, '.');
    }
  }

  lemma SpellIsProper(value: string)
    requires Valid(value)
    ensures Proper(Spell(value))
  {
    forall s {
      PlainIsIdentifier(s);
    }
  }

  /** Every valid version is written this way. */
  lemma ValidIsWritten(value: string)
    requires Valid(value)
    ensures Proper(Spell(value)) && Write(Spell(value)) == value
  {
    SpellIsProper(value);
    SplitJoin(CorePart(value), '.');
    CutPre(value);
    CutBuild(value);
    JoinedAgain(PrePart(value));
    JoinedAgain(BuildPart(value));
  }

  /** validVersion accepts exactly the written versions. */
  lemma ValidExactly(value: string)
    ensures Valid(value) <==> exists v :: Proper(v) && Write(v) == value
  {
    if Valid(value) {
      ValidIsWritten(value);
    }
    if v :| Proper(v) && Write(v) == value {
      WrittenIsValid(v);
    }
  }

  /** The v and the build metadata never change a verdict. */
  lemma DecorationIsIgnored(v: Spelled, w: Spelled, other: string)
    requires Proper(v) && Proper(w) && v.core == w.core && v.pre == w.pre && Valid(other)
    ensures Valid(Write(v)) && Valid(Write(w))
    ensures Compare(Write(v), other) == Compare(Write(w), other) && Compare(other, Write(v)) == Compare(other, Write(w))
  {
    WrittenIsValid(v);
    WrittenIsValid(w);
  }

  /** A v in front of a version that has none leaves it valid with the same verdicts. */
  lemma PrefixIsIgnored(value: string, other: string)
    requires Valid(value) && Valid(other) && value != "" && value[0] != 'v'
    ensures Valid(['v'] + value) && Compare(['v'] + value, other) == Compare(value, other) && Compare(other, ['v'] + value) == Compare(other, value)
  {
    var v := Spell(value);
    ValidIsWritten(value);
    WritePrefixed(v);
    DecorationIsIgnored(v.(prefixed := true), v, other);
  }

  lemma WritePrefixed(v: Spelled)
    requires v.core != [] && !v.prefixed
    ensures Write(v.(prefixed := true)) == ['v'] + Write(v)
  {
    Associates(['v'], Release(v), Marked('+', Joined(v.build)));
    assert Prefix(false) + Release(v) == Release(v);
  }

  lemma WriteMetadata(v: Spelled, metadata: seq<string>)
    requires v.core != [] && v.build == [] && metadata != []
    ensures Write(v.(build := metadata)) == Write(v) + ['+'] + Join(metadata, '.')
  {
    var start := Prefix(v.prefixed) + Release(v);
    assert Write(v) == start;
    Associates(start, ['+'], Join(metadata, '.'));
  }

  lemma NoMetadata(value: string)
    requires '+' !in value
    ensures BuildPart(value).None?
  {
    IndexOfAbsent(TrimV(value), '+');
  }

  /** And so does build metadata behind one that has none. */
  lemma MetadataIsIgnored(value: string, metadata: seq<string>, other: string)
    requires Valid(value) && Valid(other) && '+' !in value
    requires metadata != [] && forall i :: 0 <= i < |metadata| ==> PlainWord(metadata[i])
    ensures var longer := value + ['+'] + Join(metadata, '.');
      Valid(longer) && Compare(longer, other) == Compare(value, other) && Compare(other, longer) == Compare(other, value)
  {
    var v := Spell(value);
    ValidIsWritten(value);
    NoMetadata(value);
    WriteMetadata(v, metadata);
    DecorationIsIgnored(v.(build := metadata), v, other);
  }
}
