/**
 * The digest input of the database import: each encoded row behind its length in
 * eight big-endian bytes (database/postgres_import.go), and a decoder for it.
 */
module Framing {
  import opened Strings

  type byte = x: int | 0 <= x < 256

  function Power(k: nat): (p: nat)
    ensures p > 0
  {
    if k == 0 then 1 else 256 * Power(k - 1)
  }

  /** The low `k` bytes of n, most significant first. */
  function BigEndian(n: nat, k: nat): (r: seq<byte>)
    ensures |r| == k
  {
    if k == 0 then [] else BigEndian(n / 256, k - 1) + [n % 256]
  }

  function Number(s: seq<byte>): nat {
    if s == [] then 0 else 256 * Number(s[..|s| - 1]) + s[|s| - 1]
  }

  lemma {:induction false} BigEndianRoundTrip(n: nat, k: nat)
    requires n < Power(k)
    ensures Number(BigEndian(n, k)) == n
  {
    if k > 0 {
      BigEndianRoundTrip(n / 256, k - 1);
      assert BigEndian(n, k)[..k - 1] == BigEndian(n / 256, k - 1);
    }
  }

  /** Go lengths are below 2^63. */
  predicate Sized(s: seq<byte>) {
    |s| < 0x8000_0000_0000_0000
  }

  function Frame(s: seq<byte>): seq<byte> {
    BigEndian(|s|, 8) + s
  }

  function Stream(parts: seq<seq<byte>>): seq<byte> {
    if parts == [] then [] else Stream(parts[..|parts| - 1]) + Frame(parts[|parts| - 1])
  }

  /** Reads the frames back, first to last. */
  function Unframe(s: seq<byte>): Option<seq<seq<byte>>>
    decreases |s|
  {
    if s == [] then Some([])
    else if |s| < 8 then None
    else
      var n := Number(s[..8]);
      if |s| < 8 + n then None
      else match Unframe(s[8 + n..])
        case None => None
        case Some(rest) => Some([s[8..8 + n]] + rest)
  }

  lemma {:induction false} UnframeFirst(part: seq<byte>, rest: seq<byte>)
    requires Sized(part)
    ensures Unframe(Frame(part) + rest) == match Unframe(rest) case None => None case Some(parts) => Some([part] + parts)
  {
    var s := Frame(part) + rest;
    assert |part| < Power(8) by {
      assert Power(2) == 65536 && Power(4) == 65536 * 65536 && Power(8) == 65536 * 65536 * 65536 * 65536;
    }
    BigEndianRoundTrip(|part|, 8);
    assert s[..8] == BigEndian(|part|, 8);
    assert s[8..8 + |part|] == part;
    assert s[8 + |part|..] == rest;
  }

  lemma Associative(a: seq<byte>, b: seq<byte>, c: seq<byte>)
    ensures (a + b) + c == a + (b + c)
  {
  }

  lemma {:induction false} StreamPrepend(part: seq<byte>, parts: seq<seq<byte>>)
    ensures Stream([part] + parts) == Frame(part) + Stream(parts)
  {
    var all := [part] + parts;
    if parts == [] {
      assert all[..0] == [];
      assert Stream(all) == Stream(all[..0]) + Frame(part);
    } else {
      var n := |parts| - 1;
      StreamPrepend(part, parts[..n]);
      Associative(Frame(part), Stream(parts[..n]), Frame(parts[n]));
      assert all[..|all| - 1] == [part] + parts[..n];
      assert all[|all| - 1] == parts[n];
    }
  }

  /** Decoding undoes framing, so two streams are equal only for the same parts in the same order. */
  lemma {:induction false} FramingRoundTrip(parts: seq<seq<byte>>)
    requires forall i :: 0 <= i < |parts| ==> Sized(parts[i])
    ensures Unframe(Stream(parts)) == Some(parts)
  {
    if parts != [] {
      var rest := parts[1..];
      FramingRoundTrip(rest);
      assert parts == [parts[0]] + rest;
      StreamPrepend(parts[0], rest);
      UnframeFirst(parts[0], Stream(rest));
    }
  }
}
