/**
 * The sliding-window limiter of the OpenID provider (oidc/provider.go): per key a
 * slice of admission times that is compacted in place and appended to. Times are
 * nanoseconds.
 */
module Limiter {
  const TEN_MINUTES: int := 600 * 1_000_000_000

  /** The times after `cut`, in order. */
  function Recent(s: seq<int>, cut: int): (r: seq<int>)
    ensures |r| <= |s|
  {
    if s == [] then []
    else if s[|s| - 1] > cut then Recent(s[..|s| - 1], cut) + [s[|s| - 1]]
    else Recent(s[..|s| - 1], cut)
  }

  function Kept(s: seq<int>, now: int): seq<int> {
    Recent(s, now - TEN_MINUTES)
  }

  predicate Admits(s: seq<int>, now: int, maximum: int) {
    |Kept(s, now)| < maximum
  }

  /** What one call leaves under its key. */
  function After(s: seq<int>, now: int, maximum: int): seq<int> {
    if Admits(s, now, maximum) then Kept(s, now) + [now] else Kept(s, now)
  }

  // ----- the slices ----------------------------------------------------------------------

  /** Filters the first `n` elements of the backing array onto its front. */
  method Compact(a: array<int>, n: nat, cut: int) returns (k: nat)
    requires n <= a.Length
    modifies a
    ensures k <= n && a[..k] == Recent(old(a[..n]), cut)
  {
    k := 0;
    for i := 0 to n
      invariant k <= i
      invariant a[..k] == Recent(old(a[..n])[..i], cut)
      invariant forall j :: i <= j < n ==> a[j] == old(a[j])
    {
      var t := a[i];
      assert t == old(a[..n])[i];
      assert old(a[..n])[..i + 1][..i] == old(a[..n])[..i];
      if t > cut {
        ghost var front := a[..k];
        a[k] := t;
        assert a[..k + 1] == front + [t];
        k := k + 1;
      }
    }
    assert old(a[..n])[..n] == old(a[..n]);
  }

  datatype Slice = Slice(backing: array<int>, len: nat)

  /** Go's append: in place when the capacity allows, else into a fresh array. */
  method Append(s: Slice, x: int) returns (r: Slice)
    requires s.len <= s.backing.Length
    modifies s.backing
    ensures r.len == s.len + 1 <= r.backing.Length
    ensures r.backing[..r.len] == old(s.backing[..s.len]) + [x]
    ensures r.backing == s.backing || fresh(r.backing)
  {
    if s.len < s.backing.Length {
      s.backing[s.len] := x;
      r := Slice(s.backing, s.len + 1);
    } else {
      var bigger := new int[2 * s.len + 1];
      for i := 0 to s.len
        invariant bigger[..i] == old(s.backing[..i])
        invariant s.backing[..] == old(s.backing[..])
      {
        bigger[i] := s.backing[i];
      }
      bigger[s.len] := x;
      r := Slice(bigger, s.len + 1);
    }
  }

  class Attempts {
    var attempts: map<string, Slice>

    /** Two keys never share a backing array, or compacting one would damage the other. */
    ghost predicate Valid()
      reads this
    {
      && (forall k :: k in attempts ==> attempts[k].len <= attempts[k].backing.Length)
      && (forall k, m :: k in attempts && m in attempts && k != m ==> attempts[k].backing != attempts[m].backing)
    }

    ghost function Times(key: string): seq<int>
      requires Valid()
      reads this, set k | k in attempts :: attempts[k].backing
    {
      if key in attempts then attempts[key].backing[..attempts[key].len] else []
    }

    constructor ()
      ensures Valid() && attempts == map[]
    {
      attempts := map[];
    }

    method AllowedLimit(key: string, maximum: int, now: int) returns (ok: bool)
      requires Valid()
      modifies this, set k | k in attempts :: attempts[k].backing
      ensures Valid()
      ensures ok <==> Admits(old(Times(key)), now, maximum)
      ensures Times(key) == After(old(Times(key)), now, maximum)
      ensures forall other :: other != key ==> Times(other) == old(Times(other))
      ensures forall k :: k in attempts ==> fresh(attempts[k].backing) || (k in old(attempts) && attempts[k].backing == old(attempts)[k].backing)
    {
      var slice: Slice;
      if key in attempts {
        slice := attempts[key];
      } else {
        var none := new int[0];
        slice := Slice(none, 0);
        assert slice.backing[..0] == [];
      }
      var n := Compact(slice.backing, slice.len, now - TEN_MINUTES);
      slice := Slice(slice.backing, n);
      ok := n < maximum;
      if ok {
        slice := Append(slice, now);
      }
      attempts := attempts[key := slice];
    }
  }

  // ----- one key over all its calls ----------------------------------------------------------

  /** The slice after calls at the given times, all with the same maximum. */
  function State(times: seq<int>, maximum: int): seq<int> {
    if times == [] then [] else After(State(times[..|times| - 1], maximum), times[|times| - 1], maximum)
  }

  predicate AdmittedAt(times: seq<int>, maximum: int, i: nat)
    requires i < |times|
  {
    Admits(State(times[..i], maximum), times[i], maximum)
  }

  /** The times of all admitted calls, old ones included. */
  function Admitted(times: seq<int>, maximum: int): seq<int> {
    if times == [] then []
    else if AdmittedAt(times, maximum, |times| - 1) then Admitted(times[..|times| - 1], maximum) + [times[|times| - 1]]
    else Admitted(times[..|times| - 1], maximum)
  }

  ghost predicate NonDecreasing(times: seq<int>) {
    forall i, j :: 0 <= i <= j < |times| ==> times[i] <= times[j]
  }

  /** How many of the times lie in (end - ten minutes, end]. */
  function InWindow(s: seq<int>, end: int): nat {
    if s == [] then 0
    else InWindow(s[..|s| - 1], end) + (if end - 600_000_000_000 < s[|s| - 1] <= end then 1 else 0)
  }

  lemma {:induction false} RecentTwice(s: seq<int>, early: int, late: int)
    requires early <= late
    ensures Recent(Recent(s, early), late) == Recent(s, late)
  {
    if s != [] {
      var last := |s| - 1;
      RecentTwice(s[..last], early, late);
      if s[last] > early {
        var r := Recent(s[..last], early);
        assert (r + [s[last]])[..|r|] == r;
      }
    }
  }

  lemma RecentAppend(s: seq<int>, t: int, cut: int)
    requires t > cut
    ensures Recent(s + [t], cut) == Recent(s, cut) + [t]
  {
    assert (s + [t])[..|s|] == s;
  }

  lemma {:induction false} AdmittedBounded(times: seq<int>, maximum: int, top: int)
    requires forall i :: 0 <= i < |times| ==> times[i] <= top
    ensures forall i :: 0 <= i < |Admitted(times, maximum)| ==> Admitted(times, maximum)[i] <= top
  {
    if times != [] {
      AdmittedBounded(times[..|times| - 1], maximum, top);
    }
  }

  /** The compacted slice is the admitted calls of the window before the last call. */
  lemma {:induction false} StateIsRecent(times: seq<int>, maximum: int, now: int)
    requires NonDecreasing(times + [now])
    ensures Kept(State(times, maximum), now) == Kept(Admitted(times, maximum), now)
  {
    if times != [] {
      var n := |times| - 1;
      var before, t := times[..n], times[n];
      assert (times + [now])[n] == t && (times + [now])[n + 1] == now;
      assert before + [t] == times && NonDecreasing(times) by {
        assert times == (times + [now])[..n + 1];
      }
      StateIsRecent(before, maximum, t);
      var all := Admitted(before, maximum);
      var cut, late := t - TEN_MINUTES, now - TEN_MINUTES;
      assert Kept(State(before, maximum), t) == Recent(all, cut);
      if AdmittedAt(times, maximum, n) {
        RecentAppend(all, t, cut);
        RecentTwice(all + [t], cut, late);
        assert Recent(Recent(all + [t], cut), late) == Recent(all + [t], late);
      } else {
        RecentTwice(all, cut, late);
      }
    }
  }

  lemma {:induction false} WindowWithin(s: seq<int>, now: int, end: int)
    requires forall i :: 0 <= i < |s| ==> s[i] <= now
    requires now <= end
    ensures InWindow(s, end) <= |Kept(s, now)|
    ensures now == end ==> InWindow(s, end) == |Kept(s, now)|
  {
    if s != [] {
      WindowWithin(s[..|s| - 1], now, end);
    }
  }

  lemma InWindowAppend(s: seq<int>, t: int, end: int)
    ensures InWindow(s + [t], end) == InWindow(s, end) + (if end - 600_000_000_000 < t <= end then 1 else 0)
  {
    assert (s + [t])[..|s|] == s;
  }

  lemma PrefixNonDecreasing(times: seq<int>, n: nat)
    requires NonDecreasing(times) && n <= |times|
    ensures NonDecreasing(times[..n])
  {
  }

  /**
   * A call is admitted exactly when fewer than `maximum` calls were admitted in the
   * ten minutes before it.
   */
  lemma AdmittedIff(times: seq<int>, maximum: int, i: nat)
    requires NonDecreasing(times) && i < |times|
    ensures AdmittedAt(times, maximum, i) <==> InWindow(Admitted(times[..i], maximum), times[i]) < maximum
  {
    var before, now := times[..i], times[i];
    assert before + [now] == times[..i + 1];
    PrefixNonDecreasing(times, i + 1);
    StateIsRecent(before, maximum, now);
    AdmittedBounded(before, maximum, now);
    WindowWithin(Admitted(before, maximum), now, now);
  }

  /** No window of ten minutes, wherever it ends, holds more than `maximum` admitted calls. */
  lemma {:induction false} WindowBound(times: seq<int>, maximum: int, end: int)
    requires NonDecreasing(times)
    ensures InWindow(Admitted(times, maximum), end) <= if maximum < 0 then 0 else maximum
  {
    if times != [] {
      var n := |times| - 1;
      var before, t := times[..n], times[n];
      PrefixNonDecreasing(times, n);
      WindowBound(before, maximum, end);
      if AdmittedAt(times, maximum, n) {
        LastFits(times, maximum, end);
        InWindowAppend(Admitted(before, maximum), t, end);
      }
    }
  }

  /** An admitted call leaves room for itself in every window it falls into. */
  lemma LastFits(times: seq<int>, maximum: int, end: int)
    requires NonDecreasing(times) && |times| > 0 && AdmittedAt(times, maximum, |times| - 1)
    ensures times[|times| - 1] <= end ==> InWindow(Admitted(times[..|times| - 1], maximum), end) < maximum
  {
    var n := |times| - 1;
    var all, t := Admitted(times[..n], maximum), times[n];
    if t <= end {
      AdmittedIff(times, maximum, n);
      AdmittedBounded(times[..n], maximum, t);
      WindowWithin(all, t, end);
      WindowWithin(all, t, t);
    }
  }
}
