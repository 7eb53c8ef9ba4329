/** Shared vocabulary: optional values, Rust's `u64` with its saturating operators,
    and `Vec::retain` with the laws the other modules use. */
module Prelude {

  datatype Option<+T> = None | Some(value: T)

  const U64_MAX: int := 0xFFFF_FFFF_FFFF_FFFF
  type u64 = n: int | 0 <= n <= 0xFFFF_FFFF_FFFF_FFFF

  function SatAdd(a: u64, b: u64): u64 {
    if a + b <= U64_MAX then a + b else U64_MAX
  }

  function SatSub(a: nat, b: nat): nat {
    if a < b then 0 else a - b
  }

  /** `Vec::clear`. */
  function Clear<T>(s: seq<T>): (r: seq<T>)
    ensures |r| == 0
  {
    s[..0]
  }

  /** `Vec::retain`: the elements satisfying `p`, in order. */
  function Filter<T>(s: seq<T>, p: T -> bool): (r: seq<T>)
    ensures |r| <= |s|
    ensures forall x :: x in r ==> x in s && p(x)
  {
    if s == [] then [] else
      var front := Filter(s[..|s| - 1], p);
      if p(s[|s| - 1]) then front + [s[|s| - 1]] else front
  }

  lemma FilterAppend<T>(s: seq<T>, x: T, p: T -> bool)
    ensures Filter(s + [x], p) == Filter(s, p) + (if p(x) then [x] else [])
  {
    assert (s + [x])[..|s|] == s;
  }

  /** A narrower filter absorbs a wider one applied before it. */
  lemma {:induction false} FilterAbsorbs<T>(s: seq<T>, wide: T -> bool, narrow: T -> bool)
    requires forall x :: x in s && narrow(x) ==> wide(x)
    ensures Filter(Filter(s, wide), narrow) == Filter(s, narrow)
  {
    if s == [] {
    } else {
      var x := s[|s| - 1];
      FilterAbsorbs(s[..|s| - 1], wide, narrow);
      if wide(x) {
        FilterAppend(Filter(s[..|s| - 1], wide), x, narrow);
      }
    }
  }

  /** Filtering by a condition nothing fails keeps everything. */
  lemma {:induction false} FilterAll<T>(s: seq<T>, p: T -> bool)
    requires forall x :: x in s ==> p(x)
    ensures Filter(s, p) == s
  {
    if |s| == 0 {
    } else {
      FilterAll(s[..|s| - 1], p);
      assert s == s[..|s| - 1] + [s[|s| - 1]];
    }
  }

  /** Filtering by a condition nothing meets keeps nothing. */
  lemma {:induction false} FilterNone<T>(s: seq<T>, p: T -> bool)
    requires forall x :: x in s ==> !p(x)
    ensures Filter(s, p) == []
  {
    if |s| == 0 {
    } else {
      FilterNone(s[..|s| - 1], p);
    }
  }

  /** A filter that accepts more keeps at least as many. */
  lemma {:induction false} FilterMonotone<T>(s: seq<T>, narrow: T -> bool, wide: T -> bool)
    requires forall x :: x in s && narrow(x) ==> wide(x)
    ensures |Filter(s, narrow)| <= |Filter(s, wide)|
  {
    if s == [] {
    } else {
      FilterMonotone(s[..|s| - 1], narrow, wide);
    }
  }

  /** `r` is what is left of `s` when exactly the elements that fail `keep` are struck out, read from the front. */
  predicate Sifts<T(==)>(s: seq<T>, keep: T -> bool, r: seq<T>) {
    if |s| == 0 then |r| == 0
    else if keep(s[0]) then |r| > 0 && r[0] == s[0] && Sifts(s[1..], keep, r[1..])
    else Sifts(s[1..], keep, r)
  }

  lemma {:induction false} SiftsAppend<T>(s: seq<T>, keep: T -> bool, r: seq<T>, x: T)
    requires Sifts(s, keep, r)
    ensures Sifts(s + [x], keep, r + if keep(x) then [x] else [])
  {
    var more := if keep(x) then [x] else [];
    if |s| == 0 {
      assert (s + [x])[1..] == s && r + more == more && (keep(x) ==> (r + more)[1..] == r);
    } else {
      assert (s + [x])[1..] == s[1..] + [x];
      if keep(s[0]) {
        SiftsAppend(s[1..], keep, r[1..], x);
        assert (r + more)[1..] == r[1..] + more;
      } else {
        SiftsAppend(s[1..], keep, r, x);
      }
    }
  }

  lemma {:induction false} FilterSifts<T>(s: seq<T>, p: T -> bool)
    ensures Sifts(s, p, Filter(s, p))
  {
    if |s| == 0 {
    } else {
      FilterSifts(s[..|s| - 1], p);
      SiftsAppend(s[..|s| - 1], p, Filter(s[..|s| - 1], p), s[|s| - 1]);
      assert s == s[..|s| - 1] + [s[|s| - 1]];
      assert Filter(s[..|s| - 1], p) + [] == Filter(s[..|s| - 1], p);
    }
  }

  /** The same by positions: `indices` lists, in order, exactly the positions that pass. */
  ghost predicate Sieve<T>(s: seq<T>, keep: T -> bool, r: seq<T>, indices: seq<nat>) {
    && |indices| == |r|
    && (forall m, n :: 0 <= m < n < |indices| ==> indices[m] < indices[n])
    && (forall n :: 0 <= n < |indices| ==> indices[n] < |s| && keep(s[indices[n]]) && r[n] == s[indices[n]])
    && (forall k :: 0 <= k < |s| && keep(s[k]) ==> k in indices)
  }

  lemma SieveAppend<T>(s: seq<T>, keep: T -> bool, r: seq<T>, indices: seq<nat>, x: T)
    requires Sieve(s, keep, r, indices)
    ensures if keep(x) then Sieve(s + [x], keep, r + [x], indices + [|s|]) else Sieve(s + [x], keep, r, indices)
  {
    var all := s + [x];
    assert forall k :: 0 <= k < |s| ==> all[k] == s[k];
    if keep(x) {
      assert (indices + [|s|])[|indices|] == |s|;
    }
  }

  lemma {:induction false} FilterByPosition<T>(s: seq<T>, p: T -> bool) returns (indices: seq<nat>)
    ensures Sieve(s, p, Filter(s, p), indices)
  {
    if |s| == 0 {
      indices := [];
    } else {
      var front, x := s[..|s| - 1], s[|s| - 1];
      indices := FilterByPosition(front, p);
      SieveAppend(front, p, Filter(front, p), indices, x);
      assert s == front + [x];
      indices := if p(x) then indices + [|front|] else indices;
    }
  }

  /** Two conditions in a row are both at once. */
  lemma {:induction false} FilterTwice<T>(s: seq<T>, p: T -> bool, q: T -> bool, both: T -> bool)
    requires forall x :: x in s ==> (both(x) <==> p(x) && q(x))
    ensures Filter(Filter(s, p), q) == Filter(s, both)
  {
    if |s| == 0 {
    } else {
      FilterTwice(s[..|s| - 1], p, q, both);
      if p(s[|s| - 1]) {
        FilterAppend(Filter(s[..|s| - 1], p), s[|s| - 1], q);
      }
    }
  }

  lemma {:induction false} SiftsAlike<T>(s: seq<T>, p: T -> bool, q: T -> bool, r: seq<T>)
    requires Sifts(s, p, r) && forall k :: 0 <= k < |s| ==> p(s[k]) == q(s[k])
    ensures Sifts(s, q, r)
  {
    if |s| == 0 {
    } else {
      SiftsAlike(s[1..], p, q, if p(s[0]) then r[1..] else r);
    }
  }
}
