/** Small value types and sequence functions shared by the feature extractor
    and the Luau writer: the numpy and Python built-ins the core relies on. */
module Common {

  datatype Option<T> = None | Some(value: T)

  function Max(a: int, b: int): int { if a < b then b else a }

  function Min(a: int, b: int): int { if a < b then a else b }

  function Abs(x: real): real { if x < 0.0 then -x else x }

  /** Python's `int(x)` on a float: truncation toward zero. */
  function Trunc(x: real): int
  {
    if x >= 0.0 then x.Floor else -((-x).Floor)
  }

  /** `Trunc` moves its argument toward zero by less than one. Kept apart
      from `Trunc` so that only the proofs that need it see it. */
  lemma TruncBounds(x: real)
    ensures 0.0 <= x ==> 0 <= Trunc(x) && Trunc(x) as real <= x < Trunc(x) as real + 1.0
    ensures x < 0.0 ==> Trunc(x) <= 0 && Trunc(x) as real - 1.0 < x <= Trunc(x) as real
  {
  }

  predicate StrictlyIncreasing(s: seq<real>)
  {
    forall i, j :: 0 <= i < j < |s| ==> s[i] < s[j]
  }

  /** A boolean-mask selection `s[mask]` of numpy: the elements satisfying `p`, in order. */
  function Filter<T(==,!new)>(s: seq<T>, p: T -> bool): (r: seq<T>)
    ensures |r| <= |s|
    ensures forall x :: x in r <==> x in s && p(x)
  {
    if s == [] then []
    else Filter(s[..|s| - 1], p) + (if p(s[|s| - 1]) then [s[|s| - 1]] else [])
  }

  /** `r` is the subsequence of `s` at the strictly increasing indices `idx`. */
  predicate SubsequenceAt<T(==)>(r: seq<T>, s: seq<T>, idx: seq<nat>)
  {
    && |idx| == |r|
    && (forall j :: 0 <= j < |idx| ==> idx[j] < |s| && r[j] == s[idx[j]])
    && (forall j, k :: 0 <= j < k < |idx| ==> idx[j] < idx[k])
  }

  /** The positions of the elements of `s` that pass `p`, in increasing order. */
  function FilterIndices<T>(s: seq<T>, p: T -> bool): seq<nat>
  {
    if s == [] then []
    else FilterIndices(s[..|s| - 1], p) + (if p(s[|s| - 1]) then [|s| - 1] else [])
  }

  lemma {:induction false} FilterIndicesBelow<T>(s: seq<T>, p: T -> bool)
    ensures forall j :: 0 <= j < |FilterIndices(s, p)| ==> FilterIndices(s, p)[j] < |s|
  {
    if s != [] {
      FilterIndicesBelow(s[..|s| - 1], p);
    }
  }

  /** The passing positions are exactly those whose element passes the test. */
  lemma {:induction false} FilterIndicesExact<T>(s: seq<T>, p: T -> bool)
    ensures forall i: nat :: i in FilterIndices(s, p) <==> i < |s| && p(s[i])
  {
    if s != [] {
      var init := s[..|s| - 1];
      FilterIndicesExact(init, p);
      FilterIndicesBelow(init, p);
      assert forall i :: 0 <= i < |init| ==> init[i] == s[i];
    }
  }

  /** `Filter` keeps order and multiplicity: its result is `s` at the passing
      positions, taken in increasing order. */
  lemma {:induction false} FilterSubsequence<T(!new)>(s: seq<T>, p: T -> bool)
    ensures SubsequenceAt(Filter(s, p), s, FilterIndices(s, p))
  {
    if s != [] {
      var init, last := s[..|s| - 1], s[|s| - 1];
      FilterSubsequence(init, p);
      FilterIndicesBelow(init, p);
      var r0, idx0 := Filter(init, p), FilterIndices(init, p);
      var r, idx := Filter(s, p), FilterIndices(s, p);
      var extra, extraIdx := (if p(last) then [last] else []), (if p(last) then [|s| - 1] else []);
      assert r == r0 + extra && idx == idx0 + extraIdx;
      forall j | 0 <= j < |idx| ensures idx[j] < |s| && r[j] == s[idx[j]] {
        if j < |idx0| {
          assert r[j] == r0[j] == init[idx0[j]] == s[idx0[j]];
        }
      }
    }
  }

  lemma FilterAppend<T(!new)>(s: seq<T>, x: T, p: T -> bool)
    ensures Filter(s + [x], p) == Filter(s, p) + (if p(x) then [x] else [])
  {
    assert (s + [x])[..|s|] == s;
  }

  /** Filtering never reorders: an increasing sequence stays increasing. */
  lemma {:induction false} FilterIncreasing(s: seq<real>, p: real -> bool)
    requires StrictlyIncreasing(s)
    ensures StrictlyIncreasing(Filter(s, p))
  {
    if s != [] {
      var init, last := s[..|s| - 1], s[|s| - 1];
      assert StrictlyIncreasing(init);
      FilterIncreasing(init, p);
      var f := Filter(init, p);
      var r := Filter(s, p);
      assert r == f + (if p(last) then [last] else []);
      forall i, j | 0 <= i < j < |r| ensures r[i] < r[j] {
        if j >= |f| {
          assert r[i] == f[i] && f[i] in init;
          var k :| 0 <= k < |init| && init[k] == f[i];
          assert init[k] == s[k];
        }
      }
    }
  }

  /** When every element passes the test, filtering is the identity. */
  lemma {:induction false} FilterKeepsAll<T(!new)>(s: seq<T>, p: T -> bool)
    requires forall i :: 0 <= i < |s| ==> p(s[i])
    ensures Filter(s, p) == s
  {
    if s != [] {
      FilterKeepsAll(s[..|s| - 1], p);
      assert s[..|s| - 1] + [s[|s| - 1]] == s;
    }
  }

  function Sum(s: seq<real>): real
  {
    if s == [] then 0.0 else Sum(s[..|s| - 1]) + s[|s| - 1]
  }

  /** `np.mean`: the sum divided by the length. */
  function Mean(s: seq<real>): real
    requires |s| > 0
  {
    Sum(s) / |s| as real
  }

  /** `np.argmax`: the FIRST index at which the maximum is reached. */
  function ArgMax(s: seq<real>): (k: nat)
    requires |s| > 0
    ensures k < |s|
    ensures forall j :: 0 <= j < |s| ==> s[j] <= s[k]
    ensures forall j :: 0 <= j < k ==> s[j] < s[k]
  {
    if |s| == 1 then 0
    else
      var k := ArgMax(s[..|s| - 1]);
      if s[k] < s[|s| - 1] then |s| - 1 else k
  }
}
