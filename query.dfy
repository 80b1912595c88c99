/** The store's filter query: the records of a collection, in storage order,
    that satisfy a condition. */
module Query {

  /** The elements of `s` that satisfy `p`, in their order in `s`. */
  function Filter<T(!new)>(s: seq<T>, p: T -> bool): (r: seq<T>)
    ensures |r| <= |s|
    ensures forall x :: x in r <==> x in s && p(x)
    ensures forall x :: multiset(r)[x] == if p(x) then multiset(s)[x] else 0
  {
    if s == [] then []
    else
      assert s == [s[0]] + s[1..];
      if p(s[0]) then [s[0]] + Filter(s[1..], p) else Filter(s[1..], p)
  }

  /** Filtering a concatenation filters each part. */
  lemma {:induction false} FilterAppend<T(!new)>(s: seq<T>, t: seq<T>, p: T -> bool)
    ensures Filter(s + t, p) == Filter(s, p) + Filter(t, p)
  {
    if s == [] {
      assert s + t == t;
    } else {
      assert (s + t)[0] == s[0];
      assert (s + t)[1..] == s[1..] + t;
      FilterAppend(s[1..], t, p);
    }
  }

  /** A one-element sequence keeps its element or loses it. */
  lemma FilterSingleton<T(!new)>(x: T, p: T -> bool)
    ensures Filter([x], p) == if p(x) then [x] else []
  {
    assert [x][1..] == [];
  }

  /** A filter that every element passes keeps the whole sequence. */
  lemma {:induction false} FilterKeepsAll<T(!new)>(s: seq<T>, p: T -> bool)
    requires forall x :: x in s ==> p(x)
    ensures Filter(s, p) == s
  {
    if s != [] {
      assert forall x :: x in s[1..] ==> x in s;
      FilterKeepsAll(s[1..], p);
    }
  }

  /** `rel` holds of every pair of elements, the earlier one first. */
  predicate Pairwise<T>(s: seq<T>, rel: (T, T) -> bool)
  {
    forall i, j :: 0 <= i < j < |s| ==> rel(s[i], s[j])
  }

  /** A property of every pair holds of every pair of the tail. */
  lemma PairwiseTail<T>(s: seq<T>, rel: (T, T) -> bool)
    requires s != [] && Pairwise(s, rel)
    ensures Pairwise(s[1..], rel)
  {
    var t := s[1..];
    forall i, j | 0 <= i < j < |t| ensures rel(t[i], t[j]) {
      assert t[i] == s[i + 1] && t[j] == s[j + 1];
    }
  }

  /** The head of a sequence is related to everything its tail keeps. */
  lemma HeadBeforeFilteredTail<T(!new)>(s: seq<T>, p: T -> bool, rel: (T, T) -> bool)
    requires s != [] && Pairwise(s, rel)
    ensures forall j :: 0 <= j < |Filter(s[1..], p)| ==> rel(s[0], Filter(s[1..], p)[j])
  {
    var ft := Filter(s[1..], p);
    forall j | 0 <= j < |ft| ensures rel(s[0], ft[j]) {
      assert ft[j] in s[1..];
      var k :| 0 <= k < |s| - 1 && s[1..][k] == ft[j];
      assert s[k + 1] == ft[j];
    }
  }

  /** Putting in front an element related to everything behind it keeps a
      property of every pair. */
  lemma PairwiseCons<T>(x: T, t: seq<T>, rel: (T, T) -> bool)
    requires Pairwise(t, rel)
    requires forall j :: 0 <= j < |t| ==> rel(x, t[j])
    ensures Pairwise([x] + t, rel)
  {
    var r := [x] + t;
    forall i, j | 0 <= i < j < |r| ensures rel(r[i], r[j]) {
      assert r[j] == t[j - 1];
      if i > 0 {
        assert r[i] == t[i - 1];
      }
    }
  }

  /** Filtering keeps the order of what it keeps, so a property of every
      pair survives it. */
  lemma {:induction false} FilterKeepsPairwise<T(!new)>(s: seq<T>, p: T -> bool, rel: (T, T) -> bool)
    requires Pairwise(s, rel)
    ensures Pairwise(Filter(s, p), rel)
  {
    if s != [] {
      PairwiseTail(s, rel);
      FilterKeepsPairwise(s[1..], p, rel);
      if p(s[0]) {
        HeadBeforeFilteredTail(s, p, rel);
        PairwiseCons(s[0], Filter(s[1..], p), rel);
        assert Filter(s, p) == [s[0]] + Filter(s[1..], p);
      }
    }
  }
}
