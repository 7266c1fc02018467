/**
 * The array operations the application builds its lists with: reversal
 * (for `ORDER BY created_at DESC` over rows kept in insertion order) and
 * `filter`, with what it means for one list to be an order-preserving
 * sublist of another.
 */
module Seqs {
  import opened Wrappers

  /** `s` read from the back. */
  function Reverse<T>(s: seq<T>): (r: seq<T>)
    ensures |r| == |s|
    ensures forall i :: 0 <= i < |s| ==> r[i] == s[|s| - 1 - i]
    ensures forall k :: 0 <= k < |s| ==> s[k] in r
  {
    var r := seq(|s|, i requires 0 <= i < |s| => s[|s| - 1 - i]);
    assert forall k :: 0 <= k < |s| ==> s[k] == r[|s| - 1 - k];
    r
  }

  /** `s.filter(keep)`: the elements `keep` accepts, in their order. */
  function Filter<T>(keep: T -> bool, s: seq<T>): (r: seq<T>)
    ensures |r| <= |s|
    ensures forall k :: 0 <= k < |r| ==> r[k] in s && keep(r[k])
    ensures forall k :: 0 <= k < |s| && keep(s[k]) ==> s[k] in r
  {
    if s == [] then []
    else
      assert s == [s[0]] + s[1..];
      (if keep(s[0]) then [s[0]] else []) + Filter(keep, s[1..])
  }

  /**
   * The first element of `s` that `p` accepts: the first row a
   * `SELECT … WHERE` returns over rows kept in table order.
   */
  function FindFirst<T>(s: seq<T>, p: T -> bool): (r: Option<T>)
    ensures r.Some? ==> r.value in s && p(r.value)
    ensures r.None? <==> forall k :: 0 <= k < |s| ==> !p(s[k])
    ensures r.Some? ==> exists k :: 0 <= k < |s| && s[k] == r.value && forall j :: 0 <= j < k ==> !p(s[j])
  {
    if s == [] then None
    else if p(s[0]) then
      Some(s[0])
    else
      var r := FindFirst(s[1..], p);
      assert forall k :: 1 <= k < |s| ==> s[k] == s[1..][k - 1];
      assert r.Some? ==> exists k :: 0 <= k < |s| && s[k] == r.value && forall j :: 0 <= j < k ==> !p(s[j]) by {
        if r.Some? {
          var k :| 0 <= k < |s[1..]| && s[1..][k] == r.value && forall j :: 0 <= j < k ==> !p(s[1..][j]);
          assert s[k + 1] == r.value;
          assert forall j :: 0 <= j < k + 1 ==> !p(s[j]);
        }
      }
      r
  }

  /** `idx` lists, in increasing order, the positions of `b` whose elements make up `a`. */
  ghost predicate PicksFrom<T>(a: seq<T>, b: seq<T>, idx: seq<nat>) {
    && |idx| == |a|
    && (forall k :: 0 <= k < |idx| ==> idx[k] < |b| && a[k] == b[idx[k]])
    && (forall i, j :: 0 <= i < j < |idx| ==> idx[i] < idx[j])
  }

  /** `a` is `b` with some elements left out and the rest in their order. */
  ghost predicate Sublist<T>(a: seq<T>, b: seq<T>) {
    exists idx :: PicksFrom(a, b, idx)
  }

  /** Every position moved one place to the right. */
  function Shifted(idx: seq<nat>): (r: seq<nat>)
    ensures |r| == |idx|
    ensures forall k :: 0 <= k < |idx| ==> r[k] == idx[k] + 1
  {
    seq(|idx|, k requires 0 <= k < |idx| => idx[k] + 1)
  }

  /** Positions picked from the tail of `b` are positions of `b` one place further on, and `b[0]` can be picked in front of them. */
  lemma PicksFromTail<T>(a: seq<T>, b: seq<T>, idx: seq<nat>)
    requires b != [] && PicksFrom(a, b[1..], idx)
    ensures PicksFrom(a, b, Shifted(idx))
    ensures PicksFrom([b[0]] + a, b, [0] + Shifted(idx))
  {
    var sh := Shifted(idx);
    forall k | 0 <= k < |idx| ensures sh[k] < |b| && a[k] == b[sh[k]] {
      assert b[1..][idx[k]] == b[idx[k] + 1];
    }
    var c, j := [b[0]] + a, [0] + sh;
    forall k | 0 <= k < |j| ensures j[k] < |b| && c[k] == b[j[k]] {
      if k > 0 {
        assert j[k] == sh[k - 1] && c[k] == a[k - 1];
      }
    }
    forall i, k | 0 <= i < k < |j| ensures j[i] < j[k] {
      if i > 0 {
        assert j[i] == sh[i - 1] && j[k] == sh[k - 1];
      }
    }
  }

  /** A filter keeps its survivors in their original order. */
  lemma {:induction false} FilterSublist<T>(keep: T -> bool, s: seq<T>)
    ensures Sublist(Filter(keep, s), s)
  {
    if s == [] {
      assert PicksFrom(Filter(keep, s), s, []);
    } else {
      var rest := Filter(keep, s[1..]);
      FilterSublist(keep, s[1..]);
      var idx :| PicksFrom(rest, s[1..], idx);
      PicksFromTail(rest, s, idx);
      if keep(s[0]) {
        assert Filter(keep, s) == [s[0]] + rest;
        assert PicksFrom(Filter(keep, s), s, [0] + Shifted(idx));
      } else {
        assert Filter(keep, s) == rest;
        assert PicksFrom(Filter(keep, s), s, Shifted(idx));
      }
    }
  }

  /** A filter that accepts every element gives the list back. */
  lemma {:induction false} FilterKeepsAll<T>(keep: T -> bool, s: seq<T>)
    requires forall k :: 0 <= k < |s| ==> keep(s[k])
    ensures Filter(keep, s) == s
  {
    if s != [] {
      FilterKeepsAll(keep, s[1..]);
      assert s == [s[0]] + s[1..];
    }
  }

  /** Filtering distributes over concatenation. */
  lemma {:induction false} FilterConcat<T>(keep: T -> bool, a: seq<T>, b: seq<T>)
    ensures Filter(keep, a + b) == Filter(keep, a) + Filter(keep, b)
  {
    if a == [] {
      assert a + b == b;
    } else {
      assert (a + b)[0] == a[0] && (a + b)[1..] == a[1..] + b;
      FilterConcat(keep, a[1..], b);
    }
  }

  /** A filter keeps every copy of an accepted element and none of a rejected one. */
  lemma {:induction false} FilterCounts<T>(keep: T -> bool, s: seq<T>, x: T)
    ensures multiset(Filter(keep, s))[x] == if keep(x) then multiset(s)[x] else 0
  {
    if s != [] {
      FilterCounts(keep, s[1..], x);
      assert s == [s[0]] + s[1..];
    }
  }
}
