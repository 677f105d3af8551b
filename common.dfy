/** Small helpers shared by the model: an optional value, and the first
    position of a sequence at which a predicate holds. */
module Common {

  /** Rust's `Option<T>`. */
  datatype Option<T> = None | Some(value: T) {

    /** `unwrap_or(default)` */
    function GetOr(default: T): T {
      if Some? then value else default
    }
  }

  /** The first index of `s` whose element satisfies `p`, or `|s|` when no
      element does. */
  function FirstIndex<T>(s: seq<T>, p: T -> bool): (k: nat)
    ensures k <= |s|
    ensures forall j :: 0 <= j < k ==> !p(s[j])
    ensures k < |s| ==> p(s[k])
  {
    if s == [] then 0
    else if p(s[0]) then 0
    else 1 + FirstIndex(s[1..], p)
  }

  /** `FirstIndex` is pinned down by its contract: a position with no earlier
      match that matches (or is the end) is the first index. */
  lemma FirstIndexIs<T>(s: seq<T>, p: T -> bool, m: nat)
    requires m <= |s|
    requires forall j :: 0 <= j < m ==> !p(s[j])
    requires m < |s| ==> p(s[m])
    ensures FirstIndex(s, p) == m
  {
  }

  /** Where the elements of `s` sit once `x` is inserted at position `i`. */
  ghost predicate InsertedAt<T>(s: seq<T>, i: nat, x: T, t: seq<T>) {
    && i <= |s| && |t| == |s| + 1 && t[i] == x
    && (forall j :: 0 <= j < i ==> t[j] == s[j])
    && (forall j :: i < j < |t| ==> t[j] == s[j - 1])
  }

  /** The first match of a sequence with a non-matching element inserted. */
  lemma FirstIndexShift<T>(s: seq<T>, i: nat, x: T, t: seq<T>, p: T -> bool)
    requires InsertedAt(s, i, x, t) && !p(x)
    ensures var k := FirstIndex(s, p);
      FirstIndex(t, p) == if k < i then k else k + 1
  {
    var k := FirstIndex(s, p);
    var m := if k < i then k else k + 1;
    forall j | 0 <= j < m ensures !p(t[j]) {
      if j < i { assert t[j] == s[j]; }
      else if j > i { assert t[j] == s[j - 1]; }
    }
    if m < |t| {
      assert t[m] == s[k];
    }
    FirstIndexIs(t, p, m);
  }

  /** Inserting an element that does not match moves the first match past the
      insertion point and changes nothing else. */
  lemma FirstIndexInsert<T>(s: seq<T>, i: nat, x: T, p: T -> bool)
    requires i <= |s| && !p(x)
    ensures var k := FirstIndex(s, p);
      FirstIndex(s[..i] + [x] + s[i..], p) == if k < i then k else k + 1
  {
    InsertAt(s, i, x);
    FirstIndexShift(s, i, x, s[..i] + [x] + s[i..], p);
  }

  lemma InsertAt<T>(s: seq<T>, i: nat, x: T)
    requires i <= |s|
    ensures InsertedAt(s, i, x, s[..i] + [x] + s[i..])
  {
  }

  /** The elements of `s` that satisfy `p`, in the order of `s`. */
  function Filter<T(!new)>(s: seq<T>, p: T -> bool): (r: seq<T>)
    ensures forall x :: x in r <==> x in s && p(x)
    ensures |r| <= |s|
  {
    if s == [] then []
    else (if p(s[0]) then [s[0]] else []) + Filter(s[1..], p)
  }

  /** Filtering a sequence extended at the back extends the filtered sequence
      by that element when it satisfies `p`. */
  lemma {:induction false} FilterSnoc<T(!new)>(s: seq<T>, x: T, p: T -> bool)
    ensures Filter(s + [x], p) == Filter(s, p) + (if p(x) then [x] else [])
  {
    if s != [] {
      assert (s + [x])[1..] == s[1..] + [x];
      FilterSnoc(s[1..], x, p);
    }
  }

  /** The integers `lo, lo + 1, .., hi - 1`, in increasing order. */
  function Range(lo: int, hi: int): (r: seq<int>)
    requires lo <= hi
    ensures |r| == hi - lo
    ensures forall k :: 0 <= k < |r| ==> r[k] == lo + k
  {
    seq(hi - lo, k requires 0 <= k < hi - lo => lo + k)
  }

  /** `s` is strictly increasing in `rank`. */
  predicate Ranked<T>(s: seq<T>, rank: T -> int) {
    forall i, j :: 0 <= i < j < |s| ==> rank(s[i]) < rank(s[j])
  }

  /** Filtering keeps a lower bound on `rank`. */
  lemma {:induction false} FilterKeepsBound<T(!new)>(s: seq<T>, p: T -> bool, rank: T -> int, lo: int)
    requires forall i :: 0 <= i < |s| ==> lo < rank(s[i])
    ensures forall i :: 0 <= i < |Filter(s, p)| ==> lo < rank(Filter(s, p)[i])
  {
    if s != [] {
      var tail := s[1..];
      forall i | 0 <= i < |tail| ensures lo < rank(tail[i]) {
        assert tail[i] == s[i + 1];
      }
      FilterKeepsBound(tail, p, rank, lo);
      var rest := Filter(tail, p);
      if p(s[0]) {
        var r := [s[0]] + rest;
        assert Filter(s, p) == r;
        forall i | 0 <= i < |r| ensures lo < rank(r[i]) {
          if i > 0 { assert r[i] == rest[i - 1]; }
        }
      } else {
        assert Filter(s, p) == rest;
      }
    }
  }

  /** Filtering keeps a sequence strictly increasing in `rank`. */
  lemma {:induction false} FilterKeepsOrder<T(!new)>(s: seq<T>, p: T -> bool, rank: T -> int)
    requires Ranked(s, rank)
    ensures Ranked(Filter(s, p), rank)
  {
    if s != [] {
      var tail := s[1..];
      forall i, j | 0 <= i < j < |tail| ensures rank(tail[i]) < rank(tail[j]) {
        assert tail[i] == s[i + 1] && tail[j] == s[j + 1];
      }
      FilterKeepsOrder(tail, p, rank);
      forall i | 0 <= i < |tail| ensures rank(s[0]) < rank(tail[i]) {
        assert tail[i] == s[i + 1];
      }
      FilterKeepsBound(tail, p, rank, rank(s[0]));
      var rest := Filter(tail, p);
      if p(s[0]) {
        var r := [s[0]] + rest;
        assert Filter(s, p) == r;
        forall i, j | 0 <= i < j < |r| ensures rank(r[i]) < rank(r[j]) {
          if i == 0 {
            assert r[i] == s[0] && r[j] == rest[j - 1];
          } else {
            assert r[i] == rest[i - 1] && r[j] == rest[j - 1];
          }
        }
      } else {
        assert Filter(s, p) == rest;
      }
    }
  }
}
