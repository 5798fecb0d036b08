/*
 * What both variants of the game share: a `Math.random()` draw, and
 * `array.splice(i, 1)` on a pool held as a sequence.
 */
module Splicing {
  /** One value of `Math.random()`: a real in [0, 1). */
  type Draw = u: real | 0.0 <= u < 1.0 witness 0.0

  function Min(a: nat, b: nat): nat
  {
    if a < b then a else b
  }

  /** `pool.splice(i, 1)`: removes the element at `i`, if there is one. */
  function Splice<T>(s: seq<T>, i: nat): (t: seq<T>)
    ensures |t| == if i < |s| then |s| - 1 else |s|
    ensures forall x :: x in t ==> x in s
  {
    if i < |s| then s[..i] + s[i + 1..] else s
  }

  /** The pool after `r` successive `splice(i, 1)` calls. */
  function Cut<T>(s: seq<T>, i: nat, r: nat): (t: seq<T>)
    requires i <= |s|
    ensures |t| <= |s|
  {
    s[..i] + s[Min(i + r, |s|)..]
  }

  lemma SpliceAfterWrite<T>(s: seq<T>, i: nat, x: T)
    requires i < |s|
    ensures Splice(s[i := x], i) == Cut(s, i, 1)
  {
    assert s[i := x][i + 1..] == s[i + 1..];
  }

  lemma SpliceCut<T>(s: seq<T>, i: nat, r: nat)
    requires i <= |s|
    ensures Splice(Cut(s, i, r), i) == Cut(s, i, r + 1)
  {
    var c := Cut(s, i, r);
    if i + r < |s| {
      assert c[..i] == s[..i];
      assert c[i + 1..] == s[i + r + 1..];
    } else {
      assert |c| == i;
    }
  }

  /** No element occurs twice: a pool of objects holds each at most once. */
  predicate Distinct<T(==)>(s: seq<T>)
  {
    forall p, q :: 0 <= p < q < |s| ==> s[p] != s[q]
  }

  /** In a pool without repeats, no other index holds the element at `i`. */
  /** `pool` is `s` with one element appended when `added`, and `s` itself
      otherwise. */
  predicate Grown<T(==)>(pool: seq<T>, s: seq<T>, added: bool)
  {
    |pool| == |s| + (if added then 1 else 0) && pool[..|s|] == s
  }

  lemma DistinctAt<T>(s: seq<T>, i: nat)
    requires Distinct(s) && i < |s|
    ensures forall k :: 0 <= k < |s| && k != i ==> s[k] != s[i]
  {
    forall k | 0 <= k < |s| && k != i
      ensures s[k] != s[i]
    {
      if k < i {
        assert s[k] != s[i];
      } else {
        assert s[i] != s[k];
      }
    }
  }

  /** Removing an element keeps the others distinct. */
  lemma SpliceDistinct<T>(s: seq<T>, i: nat)
    requires Distinct(s)
    ensures Distinct(Splice(s, i))
  {
    if i < |s| {
      var t := Splice(s, i);
      forall p, q | 0 <= p < q < |t|
        ensures t[p] != t[q]
      {
        var p' := if p < i then p else p + 1;
        var q' := if q < i then q else q + 1;
        assert t[p] == s[p'] && t[q] == s[q'];
      }
    }
  }

  /** Splicing out the last element of a prefix. */
  lemma SpliceJoin<T>(s: seq<T>, t: seq<T>, i: nat)
    requires i < |s|
    ensures Splice(s[..i + 1] + t, i) == s[..i] + t
  {
    assert (s[..i + 1] + t)[i + 1..] == t;
    assert (s[..i + 1] + t)[..i] == s[..i];
  }

  /** Appending after a prefix, one element at a time. */
  lemma PrefixJoin<T>(s: seq<T>, t: seq<T>, i: nat)
    requires i < |s|
    ensures s[..i + 1] + t == s[..i] + ([s[i]] + t)
  {
    assert s[..i + 1] == s[..i] + [s[i]];
  }
}
