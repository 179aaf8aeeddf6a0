/** Generic facts about sequences used to state the behaviour of the applicant view:
    duplicate-freedom, subsequences, first occurrences and JavaScript's `[...new Set(xs)]`. */
module Sequences {

  /** No element occurs twice in `s`. */
  predicate NoDup<T(==)>(s: seq<T>) {
    forall i, j :: 0 <= i < j < |s| ==> s[i] != s[j]
  }

  /** `xs` is obtained from `ys` by deleting elements, without reordering the rest. */
  predicate IsSubsequence<T(==)>(xs: seq<T>, ys: seq<T>)
    decreases |ys|
  {
    if xs == [] then true
    else if ys == [] then false
    else (xs[0] == ys[0] && IsSubsequence(xs[1..], ys[1..])) || IsSubsequence(xs, ys[1..])
  }

  /** The position of the first occurrence of `x` in `s`. */
  function FirstIndex<T(==)>(s: seq<T>, x: T): (k: nat)
    requires x in s
    ensures k < |s| && s[k] == x
    ensures x !in s[..k]
  {
    if s[0] == x then 0
    else
      var k := 1 + FirstIndex(s[1..], x);
      assert s[..k] == [s[0]] + s[1..][..k - 1];
      k
  }

  /** Any position holding `x` with no earlier `x` is the first index of `x`. */
  lemma FirstIndexUnique<T>(s: seq<T>, x: T, k: nat)
    requires k < |s| && s[k] == x && x !in s[..k]
    ensures FirstIndex(s, x) == k
  {
  }

  /** Appending an element does not move the first occurrence of an element already present. */
  lemma FirstIndexSnoc<T>(s: seq<T>, y: T, x: T)
    requires x in s
    ensures FirstIndex(s + [y], x) == FirstIndex(s, x)
  {
    var k := FirstIndex(s, x);
    assert (s + [y])[..k] == s[..k];
    FirstIndexUnique(s + [y], x, k);
  }

  /** First-occurrence deduplication: the elements of `[...new Set(s)]`, where a JavaScript
      `Set` remembers the order in which values were first added. */
  function Distinct<T(==,!new)>(s: seq<T>): (r: seq<T>)
    ensures NoDup(r)
    ensures forall x :: x in r <==> x in s
    ensures |r| <= |s|
  {
    if s == [] then []
    else
      var d := Distinct(s[..|s| - 1]);
      var y := s[|s| - 1];
      assert s == s[..|s| - 1] + [y];
      if y in d then d else d + [y]
  }

  /** The distinct elements come out in the order of their first occurrence in `s`. */
  lemma {:induction false} DistinctInDiscoveryOrder<T(!new)>(s: seq<T>, i: nat, j: nat)
    requires i < j < |Distinct(s)|
    ensures FirstIndex(s, Distinct(s)[i]) < FirstIndex(s, Distinct(s)[j])
  {
    var s', y := s[..|s| - 1], s[|s| - 1];
    assert s == s' + [y];
    var d, d' := Distinct(s), Distinct(s');
    if y in d' {
      DistinctInDiscoveryOrder(s', i, j);
      FirstIndexSnoc(s', y, d[i]);
      FirstIndexSnoc(s', y, d[j]);
    } else if j < |d'| {
      DistinctInDiscoveryOrder(s', i, j);
      FirstIndexSnoc(s', y, d[i]);
      FirstIndexSnoc(s', y, d[j]);
    } else {
      assert d[j] == y && d[i] == d'[i] && d[i] in s';
      FirstIndexSnoc(s', y, d[i]);
      assert s[..|s'|] == s';
      FirstIndexUnique(s, y, |s'|);
    }
  }
}
