/** `Array.prototype.filter` and `Array.prototype.find` on sequences, with the
    facts about them that the rest of the model uses. */
module Seqs {
  import opened Wrappers

  predicate NoDuplicates<T(==)>(xs: seq<T>) {
    forall i, j :: 0 <= i < j < |xs| ==> xs[i] != xs[j]
  }

  /** `xs.filter(p)` */
  function Filter<T(==)>(xs: seq<T>, p: T -> bool): (r: seq<T>)
    ensures |r| <= |xs|
    ensures forall k :: 0 <= k < |r| ==> r[k] in xs && p(r[k])
    ensures forall k :: 0 <= k < |xs| && p(xs[k]) ==> xs[k] in r
  {
    if xs == [] then [] else (if p(xs[0]) then [xs[0]] else []) + Filter(xs[1..], p)
  }

  /** Filtering distributes over concatenation: together with the one-element
      case this fixes the order of the result to that of the input. */
  lemma {:induction false} FilterAppend<T>(a: seq<T>, b: seq<T>, p: T -> bool)
    ensures Filter(a + b, p) == Filter(a, p) + Filter(b, p)
  {
    if a == [] {
      assert a + b == b;
    } else {
      assert (a + b)[0] == a[0];
      assert (a + b)[1..] == a[1..] + b;
      FilterAppend(a[1..], b, p);
    }
  }

  lemma {:induction false} FilterKeepsAll<T>(xs: seq<T>, p: T -> bool)
    requires forall k :: 0 <= k < |xs| ==> p(xs[k])
    ensures Filter(xs, p) == xs
  {
    if xs != [] {
      FilterKeepsAll(xs[1..], p);
    }
  }

  lemma {:induction false} FilterDropsAll<T>(xs: seq<T>, p: T -> bool)
    requires forall k :: 0 <= k < |xs| ==> !p(xs[k])
    ensures Filter(xs, p) == []
  {
    if xs != [] {
      FilterDropsAll(xs[1..], p);
    }
  }

  lemma {:induction false} FilterNoDuplicates<T>(xs: seq<T>, p: T -> bool)
    requires NoDuplicates(xs)
    ensures NoDuplicates(Filter(xs, p))
  {
    if xs != [] {
      var tail := Filter(xs[1..], p);
      FilterNoDuplicates(xs[1..], p);
      assert xs[0] !in xs[1..];
      assert xs[0] !in tail;
    }
  }

  /** `xs.find(p)`: the first element that satisfies `p`. */
  function FindFirst<T(==)>(xs: seq<T>, p: T -> bool): (r: Option<T>)
    ensures r.Some? ==> r.value in xs && p(r.value)
    ensures r.None? ==> forall k :: 0 <= k < |xs| ==> !p(xs[k])
  {
    if xs == [] then None else if p(xs[0]) then Some(xs[0]) else FindFirst(xs[1..], p)
  }

  /** The element `find` returns is the one at the first index that
      satisfies `p`. */
  lemma {:induction false} FindFirstIsFirst<T>(xs: seq<T>, p: T -> bool, i: nat)
    requires i < |xs| && p(xs[i])
    requires forall k :: 0 <= k < i ==> !p(xs[k])
    ensures FindFirst(xs, p) == Some(xs[i])
  {
    if i > 0 {
      FindFirstIsFirst(xs[1..], p, i - 1);
    }
  }

  /** Some element satisfies `p` exactly when the first one does or some
      element of the rest does. */
  lemma ExistsInTail<T>(xs: seq<T>, p: T -> bool)
    requires xs != []
    ensures (exists k :: 0 <= k < |xs| && p(xs[k])) <==> p(xs[0]) || exists k :: 0 <= k < |xs[1..]| && p(xs[1..][k])
  {
    if k :| 0 <= k < |xs[1..]| && p(xs[1..][k]) {
      assert xs[k + 1] == xs[1..][k];
    }
    if k :| 0 < k < |xs| && p(xs[k]) {
      assert xs[1..][k - 1] == xs[k];
    }
  }
}
