/** First-occurrence deduplication, the rule both candidate collectors apply:
    walk the list once, keep an element when its key has not been seen yet. */
module Dedup {
  /** The keys of the elements of `xs`. */
  function KeySet<T(==), K(==)>(xs: seq<T>, key: T -> K): (r: set<K>)
    ensures forall i :: 0 <= i < |xs| ==> key(xs[i]) in r
    ensures forall k :: k in r ==> exists i :: 0 <= i < |xs| && key(xs[i]) == k
  {
    if xs == [] then {} else KeySet(xs[..|xs| - 1], key) + {key(xs[|xs| - 1])}
  }

  /** The elements whose key occurs at no earlier position, in their order:
      the last element is kept exactly when its key is new. */
  function Unique<T(==), K(==)>(xs: seq<T>, key: T -> K): (r: seq<T>)
    ensures |r| <= |xs|
    ensures forall i :: 0 <= i < |r| ==> r[i] in xs
    ensures KeySet(r, key) == KeySet(xs, key)
  {
    if xs == [] then []
    else
      var init := xs[..|xs| - 1];
      var last := xs[|xs| - 1];
      var u := Unique(init, key);
      assert forall i :: 0 <= i < |u| ==> u[i] in xs by {
        forall i | 0 <= i < |u| ensures u[i] in xs {
          var j :| 0 <= j < |init| && init[j] == u[i];
          assert xs[j] == init[j];
        }
      }
      if key(last) in KeySet(init, key) then u
      else
        assert (u + [last])[..|u|] == u;
        u + [last]
  }

  /** The position of the first element with key `k`. */
  function FirstIndex<T(==), K(==)>(xs: seq<T>, key: T -> K, k: K): (r: nat)
    requires k in KeySet(xs, key)
    ensures r < |xs| && key(xs[r]) == k
    ensures forall l :: 0 <= l < r ==> key(xs[l]) != k
  {
    var init := xs[..|xs| - 1];
    if k in KeySet(init, key) then
      var r := FirstIndex(init, key, k);
      assert xs[r] == init[r];
      assert forall l :: 0 <= l < r ==> xs[l] == init[l];
      r
    else
      assert forall l :: 0 <= l < |xs| - 1 ==> xs[l] == init[l];
      |xs| - 1
  }

  /** No two elements of `xs` share a key. */
  ghost predicate DistinctKeys<T, K>(xs: seq<T>, key: T -> K) {
    forall i, j :: 0 <= i < j < |xs| ==> key(xs[i]) != key(xs[j])
  }

  /** No two kept elements share a key. */
  lemma {:induction false} UniqueDistinct<T, K>(xs: seq<T>, key: T -> K)
    ensures DistinctKeys(Unique(xs, key), key)
  {
    if xs != [] {
      var init := xs[..|xs| - 1];
      UniqueDistinct(init, key);
      var u := Unique(init, key);
      if key(xs[|xs| - 1]) !in KeySet(init, key) {
        DistinctSnoc(u, xs[|xs| - 1], key);
      }
    }
  }

  /** Appending an element with a new key keeps the keys distinct. */
  lemma DistinctSnoc<T, K>(u: seq<T>, x: T, key: T -> K)
    requires DistinctKeys(u, key) && key(x) !in KeySet(u, key)
    ensures DistinctKeys(u + [x], key)
  {
    var v := u + [x];
    forall i, j | 0 <= i < j < |v| ensures key(v[i]) != key(v[j]) {
      if j == |u| {
        assert v[i] == u[i];
      }
    }
  }

  /** Each kept element is the first element of `xs` with its key. */
  lemma {:induction false} UniqueFirst<T, K>(xs: seq<T>, key: T -> K)
    ensures var u := Unique(xs, key);
      forall i :: 0 <= i < |u| ==>
        key(u[i]) in KeySet(xs, key) && u[i] == xs[FirstIndex(xs, key, key(u[i]))]
  {
    if xs != [] {
      var init := xs[..|xs| - 1];
      var last := xs[|xs| - 1];
      UniqueFirst(init, key);
      var w := Unique(init, key);
      var u := Unique(xs, key);
      forall i | 0 <= i < |u|
        ensures key(u[i]) in KeySet(xs, key) && u[i] == xs[FirstIndex(xs, key, key(u[i]))]
      {
        if i < |w| {
          assert u[i] == w[i];
          KeptEarlier(xs, key, i);
        } else {
          assert u[i] == last && key(last) !in KeySet(init, key);
        }
      }
    }
  }

  /** The kept elements come in the order of their keys' first positions. */
  lemma {:induction false} UniqueOrder<T, K>(xs: seq<T>, key: T -> K)
    ensures var u := Unique(xs, key);
      forall i, j :: 0 <= i < j < |u| ==>
        key(u[i]) in KeySet(xs, key) && key(u[j]) in KeySet(xs, key)
        && FirstIndex(xs, key, key(u[i])) < FirstIndex(xs, key, key(u[j]))
  {
    if xs != [] {
      var init := xs[..|xs| - 1];
      var last := xs[|xs| - 1];
      UniqueOrder(init, key);
      var w := Unique(init, key);
      var u := Unique(xs, key);
      forall i, j | 0 <= i < j < |u|
        ensures key(u[i]) in KeySet(xs, key) && key(u[j]) in KeySet(xs, key)
        ensures FirstIndex(xs, key, key(u[i])) < FirstIndex(xs, key, key(u[j]))
      {
        assert u[i] == w[i];
        KeptEarlier(xs, key, i);
        if j < |w| {
          assert u[j] == w[j];
          KeptEarlier(xs, key, j);
        } else {
          assert u[j] == last && key(last) !in KeySet(init, key);
        }
      }
    }
  }

  /** A key kept from the prefix has its first position in the prefix. */
  lemma KeptEarlier<T, K>(xs: seq<T>, key: T -> K, i: nat)
    requires xs != [] && i < |Unique(xs[..|xs| - 1], key)|
    ensures var w := Unique(xs[..|xs| - 1], key);
      key(w[i]) in KeySet(xs[..|xs| - 1], key) && key(w[i]) in KeySet(xs, key)
      && FirstIndex(xs, key, key(w[i])) == FirstIndex(xs[..|xs| - 1], key, key(w[i]))
      && xs[FirstIndex(xs, key, key(w[i]))] == xs[..|xs| - 1][FirstIndex(xs, key, key(w[i]))]
  {
    var w := Unique(xs[..|xs| - 1], key);
    assert key(w[i]) in KeySet(w, key);
    FirstIndexPrefix(xs, key, key(w[i]));
  }

  /** A key of the prefix has its first position in the prefix. */
  lemma FirstIndexPrefix<T, K>(xs: seq<T>, key: T -> K, k: K)
    requires xs != [] && k in KeySet(xs[..|xs| - 1], key)
    ensures k in KeySet(xs, key)
    ensures FirstIndex(xs, key, k) == FirstIndex(xs[..|xs| - 1], key, k)
  {
  }

  /** One step of the deduplicating loop: after also looking at `x`, the kept
      elements and the seen keys are those of the longer prefix. */
  lemma UniqueSnoc<T, K>(xs: seq<T>, x: T, key: T -> K)
    ensures KeySet(xs + [x], key) == KeySet(xs, key) + {key(x)}
    ensures Unique(xs + [x], key) ==
      if key(x) in KeySet(xs, key) then Unique(xs, key) else Unique(xs, key) + [x]
  {
    assert (xs + [x])[..|xs|] == xs;
  }

  /** `UniqueSnoc` for the prefixes of one list, as a loop over it uses it. */
  lemma UniqueStep<T, K>(xs: seq<T>, i: nat, key: T -> K)
    requires i < |xs|
    ensures KeySet(xs[..i + 1], key) == KeySet(xs[..i], key) + {key(xs[i])}
    ensures Unique(xs[..i + 1], key) ==
      if key(xs[i]) in KeySet(xs[..i], key) then Unique(xs[..i], key) else Unique(xs[..i], key) + [xs[i]]
  {
    assert xs[..i + 1] == xs[..i] + [xs[i]];
    UniqueSnoc(xs[..i], xs[i], key);
  }

  /** One step of a loop that keeps the elements whose key is not `seen`
      yet: `seen` and the kept elements move on to the next prefix. */
  lemma UniqueLoopStep<T, K>(xs: seq<T>, i: nat, key: T -> K, seen: set<K>, kept: seq<T>, k: K)
    requires i < |xs| && k == key(xs[i])
    requires seen == KeySet(xs[..i], key) && kept == Unique(xs[..i], key)
    ensures seen + {k} == KeySet(xs[..i + 1], key)
    ensures (if k in seen then kept else kept + [xs[i]]) == Unique(xs[..i + 1], key)
  {
    UniqueStep(xs, i, key);
  }

  /** Two elements keep both exactly when their keys differ. */
  lemma UniquePair<T, K>(a: T, b: T, key: T -> K)
    ensures Unique([a, b], key) == if key(a) == key(b) then [a] else [a, b]
  {
    assert [a] == [] + [a] && [a, b] == [a] + [b];
    UniqueSnoc([], a, key);
    UniqueSnoc([a], b, key);
  }

  /** Every kept element is an element of the list. */
  lemma UniqueWithin<T, K>(xs: seq<T>, key: T -> K)
    ensures forall x :: x in Unique(xs, key) ==> x in xs
  {
    var u := Unique(xs, key);
    forall x | x in u ensures x in xs {
      var i :| 0 <= i < |u| && u[i] == x;
    }
  }
}
