/** Keeping the first element for each key, as both card converters do with card names
    (scripts/convert-cards-data.py:15-23, model_code/convert.js:14-24). */
module FirstOccurrence {

  /** The keys of the elements of xs. */
  function KeysOf<T, K(==)>(xs: seq<T>, key: T -> K): set<K> {
    if xs == [] then {} else KeysOf(xs[..|xs| - 1], key) + {key(xs[|xs| - 1])}
  }

  /** Scanning xs in order with a set of seen keys, keep an element iff its key is not yet
      seen: the last element is kept iff no earlier one has its key. */
  function KeepFirst<T, K(==)>(xs: seq<T>, key: T -> K): seq<T> {
    if xs == [] then []
    else
      var init := xs[..|xs| - 1];
      var x := xs[|xs| - 1];
      KeepFirst(init, key) + (if key(x) in KeysOf(init, key) then [] else [x])
  }

  /** No element before position i has the key of xs[i]. */
  predicate IsFirst<T, K(==)>(xs: seq<T>, i: nat, key: T -> K)
    requires i < |xs|
  {
    forall j :: 0 <= j < i ==> key(xs[j]) != key(xs[i])
  }

  /** The positions of xs that are first occurrences of their key, in increasing order. */
  function FirstIndices<T, K(==)>(xs: seq<T>, key: T -> K): seq<nat> {
    if xs == [] then []
    else
      FirstIndices(xs[..|xs| - 1], key) + (if IsFirst(xs, |xs| - 1, key) then [|xs| - 1] else [])
  }

  /** The key of every element is among the keys. */
  lemma {:induction false} KeyInKeysOf<T, K>(xs: seq<T>, key: T -> K, i: nat)
    requires i < |xs|
    ensures key(xs[i]) in KeysOf(xs, key)
    decreases |xs|
  {
    if i < |xs| - 1 {
      KeyInKeysOf(xs[..|xs| - 1], key, i);
    }
  }

  /** Every key comes from some element. */
  lemma {:induction false} KeyOfSomeElement<T, K>(xs: seq<T>, key: T -> K, k: K)
    requires k in KeysOf(xs, key)
    ensures exists i :: 0 <= i < |xs| && key(xs[i]) == k
    decreases |xs|
  {
    var init := xs[..|xs| - 1];
    if k == key(xs[|xs| - 1]) {
      assert key(xs[|xs| - 1]) == k;
    } else {
      KeyOfSomeElement(init, key, k);
      var i :| 0 <= i < |init| && key(init[i]) == k;
      assert xs[i] == init[i];
    }
  }

  /** A key is among the keys of xs exactly when some element has it. */
  lemma KeysOfSpec<T, K>(xs: seq<T>, key: T -> K)
    ensures forall k :: k in KeysOf(xs, key) <==> exists i :: 0 <= i < |xs| && key(xs[i]) == k
  {
    forall k | k in KeysOf(xs, key) {
      KeyOfSomeElement(xs, key, k);
    }
    forall i | 0 <= i < |xs| {
      KeyInKeysOf(xs, key, i);
    }
  }

  /** The last element is a first occurrence exactly when its key was not seen before it. */
  lemma LastIsFirst<T, K>(xs: seq<T>, key: T -> K)
    requires xs != []
    ensures IsFirst(xs, |xs| - 1, key) <==> key(xs[|xs| - 1]) !in KeysOf(xs[..|xs| - 1], key)
  {
    var init := xs[..|xs| - 1];
    var x := xs[|xs| - 1];
    if !IsFirst(xs, |xs| - 1, key) {
      var j :| 0 <= j < |xs| - 1 && key(xs[j]) == key(x);
      KeyInKeysOf(init, key, j);
    } else if key(x) in KeysOf(init, key) {
      assert forall j :: 0 <= j < |init| ==> init[j] == xs[j];
      KeyOfSomeElement(init, key, key(x));
    }
  }

  /** Deduplication keeps every key: the kept elements have exactly the keys of the input. */
  lemma {:induction false} KeepFirstKeys<T, K>(xs: seq<T>, key: T -> K)
    ensures KeysOf(KeepFirst(xs, key), key) == KeysOf(xs, key)
    decreases |xs|
  {
    if xs != [] {
      var init := xs[..|xs| - 1];
      var x := xs[|xs| - 1];
      KeepFirstKeys(init, key);
      var kept := KeepFirst(init, key);
      if key(x) !in KeysOf(init, key) {
        assert KeepFirst(xs, key) == kept + [x];
        assert (kept + [x])[..|kept|] == kept;
      } else {
        assert KeepFirst(xs, key) == kept;
      }
    }
  }

  /** The kept elements have pairwise distinct keys. */
  lemma {:induction false} KeepFirstDistinct<T, K>(xs: seq<T>, key: T -> K)
    ensures var out := KeepFirst(xs, key);
      forall i, j :: 0 <= i < j < |out| ==> key(out[i]) != key(out[j])
    decreases |xs|
  {
    if xs != [] {
      var init := xs[..|xs| - 1];
      var x := xs[|xs| - 1];
      KeepFirstDistinct(init, key);
      var kept := KeepFirst(init, key);
      if key(x) !in KeysOf(init, key) {
        KeepFirstKeys(init, key);
        var out := kept + [x];
        forall i, j | 0 <= i < j < |out| ensures key(out[i]) != key(out[j]) {
          assert out[i] == kept[i];
          if j == |kept| {
            KeyInKeysOf(kept, key, i);
          } else {
            assert out[j] == kept[j];
          }
        }
      }
    }
  }

  /** There are as many kept elements as distinct keys, and never more than elements. */
  lemma {:induction false} KeepFirstCount<T, K>(xs: seq<T>, key: T -> K)
    ensures |KeepFirst(xs, key)| == |KeysOf(xs, key)| <= |xs|
    decreases |xs|
  {
    if xs != [] {
      var init := xs[..|xs| - 1];
      var x := xs[|xs| - 1];
      KeepFirstCount(init, key);
      if key(x) in KeysOf(init, key) {
        assert KeysOf(xs, key) == KeysOf(init, key);
      }
    }
  }

  /** Reading the input up to position i < |init| is the same on init and on xs. */
  lemma IsFirstOfInit<T, K>(xs: seq<T>, key: T -> K, i: nat)
    requires i < |xs| - 1
    ensures IsFirst(xs[..|xs| - 1], i, key) <==> IsFirst(xs, i, key)
  {
    var init := xs[..|xs| - 1];
    assert forall j :: 0 <= j <= i ==> init[j] == xs[j];
  }

  /** The positions of first occurrences are increasing and are exactly the positions whose
      element is a first occurrence. */
  lemma {:induction false} FirstIndicesSpec<T, K>(xs: seq<T>, key: T -> K)
    ensures var idx := FirstIndices(xs, key);
      && (forall k :: 0 <= k < |idx| ==> idx[k] < |xs| && IsFirst(xs, idx[k], key))
      && (forall k, l :: 0 <= k < l < |idx| ==> idx[k] < idx[l])
      && (forall i :: 0 <= i < |xs| && IsFirst(xs, i, key) ==> i in idx)
    decreases |xs|
  {
    if xs != [] {
      var init := xs[..|xs| - 1];
      FirstIndicesSpec(init, key);
      forall i | 0 <= i < |init| {
        IsFirstOfInit(xs, key, i);
      }
    }
  }

  /** The kept elements are the elements at the first-occurrence positions, in order: an
      element is kept iff no earlier element has its key, and the input order is kept. */
  lemma {:induction false} KeepFirstAtFirstIndices<T, K>(xs: seq<T>, key: T -> K)
    ensures var idx := FirstIndices(xs, key);
      var out := KeepFirst(xs, key);
      && |out| == |idx|
      && forall k :: 0 <= k < |idx| ==> idx[k] < |xs| && out[k] == xs[idx[k]]
    decreases |xs|
  {
    if xs != [] {
      var init := xs[..|xs| - 1];
      KeepFirstAtFirstIndices(init, key);
      FirstIndicesSpec(init, key);
      LastIsFirst(xs, key);
      var idx0 := FirstIndices(init, key);
      assert forall k :: 0 <= k < |idx0| ==> xs[idx0[k]] == init[idx0[k]];
    }
  }
}
