/** Sequence helpers shared by the modules. */
module Seqs {
  import opened Outcomes

  /** The concatenation of a sequence of sequences, in order (Python's repeated extend). */
  function Flatten<T>(xss: seq<seq<T>>): seq<T> {
    if xss == [] then [] else Flatten(xss[..|xss| - 1]) + xss[|xss| - 1]
  }

  /** Concatenation is associative. */
  lemma AppendAssoc<T>(p: seq<T>, q: seq<T>, r: seq<T>)
    ensures p + q + r == p + (q + r)
  {
  }

  /** Flattening distributes over concatenation. */
  lemma {:induction false} FlattenAppend<T>(a: seq<seq<T>>, b: seq<seq<T>>)
    ensures Flatten(a + b) == Flatten(a) + Flatten(b)
    decreases |b|
  {
    if b != [] {
      assert (a + b)[..|a + b| - 1] == a + b[..|b| - 1];
      FlattenAppend(a, b[..|b| - 1]);
    } else {
      assert a + b == a;
    }
  }

  /** Flattening a sequence that starts with xs puts xs first. */
  lemma FlattenCons<T>(xs: seq<T>, rest: seq<seq<T>>)
    ensures Flatten([xs] + rest) == xs + Flatten(rest)
  {
    FlattenAppend([xs], rest);
    assert Flatten([xs]) == Flatten([]) + xs;
  }

  /** The results of f on each element, one after another, or the first error. */
  function Gather<T, U>(xs: seq<T>, f: T -> Result<seq<U>>): Result<seq<U>> {
    if xs == [] then Ok([])
    else
      match Gather(xs[..|xs| - 1], f)
      case Err(e) => Err(e)
      case Ok(acc) =>
        match f(xs[|xs| - 1])
        case Err(e) => Err(e)
        case Ok(more) => Ok(acc + more)
  }

  /** Once a prefix gives an error, the whole gathering gives the same error. */
  lemma {:induction false} GatherErrSticks<T, U>(xs: seq<T>, f: T -> Result<seq<U>>, i: nat)
    requires i <= |xs| && Gather(xs[..i], f).Err?
    ensures Gather(xs, f) == Gather(xs[..i], f)
    decreases |xs| - i
  {
    if i == |xs| {
      assert xs[..i] == xs;
    } else {
      assert xs[..i + 1][..i] == xs[..i];
      GatherErrSticks(xs, f, i + 1);
    }
  }

  /** Gathering succeeds exactly when f does on every element, and then gives f's values one
      after another, in order. */
  lemma {:induction false} GatherSpec<T, U>(xs: seq<T>, f: T -> Result<seq<U>>)
    ensures Gather(xs, f).Ok? <==> forall i :: 0 <= i < |xs| ==> f(xs[i]).Ok?
    ensures Gather(xs, f).Ok? ==>
      Gather(xs, f).value == Flatten(seq(|xs|, i requires 0 <= i < |xs| => f(xs[i]).value))
    decreases |xs|
  {
    if xs != [] {
      var init := xs[..|xs| - 1];
      GatherSpec(init, f);
      assert forall i :: 0 <= i < |init| ==> init[i] == xs[i];
      if Gather(xs, f).Ok? {
        var all := seq(|xs|, i requires 0 <= i < |xs| => f(xs[i]).value);
        var before := seq(|init|, i requires 0 <= i < |init| => f(init[i]).value);
        assert all[..|all| - 1] == before;
      }
    }
  }

  /** Gathering depends only on the values f gives. */
  lemma {:induction false} GatherSameResults<T, U>(xs: seq<T>, f: T -> Result<seq<U>>, g: T -> Result<seq<U>>)
    requires forall x :: f(x) == g(x)
    ensures Gather(xs, f) == Gather(xs, g)
    decreases |xs|
  {
    if xs != [] {
      GatherSameResults(xs[..|xs| - 1], f, g);
    }
  }
}
