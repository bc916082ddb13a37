// Stock wrappers for values that may be absent and calls that may be refused, and lookups of a whole list.

module Results {

  datatype Option<+T> = None | Some(value: T)

  datatype Result<+T, +E> = Ok(value: T) | Err(error: E)
  {
    predicate IsFailure() {
      Err?
    }

    function PropagateFailure<U>(): Result<U, E>
      requires Err?
    {
      Err(error)
    }

    function Extract(): T
      requires Ok?
    {
      value
    }
  }

  /** `f` of every element in order, if it is defined on each. */
  function Each<X, Y>(f: X -> Option<Y>, xs: seq<X>): Option<seq<Y>> {
    if xs == [] then Some([])
    else
      var n := |xs| - 1;
      if Each(f, xs[..n]).Some? && f(xs[n]).Some?
      then Some(Each(f, xs[..n]).value + [f(xs[n]).value]) else None
  }

  lemma {:induction false} EachNeedsAll<X, Y>(f: X -> Option<Y>, xs: seq<X>)
    ensures Each(f, xs).Some? <==> forall x | x in xs :: f(x).Some?
  {
    if xs != [] {
      var n := |xs| - 1;
      EachNeedsAll(f, xs[..n]);
      assert xs == xs[..n] + [xs[n]];
    }
  }

  lemma {:induction false} EachAt<X, Y>(f: X -> Option<Y>, xs: seq<X>, i: nat)
    requires Each(f, xs).Some?
    ensures |Each(f, xs).value| == |xs|
    ensures i < |xs| ==> f(xs[i]) == Some(Each(f, xs).value[i])
  {
    if xs != [] {
      EachAt(f, xs[..|xs| - 1], i);
    }
  }

  lemma EachHolds<X, Y>(f: X -> Option<Y>, xs: seq<X>, y: Y)
    requires Each(f, xs).Some?
    ensures y in Each(f, xs).value <==> exists x | x in xs :: f(x) == Some(y)
  {
    var ys := Each(f, xs).value;
    EachAt(f, xs, 0);
    if y in ys {
      var i :| 0 <= i < |ys| && ys[i] == y;
      EachAt(f, xs, i);
      assert xs[i] in xs;
    }
    if x :| x in xs && f(x) == Some(y) {
      var i :| 0 <= i < |xs| && xs[i] == x;
      EachAt(f, xs, i);
      assert ys[i] == y;
    }
  }
}
