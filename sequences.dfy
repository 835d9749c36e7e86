/**
  Two list-building loops and their properties: a comprehension with a
  condition, `[g(x) for x in xs if c(x)]`, and a loop that appends what
  each element yields and stops at the first exception.
 */
module Sequences {
  import opened Wrappers

  /** The values `f` yields over `xs`, in order; elements where `f` yields None are left out. */
  function FilterMap<X, Y>(xs: seq<X>, f: X -> Option<Y>): (ys: seq<Y>)
    ensures |ys| <= |xs|
  {
    if xs == [] then []
    else
      var last := f(xs[|xs| - 1]);
      FilterMap(xs[..|xs| - 1], f) + if last.Some? then [last.value] else []
  }

  /** The number of elements before position `i` for which `f` yields a value. */
  function Rank<X, Y>(xs: seq<X>, f: X -> Option<Y>, i: nat): nat
    requires i <= |xs|
  {
    if i == 0 then 0 else Rank(xs, f, i - 1) + if f(xs[i - 1]).Some? then 1 else 0
  }

  /** A value is in the result exactly when `f` yields it for some element. */
  lemma {:induction false} FilterMapMembers<X, Y>(xs: seq<X>, f: X -> Option<Y>, y: Y)
    ensures y in FilterMap(xs, f) <==> exists i :: 0 <= i < |xs| && f(xs[i]) == Some(y)
  {
    if xs != [] {
      var m := |xs| - 1;
      var p := xs[..m];
      assert forall i :: 0 <= i < |p| ==> p[i] == xs[i];
      FilterMapMembers(p, f, y);
      if f(xs[m]) == Some(y) {
        assert y in FilterMap(xs, f);
      }
    }
  }

  /** The rank of a position depends only on the elements before it. */
  lemma {:induction false} RankPrefix<X, Y>(xs: seq<X>, f: X -> Option<Y>, n: nat, i: nat)
    requires i <= n <= |xs|
    ensures Rank(xs[..n], f, i) == Rank(xs, f, i)
  {
    if i > 0 {
      RankPrefix(xs, f, n, i - 1);
      assert xs[..n][i - 1] == xs[i - 1];
    }
  }

  /** Ranks grow past every element that yields a value. */
  lemma {:induction false} RankIncreasing<X, Y>(xs: seq<X>, f: X -> Option<Y>, i: nat, j: nat)
    requires i < j <= |xs| && f(xs[i]).Some?
    ensures Rank(xs, f, i) < Rank(xs, f, j)
  {
    if j > i + 1 {
      RankIncreasing(xs, f, i, j - 1);
    }
  }

  /**
    The result holds exactly one value per element that yields one, in the
    order of the elements: the value of `xs[i]` sits at position `Rank(xs, f, i)`.
   */
  lemma {:induction false} FilterMapAt<X, Y>(xs: seq<X>, f: X -> Option<Y>, i: nat)
    requires i < |xs| && f(xs[i]).Some?
    ensures |FilterMap(xs, f)| == Rank(xs, f, |xs|)
    ensures Rank(xs, f, i) < |FilterMap(xs, f)|
    ensures FilterMap(xs, f)[Rank(xs, f, i)] == f(xs[i]).value
  {
    var m := |xs| - 1;
    var p := xs[..m];
    RankPrefix(xs, f, m, m);
    FilterMapLength(p, f);
    if i < m {
      assert p[i] == xs[i];
      FilterMapAt(p, f, i);
      RankPrefix(xs, f, m, i);
    }
  }

  /** There are as many values as elements that yield one. */
  lemma {:induction false} FilterMapLength<X, Y>(xs: seq<X>, f: X -> Option<Y>)
    ensures |FilterMap(xs, f)| == Rank(xs, f, |xs|)
  {
    if xs != [] {
      var m := |xs| - 1;
      FilterMapLength(xs[..m], f);
      RankPrefix(xs, f, m, m);
    }
  }

  /** Functions that agree on every element give the same result. */
  lemma {:induction false} FilterMapAgree<X, Y>(xs: seq<X>, f: X -> Option<Y>, g: X -> Option<Y>)
    requires forall i :: 0 <= i < |xs| ==> f(xs[i]) == g(xs[i])
    ensures FilterMap(xs, f) == FilterMap(xs, g)
  {
    if xs != [] {
      var m := |xs| - 1;
      var p := xs[..m];
      assert forall i :: 0 <= i < |p| ==> p[i] == xs[i];
      FilterMapAgree(p, f, g);
    }
  }

  // ---------------------------------------------------------------- collecting with exceptions

  /**
    `for x in xs: step = f(x); if step: out.append(step)`, where `f` may
    raise: the values in order, or the exception of the first element that
    raises.
   */
  function Collect<X, Y, E>(xs: seq<X>, f: X -> Result<Option<Y>, E>): Result<seq<Y>, E> {
    if xs == [] then Ok([])
    else
      var earlier :- Collect(xs[..|xs| - 1], f);
      var step :- f(xs[|xs| - 1]);
      Ok(earlier + if step.Some? then [step.value] else [])
  }

  /** One more element: the values grow by what it yields, or it raises, or an earlier exception stays. */
  lemma CollectStep<X, Y, E>(xs: seq<X>, f: X -> Result<Option<Y>, E>, i: nat)
    requires i < |xs|
    ensures Collect(xs[..i], f).Err? ==> Collect(xs[..i + 1], f) == Err(Collect(xs[..i], f).error)
    ensures Collect(xs[..i], f).Ok? && f(xs[i]).Err? ==> Collect(xs[..i + 1], f) == Err(f(xs[i]).error)
    ensures Collect(xs[..i], f).Ok? && f(xs[i]) == Ok(None) ==> Collect(xs[..i + 1], f) == Collect(xs[..i], f)
    ensures Collect(xs[..i], f).Ok? && f(xs[i]).Ok? && f(xs[i]).value.Some? ==>
      Collect(xs[..i + 1], f) == Ok(Collect(xs[..i], f).value + [f(xs[i]).value.value])
  {
    assert xs[..i + 1][..i] == xs[..i];
    if Collect(xs[..i], f).Ok? {
      assert Collect(xs[..i], f).value + [] == Collect(xs[..i], f).value;
    }
  }

  /** Once a prefix raises, the whole loop raises the same exception. */
  lemma {:induction false} CollectErrorSticks<X, Y, E>(xs: seq<X>, f: X -> Result<Option<Y>, E>, i: nat)
    requires i <= |xs|
    requires Collect(xs[..i], f).Err?
    ensures Collect(xs, f) == Collect(xs[..i], f)
    decreases |xs| - i
  {
    if i < |xs| {
      CollectStep(xs, f, i);
      CollectErrorSticks(xs, f, i + 1);
    } else {
      assert xs[..i] == xs;
    }
  }

  /** At most one value per element. */
  lemma {:induction false} CollectLength<X, Y, E>(xs: seq<X>, f: X -> Result<Option<Y>, E>)
    ensures Collect(xs, f).Ok? ==> |Collect(xs, f).value| <= |xs|
  {
    if xs != [] {
      CollectLength(xs[..|xs| - 1], f);
    }
  }

  /** The values of `a + b` are those of `a` followed by those of `b`; an exception in `a` comes first. */
  lemma {:induction false} CollectAppend<X, Y, E>(a: seq<X>, b: seq<X>, f: X -> Result<Option<Y>, E>)
    ensures Collect(a, f).Err? ==> Collect(a + b, f) == Collect(a, f)
    ensures Collect(a, f).Ok? && Collect(b, f).Err? ==> Collect(a + b, f) == Collect(b, f)
    ensures Collect(a, f).Ok? && Collect(b, f).Ok? ==> Collect(a + b, f) == Ok(Collect(a, f).value + Collect(b, f).value)
  {
    if b == [] {
      assert a + b == a;
      assert Collect(a, f).Ok? ==> Collect(a, f).value + [] == Collect(a, f).value;
    } else {
      var m := |b| - 1;
      var b' := b[..m];
      CollectAppend(a, b', f);
      assert (a + b)[..|a + b| - 1] == a + b';
      assert (a + b)[|a + b| - 1] == b[m];
      if Collect(a, f).Ok? && Collect(b', f).Ok? && f(b[m]).Ok? {
        var step := f(b[m]).value;
        var tail := if step.Some? then [step.value] else [];
        assert Collect(a, f).value + Collect(b', f).value + tail == Collect(a, f).value + (Collect(b', f).value + tail);
      }
    }
  }

  /** The values of a single element. */
  lemma CollectOne<X, Y, E>(x: X, f: X -> Result<Option<Y>, E>)
    ensures f(x).Err? ==> Collect([x], f) == Err(f(x).error)
    ensures f(x) == Ok(None) ==> Collect([x], f) == Ok([])
    ensures f(x).Ok? && f(x).value.Some? ==> Collect([x], f) == Ok([f(x).value.value])
  {
    assert [x][..0] == [];
    var none: seq<Y> := [];
    assert Collect([x][..0], f) == Ok(none);
    if f(x).Ok? && f(x).value.Some? {
      assert none + [f(x).value.value] == [f(x).value.value];
    } else if f(x) == Ok(None) {
      assert none + [] == none;
    }
  }

  /** The loop runs to the end exactly when no element raises. */
  lemma {:induction false} CollectOkIff<X, Y, E>(xs: seq<X>, f: X -> Result<Option<Y>, E>)
    ensures Collect(xs, f).Ok? <==> forall i :: 0 <= i < |xs| ==> f(xs[i]).Ok?
  {
    if xs != [] {
      var m := |xs| - 1;
      var p := xs[..m];
      CollectOkIff(p, f);
      assert forall i :: 0 <= i < |p| ==> p[i] == xs[i];
    }
  }

  /** The exception is that of the first element that raises. */
  lemma CollectFirstError<X, Y, E>(xs: seq<X>, f: X -> Result<Option<Y>, E>, j: nat)
    requires j < |xs| && f(xs[j]).Err?
    requires forall i :: 0 <= i < j ==> f(xs[i]).Ok?
    ensures Collect(xs, f) == Err(f(xs[j]).error)
  {
    var p := xs[..j];
    assert forall i :: 0 <= i < |p| ==> p[i] == xs[i];
    CollectOkIff(p, f);
    CollectStep(xs, f, j);
    CollectErrorSticks(xs, f, j + 1);
  }

  /** A value is collected exactly when some element yields it. */
  lemma {:induction false} CollectMembers<X, Y, E>(xs: seq<X>, f: X -> Result<Option<Y>, E>, y: Y)
    requires Collect(xs, f).Ok?
    ensures y in Collect(xs, f).value <==> exists i :: 0 <= i < |xs| && f(xs[i]) == Ok(Some(y))
  {
    if xs != [] {
      var m := |xs| - 1;
      var p := xs[..m];
      CollectMembers(p, f, y);
      assert forall i :: 0 <= i < |p| ==> p[i] == xs[i];
    }
  }
}
