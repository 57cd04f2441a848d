/** Sums over finite sets, shared by the components that add up per-user or per-day amounts. */
module Finite {

  ghost function Pick<T>(s: set<T>): (x: T)
    requires s != {}
    ensures x in s
  {
    var x :| x in s;
    x
  }

  lemma SubsetSize<T>(a: set<T>, b: set<T>)
    requires a <= b
    ensures |a| <= |b|
  {
    assert b == a + (b - a);
  }

  predicate Within(lo: int, t: int, hi: int) { lo <= t < hi }

  /** The integers from lo up to hi. */
  ghost function Span(lo: int, hi: int): set<int> { set t: int | lo <= t < hi && Within(lo, t, hi) }

  lemma {:induction false} SpanSize(lo: int, hi: int)
    ensures |Span(lo, hi)| == if lo < hi then hi - lo else 0
    decreases hi - lo
  {
    if lo < hi {
      SpanSize(lo, hi - 1);
      assert Span(lo, hi) == Span(lo, hi - 1) + {hi - 1};
    } else {
      assert Span(lo, hi) == {};
    }
  }

  ghost function Sum<T>(keys: set<T>, f: T -> int): int
    decreases |keys|
  {
    if keys == {} then 0
    else
      var x := Pick(keys);
      f(x) + Sum(keys - {x}, f)
  }

  /** The order in which a sum is taken does not matter. */
  lemma {:induction false} SumRemove<T>(keys: set<T>, f: T -> int, y: T)
    requires y in keys
    ensures Sum(keys, f) == f(y) + Sum(keys - {y}, f)
    decreases |keys|
  {
    var x := Pick(keys);
    if x != y {
      SumRemove(keys - {x}, f, y);
      SumRemove(keys - {y}, f, x);
      assert keys - {x} - {y} == keys - {y} - {x};
    }
  }

  lemma {:induction false} SumAgrees<T>(keys: set<T>, f: T -> int, g: T -> int)
    requires forall x :: x in keys ==> f(x) == g(x)
    ensures Sum(keys, f) == Sum(keys, g)
    decreases |keys|
  {
    if keys != {} {
      SumAgrees(keys - {Pick(keys)}, f, g);
    }
  }

  lemma {:induction false} SumAdds<T>(keys: set<T>, f: T -> int, g: T -> int, h: T -> int)
    requires forall x :: x in keys ==> h(x) == f(x) + g(x)
    ensures Sum(keys, h) == Sum(keys, f) + Sum(keys, g)
    decreases |keys|
  {
    if keys != {} {
      SumAdds(keys - {Pick(keys)}, f, g, h);
    }
  }

  /** Raising one summand raises the sum by as much. */
  lemma SumChangesAt<T>(keys: set<T>, f: T -> int, g: T -> int, y: T)
    requires y in keys && forall x :: x in keys && x != y ==> f(x) == g(x)
    ensures Sum(keys, g) == Sum(keys, f) + g(y) - f(y)
  {
    SumRemove(keys, f, y);
    SumRemove(keys, g, y);
    SumAgrees(keys - {y}, f, g);
  }

  lemma {:induction false} SumZero<T>(keys: set<T>, f: T -> int)
    requires forall x :: x in keys ==> f(x) == 0
    ensures Sum(keys, f) == 0
    decreases |keys|
  {
    if keys != {} {
      SumZero(keys - {Pick(keys)}, f);
    }
  }

  /** Adding ones counts. */
  lemma {:induction false} SumCounts<T>(keys: set<T>, f: T -> int, marked: set<T>)
    requires marked <= keys && forall x :: x in keys ==> f(x) == if x in marked then 1 else 0
    ensures Sum(keys, f) == |marked|
    decreases |keys|
  {
    if keys == {} {
      assert marked == {};
    } else {
      var x := Pick(keys);
      SumCounts(keys - {x}, f, marked - {x});
      if x in marked { assert marked == (marked - {x}) + {x}; } else { assert marked == marked - {x}; }
    }
  }

  ghost function Image<S, T(!new)>(s: set<S>, f: S -> T): set<T> { set x | x in s :: f(x) }

  ghost predicate Determines<S(!new), T(!new), U(!new)>(s: set<S>, f: S -> T, g: S -> U) {
    forall x, y :: x in s && y in s && f(x) == f(y) ==> g(x) == g(y)
  }

  lemma ImageGrows<S(!new), T(!new)>(s: set<S>, f: S -> T, x: S)
    requires x in s
    ensures |Image(s, f)| == |Image(s - {x}, f)| + if f(x) in Image(s - {x}, f) then 0 else 1
  {
    assert Image(s, f) == Image(s - {x}, f) + {f(x)};
  }

  lemma DeterminesAlike<S(!new), T(!new), U(!new)>(s: set<S>, f: S -> T, g: S -> U, x: S, y: S)
    requires x in s && y in s - {x} && f(x) == f(y) && g(x) == g(y)
    ensures Determines(s, g, f) <==> Determines(s - {x}, g, f)
  {
  }

  lemma DeterminesFresh<S(!new), T(!new), U(!new)>(s: set<S>, f: S -> T, g: S -> U, x: S)
    requires x in s && g(x) !in Image(s - {x}, g)
    ensures Determines(s, g, f) <==> Determines(s - {x}, g, f)
  {
  }

  /**
    If f determines g on a finite set, then g takes no more values there than f, and as many exactly
    if it determines f in turn.
  */
  lemma {:induction false} ImageFactors<S(!new), T(!new), U(!new)>(s: set<S>, f: S -> T, g: S -> U)
    requires Determines(s, f, g)
    ensures |Image(s, g)| <= |Image(s, f)|
    ensures |Image(s, g)| == |Image(s, f)| <==> Determines(s, g, f)
    decreases |s|
  {
    if s != {} {
      var x := Pick(s);
      var rest := s - {x};
      ImageFactors(rest, f, g);
      ImageGrows(s, f, x);
      ImageGrows(s, g, x);
      if f(x) in Image(rest, f) {
        var y :| y in rest && f(y) == f(x);
        assert g(y) == g(x) && g(x) in Image(rest, g);
        DeterminesAlike(s, f, g, x, y);
      } else if g(x) in Image(rest, g) {
        var y :| y in rest && g(y) == g(x);
        assert f(y) != f(x);
      } else {
        DeterminesFresh(s, f, g, x);
      }
    }
  }
}
