/** LIGO's list combinators and the helpers of `lib/list.mligo`, with the laws the contracts rely on. */
module Lists {
  import opened Outcomes

  // ---------- LIGO's own combinators ----------

  /** `List.fold` over a step that may fail: the first failure is the result. */
  function Fold<S, X>(step: (S, X) -> Result<S>, xs: seq<X>, s: S): Result<S> {
    if xs == [] then Ok(s)
    else
      var s' :- step(s, xs[0]);
      Fold(step, xs[1..], s')
  }

  function FoldRight<X, Y>(f: (X, Y) -> Y, xs: seq<X>, y: Y): Y {
    if xs == [] then y else f(xs[0], FoldRight(f, xs[1..], y))
  }

  function Map<X, Y>(f: X -> Y, xs: seq<X>): (ys: seq<Y>)
    ensures |ys| == |xs|
    ensures forall i :: 0 <= i < |xs| ==> ys[i] == f(xs[i])
  {
    if xs == [] then [] else [f(xs[0])] + Map(f, xs[1..])
  }

  /** `List.map` of a function that may fail. */
  function Traverse<X, Y>(f: X -> Result<Y>, xs: seq<X>): (r: Result<seq<Y>>)
    ensures r.Ok? <==> forall i :: 0 <= i < |xs| ==> f(xs[i]).Ok?
    ensures r.Ok? ==> |r.value| == |xs| && forall i :: 0 <= i < |xs| ==> f(xs[i]) == Ok(r.value[i])
  {
    if xs == [] then Ok([])
    else
      var y :- f(xs[0]);
      var ys :- Traverse(f, xs[1..]);
      Ok([y] + ys)
  }

  // ---------- lib/list.mligo ----------

  function Prepend<X>(x: X, xs: seq<X>): seq<X> {
    [x] + xs
  }

  function Concat<X>(xs: seq<X>, ys: seq<X>): (r: seq<X>)
    ensures r == xs + ys
  {
    FoldRightPrepend(xs, ys);
    FoldRight(Prepend, xs, ys)
  }

  function FlatMap<X, Y>(f: X -> seq<Y>, src: seq<X>): (r: seq<Y>)
    ensures r == Gather(f, src)
  {
    FoldRightConcat(f, src);
    FoldRight(Concat, Map(f, src), [])
  }

  function Keep<X>(x: Option<X>, xs: seq<X>): seq<X> {
    match x
    case None => xs
    case Some(v) => [v] + xs
  }

  function CompactList<X>(l: seq<Option<X>>): (r: seq<X>)
    ensures r == Gather(Present, l)
  {
    FoldRightKeep(l);
    FoldRight(Keep, l, [])
  }

  function FilterMap<X, Y>(f: X -> Option<Y>, src: seq<X>): (r: seq<Y>)
    ensures r == Gather(PresentAt(f), src)
  {
    GatherMap(Present, f, PresentAt(f), src);
    CompactList(Map(f, src))
  }

  // ---------- what the helpers compute ----------

  /** Every piece `f` yields, in list order: none dropped, none repeated. */
  function Gather<X, Y>(f: X -> seq<Y>, xs: seq<X>): seq<Y> {
    if xs == [] then [] else f(xs[0]) + Gather(f, xs[1..])
  }

  function Present<X>(x: Option<X>): seq<X> {
    match x
    case None => []
    case Some(v) => [v]
  }

  function PresentAt<X, Y>(f: X -> Option<Y>): X -> seq<Y> {
    x => Present(f(x))
  }

  function Sum<X>(f: X -> int, xs: seq<X>): int {
    if xs == [] then 0 else f(xs[0]) + Sum(f, xs[1..])
  }

  lemma {:induction false} FoldRightPrepend<X>(xs: seq<X>, ys: seq<X>)
    ensures FoldRight(Prepend, xs, ys) == xs + ys
  {
    if xs == [] {
      assert xs + ys == ys;
    } else {
      FoldRightPrepend(xs[1..], ys);
      assert xs == [xs[0]] + xs[1..];
    }
  }

  lemma {:induction false} FoldRightConcat<X, Y>(f: X -> seq<Y>, src: seq<X>)
    ensures FoldRight(Concat, Map(f, src), []) == Gather(f, src)
  {
    if src == [] {
    } else {
      FoldRightConcat(f, src[1..]);
      assert Map(f, src)[1..] == Map(f, src[1..]);
    }
  }

  lemma {:induction false} FoldRightKeep<X>(l: seq<Option<X>>)
    ensures FoldRight(Keep, l, []) == Gather(Present, l)
  {
    if l == [] {
    } else {
      FoldRightKeep(l[1..]);
    }
  }

  // ---------- laws ----------

  lemma FoldOne<S, X>(step: (S, X) -> Result<S>, x: X, s: S)
    ensures Fold(step, [x], s) == step(s, x)
  {
    match step(s, x)
    case Ok(m) => assert Fold(step, [x][1..], m) == Ok(m);
    case Err(_) =>
  }

  lemma SumOne<X>(f: X -> int, x: X)
    ensures Sum(f, [x]) == f(x)
  {
    assert [x][1..] == [];
  }

  lemma GatherOne<X, Y>(f: X -> seq<Y>, x: X)
    ensures Gather(f, [x]) == f(x)
  {
    assert [x][1..] == [];
  }

  lemma {:induction false} FoldAppend<S, X>(step: (S, X) -> Result<S>, xs: seq<X>, ys: seq<X>, s: S)
    ensures Fold(step, xs + ys, s) ==
            match Fold(step, xs, s) {
              case Ok(m) => Fold(step, ys, m)
              case Err(e) => Err(e)
            }
  {
    if xs == [] {
      assert xs + ys == ys;
    } else {
      assert (xs + ys)[1..] == xs[1..] + ys;
      match step(s, xs[0])
      case Ok(m) => FoldAppend(step, xs[1..], ys, m);
      case Err(_) =>
    }
  }

  /** A failed fold failed at one element, after all earlier ones had succeeded, with that step's failure. */
  lemma {:induction false} FoldFailure<S, X>(step: (S, X) -> Result<S>, xs: seq<X>, s: S) returns (i: nat)
    requires Fold(step, xs, s).Err?
    ensures i < |xs| && Fold(step, xs[..i], s).Ok?
    ensures step(Fold(step, xs[..i], s).value, xs[i]) == Err(Fold(step, xs, s).failure)
  {
    match step(s, xs[0])
    case Ok(m) =>
      var k := FoldFailure(step, xs[1..], m);
      i := k + 1;
      assert xs[..i][1..] == xs[1..][..k];
    case Err(_) =>
      i := 0;
  }

  lemma {:induction false} TraverseFailure<X, Y>(f: X -> Result<Y>, xs: seq<X>) returns (i: nat)
    requires Traverse(f, xs).Err?
    ensures i < |xs| && f(xs[i]) == Err(Traverse(f, xs).failure)
    ensures forall x <- xs[..i] :: f(x).Ok?
  {
    if f(xs[0]).Err? {
      i := 0;
    } else {
      var k := TraverseFailure(f, xs[1..]);
      i := k + 1;
      assert xs[..i] == [xs[0]] + xs[1..][..k];
    }
  }

  /** A fold of folds is one fold over the flattened list. */
  lemma {:induction false} FoldNested<S(!new), P(!new), X>(
    outer: (S, P) -> Result<S>, inner: (S, X) -> Result<S>, expand: P -> seq<X>, ps: seq<P>, s: S)
    requires forall s, p :: outer(s, p) == Fold(inner, expand(p), s)
    ensures Fold(outer, ps, s) == Fold(inner, Gather(expand, ps), s)
  {
    if ps == [] {
    } else {
      FoldAppend(inner, expand(ps[0]), Gather(expand, ps[1..]), s);
      match outer(s, ps[0])
      case Ok(m) => FoldNested(outer, inner, expand, ps[1..], m);
      case Err(_) =>
    }
  }

  /** A fold over the elements is a fold over their images when the two steps agree. */
  lemma {:induction false} FoldMap<S(!new), X(!new), Y>(
    step: (S, X) -> Result<S>, step': (S, Y) -> Result<S>, g: X -> Y, xs: seq<X>, s: S)
    requires forall s, x :: step(s, x) == step'(s, g(x))
    ensures Fold(step, xs, s) == Fold(step', Map(g, xs), s)
  {
    if xs == [] {
    } else {
      assert Map(g, xs)[1..] == Map(g, xs[1..]);
      match step(s, xs[0])
      case Ok(m) => FoldMap(step, step', g, xs[1..], m);
      case Err(_) =>
    }
  }

  lemma {:induction false} GatherAppend<X, Y>(f: X -> seq<Y>, xs: seq<X>, ys: seq<X>)
    ensures Gather(f, xs + ys) == Gather(f, xs) + Gather(f, ys)
  {
    if xs == [] {
      assert xs + ys == ys;
    } else {
      assert (xs + ys)[1..] == xs[1..] + ys;
      GatherAppend(f, xs[1..], ys);
    }
  }

  lemma {:induction false} GatherMap<X, Y, Z>(f: Y -> seq<Z>, g: X -> Y, h: X -> seq<Z>, xs: seq<X>)
    requires forall x <- xs :: h(x) == f(g(x))
    ensures Gather(f, Map(g, xs)) == Gather(h, xs)
  {
    if xs == [] {
    } else {
      assert Map(g, xs)[1..] == Map(g, xs[1..]);
      GatherMap(f, g, h, xs[1..]);
    }
  }

  /** Gathering from what was gathered is gathering once with the composed function. */
  lemma {:induction false} GatherGather<X, Y, Z>(f: Y -> seq<Z>, g: X -> seq<Y>, h: X -> seq<Z>, xs: seq<X>)
    requires forall x <- xs :: h(x) == Gather(f, g(x))
    ensures Gather(f, Gather(g, xs)) == Gather(h, xs)
  {
    if xs == [] {
    } else {
      GatherAppend(f, g(xs[0]), Gather(g, xs[1..]));
      GatherGather(f, g, h, xs[1..]);
    }
  }

  lemma {:induction false} MapIsGather<X, Y>(f: X -> Y, h: X -> seq<Y>, xs: seq<X>)
    requires forall x <- xs :: h(x) == [f(x)]
    ensures Map(f, xs) == Gather(h, xs)
  {
    if xs == [] {
    } else {
      MapIsGather(f, h, xs[1..]);
    }
  }

  lemma {:induction false} GatherNothing<X, Y>(f: X -> seq<Y>, xs: seq<X>)
    requires forall x <- xs :: f(x) == []
    ensures Gather(f, xs) == []
  {
    if xs == [] {
    } else {
      GatherNothing(f, xs[1..]);
    }
  }

  /** An element gathered came from some member of the list. */
  lemma {:induction false} GatherOrigin<X, Y>(f: X -> seq<Y>, xs: seq<X>, y: Y) returns (x: X)
    requires y in Gather(f, xs)
    ensures x in xs && y in f(x)
  {
    if y in f(xs[0]) {
      x := xs[0];
    } else {
      x := GatherOrigin(f, xs[1..], y);
    }
  }

  lemma {:induction false} GatherContains<X, Y>(f: X -> seq<Y>, xs: seq<X>, x: X, y: Y)
    requires x in xs && y in f(x)
    ensures y in Gather(f, xs)
  {
    if x != xs[0] {
      GatherContains(f, xs[1..], x, y);
    }
  }

  lemma {:induction false} MapAppend<X, Y>(f: X -> Y, xs: seq<X>, ys: seq<X>)
    ensures Map(f, xs + ys) == Map(f, xs) + Map(f, ys)
  {
    if xs == [] {
      assert xs + ys == ys;
    } else {
      assert (xs + ys)[1..] == xs[1..] + ys;
      MapAppend(f, xs[1..], ys);
    }
  }

  lemma {:induction false} SumAppend<X>(f: X -> int, xs: seq<X>, ys: seq<X>)
    ensures Sum(f, xs + ys) == Sum(f, xs) + Sum(f, ys)
  {
    if xs == [] {
      assert xs + ys == ys;
    } else {
      assert (xs + ys)[1..] == xs[1..] + ys;
      SumAppend(f, xs[1..], ys);
    }
  }

  /** The sum over a gathered list is the sum of the pieces' sums. */
  lemma {:induction false} SumGather<X, Y>(f: Y -> int, g: X -> seq<Y>, h: X -> int, xs: seq<X>)
    requires forall x <- xs :: h(x) == Sum(f, g(x))
    ensures Sum(f, Gather(g, xs)) == Sum(h, xs)
  {
    if xs == [] {
    } else {
      SumAppend(f, g(xs[0]), Gather(g, xs[1..]));
      SumGather(f, g, h, xs[1..]);
    }
  }

  lemma {:induction false} SumMap<X, Y>(f: Y -> int, g: X -> Y, h: X -> int, xs: seq<X>)
    requires forall x <- xs :: h(x) == f(g(x))
    ensures Sum(f, Map(g, xs)) == Sum(h, xs)
  {
    if xs == [] {
    } else {
      assert Map(g, xs)[1..] == Map(g, xs[1..]);
      SumMap(f, g, h, xs[1..]);
    }
  }

  lemma {:induction false} SumNonnegative<X>(f: X -> int, xs: seq<X>)
    requires forall x <- xs :: f(x) >= 0
    ensures Sum(f, xs) >= 0
  {
    if xs == [] {
    } else {
      SumNonnegative(f, xs[1..]);
    }
  }

  lemma {:induction false} SumAt<X>(f: X -> int, xs: seq<X>, i: nat)
    requires i < |xs|
    ensures Sum(f, xs) == f(xs[i]) + Sum(f, xs[..i] + xs[i + 1..])
  {
    assert xs == xs[..i] + ([xs[i]] + xs[i + 1..]);
    SumAppend(f, xs[..i], [xs[i]] + xs[i + 1..]);
    SumAppend(f, [xs[i]], xs[i + 1..]);
    SumAppend(f, xs[..i], xs[i + 1..]);
    SumOne(f, xs[i]);
  }

  /** Sums do not depend on the order of the list. */
  lemma {:induction false} SumPermutation<X>(f: X -> int, xs: seq<X>, ys: seq<X>)
    requires multiset(xs) == multiset(ys)
    ensures Sum(f, xs) == Sum(f, ys)
  {
    if xs == [] {
      assert |multiset(ys)| == 0;
    } else {
      assert xs == [xs[0]] + xs[1..];
      assert xs[0] in multiset(ys);
      var i :| 0 <= i < |ys| && ys[i] == xs[0];
      assert ys == ys[..i] + [ys[i]] + ys[i + 1..];
      assert multiset(ys[..i] + ys[i + 1..]) == multiset(ys) - multiset{xs[0]};
      assert multiset(xs[1..]) == multiset(xs) - multiset{xs[0]};
      SumPermutation(f, xs[1..], ys[..i] + ys[i + 1..]);
      SumAt(f, ys, i);
    }
  }
}
