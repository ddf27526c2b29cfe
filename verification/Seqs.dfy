/** Sequence combinators: `filter_map`, `flat_map` and their laws. */
module Seqs {
  datatype Option<+T> = None | Some(value: T)

  /** `Option::or` */
  function Or<T>(a: Option<T>, b: Option<T>): Option<T> { if a.Some? then a else b }

  /** `Option::unwrap_or` */
  function UnwrapOr<T>(o: Option<T>, d: T): T { if o.Some? then o.value else d }

  function FilterMap<A, B>(xs: seq<A>, f: A -> Option<B>): seq<B> {
    if xs == [] then []
    else match f(xs[0])
      case Some(y) => [y] + FilterMap(xs[1..], f)
      case None => FilterMap(xs[1..], f)
  }

  lemma {:induction false} FilterMapConcat<A, B>(a: seq<A>, b: seq<A>, f: A -> Option<B>)
    ensures FilterMap(a + b, f) == FilterMap(a, f) + FilterMap(b, f)
  {
    if a == [] {
      assert a + b == b;
    } else {
      FilterMapConcat(a[1..], b, f);
      if f(a[0]).Some? { Assoc([f(a[0]).value], FilterMap(a[1..], f), FilterMap(b, f)); }
      Uncons(a, b);
    }
  }

  /** One element at the front. */
  lemma FilterMapCons<A, B>(x: A, xs: seq<A>, f: A -> Option<B>)
    ensures FilterMap([x] + xs, f) ==
            match f(x) case Some(y) => [y] + FilterMap(xs, f) case None => FilterMap(xs, f)
  {
    assert ([x] + xs)[1..] == xs;
  }

  lemma {:induction false} FilterMapNone<A, B>(xs: seq<A>, f: A -> Option<B>)
    requires forall x <- xs :: f(x).None?
    ensures FilterMap(xs, f) == []
  {
    if xs != [] {
      assert xs[0] in xs;
      FilterMapNone(xs[1..], f);
    }
  }

  function FlatMap<A, B>(xs: seq<A>, f: A -> seq<B>): seq<B> {
    if xs == [] then [] else f(xs[0]) + FlatMap(xs[1..], f)
  }

  lemma {:induction false} FlatMapConcat<A, B>(a: seq<A>, b: seq<A>, f: A -> seq<B>)
    ensures FlatMap(a + b, f) == FlatMap(a, f) + FlatMap(b, f)
  {
    if a == [] {
      assert a + b == b;
    } else {
      FlatMapConcat(a[1..], b, f);
      Assoc(f(a[0]), FlatMap(a[1..], f), FlatMap(b, f));
      Uncons(a, b);
    }
  }

  /** Taking the first element off a concatenation. */
  lemma Uncons<A>(a: seq<A>, b: seq<A>)
    requires a != []
    ensures (a + b)[0] == a[0] && (a + b)[1..] == a[1..] + b
    ensures a == [a[0]] + a[1..]
  {}

  lemma Assoc<A>(a: seq<A>, b: seq<A>, c: seq<A>)
    ensures (a + b) + c == a + (b + c)
  {}

  /** Pushing one element and appending the rest. */
  lemma Snoc<A>(done: seq<A>, x: A, rest: seq<A>)
    ensures (done + [x]) + rest == done + ([x] + rest)
  {}

  function Map<A, B>(xs: seq<A>, f: A -> B): (r: seq<B>)
    ensures |r| == |xs| && forall i :: 0 <= i < |xs| ==> r[i] == f(xs[i])
  {
    seq(|xs|, i requires 0 <= i < |xs| => f(xs[i]))
  }

  lemma MapSnoc<A, B>(xs: seq<A>, x: A, f: A -> B)
    ensures Map(xs + [x], f) == Map(xs, f) + [f(x)]
  {}

  lemma MapCons<A, B>(x: A, xs: seq<A>, f: A -> B)
    ensures Map([x] + xs, f) == [f(x)] + Map(xs, f)
  {}

  lemma MapConcat<A, B>(a: seq<A>, b: seq<A>, f: A -> B)
    ensures Map(a + b, f) == Map(a, f) + Map(b, f)
  {}

  /** Membership in a filtered list, both ways. */
  lemma {:induction false} FilterMapIn<A, B>(xs: seq<A>, f: A -> Option<B>)
    ensures forall y <- FilterMap(xs, f) :: exists x <- xs :: f(x) == Some(y)
    ensures forall x <- xs :: f(x).Some? ==> f(x).value in FilterMap(xs, f)
  {
    if xs != [] {
      FilterMapIn(xs[1..], f);
      assert xs[0] in xs;
      assert forall x <- xs[1..] :: x in xs;
    }
  }

  /** A filter that keeps everything is a map. */
  lemma {:induction false} FilterMapAll<A, B>(xs: seq<A>, f: A -> Option<B>, g: A -> B)
    requires forall x <- xs :: f(x) == Some(g(x))
    ensures FilterMap(xs, f) == Map(xs, g)
  {
    if xs != [] {
      assert xs[0] in xs;
      FilterMapAll(xs[1..], f, g);
      assert Map(xs, g) == [g(xs[0])] + Map(xs[1..], g);
    }
  }

  lemma {:induction false} FlatMapIn<A, B>(xs: seq<A>, f: A -> seq<B>)
    ensures forall y <- FlatMap(xs, f) :: exists x <- xs :: y in f(x)
    ensures forall x <- xs :: forall y <- f(x) :: y in FlatMap(xs, f)
  {
    if xs != [] {
      FlatMapIn(xs[1..], f);
      assert xs[0] in xs;
      assert forall x <- xs[1..] :: x in xs;
    }
  }
}
