/** Lists built element by element or level by level, and what reordering does to them. */
module Lists {

  function ConcatMap<A, B>(f: A -> seq<B>, s: seq<A>): seq<B> {
    if s == [] then [] else ConcatMap(f, s[..|s| - 1]) + f(s[|s| - 1])
  }

  lemma ConcatMapNext<A, B>(f: A -> seq<B>, s: seq<A>, x: A)
    ensures ConcatMap(f, s + [x]) == ConcatMap(f, s) + f(x)
  {
    assert (s + [x])[..|s|] == s;
  }

  lemma {:induction false} ConcatMapJoin<A, B>(f: A -> seq<B>, a: seq<A>, b: seq<A>)
    ensures ConcatMap(f, a + b) == ConcatMap(f, a) + ConcatMap(f, b)
  {
    if b == [] {
      assert a + b == a;
    } else {
      var init, last := b[..|b| - 1], b[|b| - 1];
      ConcatMapJoin(f, a, init);
      assert a + b == (a + init) + [last] && b == init + [last];
      ConcatMapNext(f, a + init, last);
      ConcatMapNext(f, init, last);
    }
  }

  lemma {:induction false} ConcatMapMember<A, B>(f: A -> seq<B>, s: seq<A>, y: B)
    ensures y in ConcatMap(f, s) <==> exists x :: x in s && y in f(x)
  {
    if s != [] {
      var init, last := s[..|s| - 1], s[|s| - 1];
      ConcatMapMember(f, init, y);
      assert s == init + [last];
    }
  }

  /** Reordering the elements reorders the result. */
  lemma {:induction false} ConcatMapReordered<A, B>(f: A -> seq<B>, a: seq<A>, b: seq<A>)
    requires multiset(a) == multiset(b)
    ensures multiset(ConcatMap(f, a)) == multiset(ConcatMap(f, b))
    decreases |a|
  {
    if a == [] {
      assert |multiset(b)| == 0 && b == [];
    } else {
      var init, last := a[..|a| - 1], a[|a| - 1];
      assert a == init + [last];
      assert last in multiset(a) && last in b;
      var k :| 0 <= k < |b| && b[k] == last;
      var u, v := b[..k], b[k + 1..];
      assert b == u + [last] + v;
      assert multiset(a) == multiset(init) + multiset{last};
      assert multiset(b) == multiset(u) + multiset{last} + multiset(v);
      assert multiset(init) == multiset(a) - multiset{last};
      assert multiset(u) + multiset(v) == multiset(b) - multiset{last};
      assert multiset(u + v) == multiset(u) + multiset(v);
      ConcatMapReordered(f, init, u + v);
      ConcatMapNext(f, init, last);
      ConcatMapJoin(f, u, v);
      ConcatMapJoin(f, u + [last], v);
      ConcatMapNext(f, u, last);
    }
  }

  /** So does reordering what each element contributes. */
  lemma {:induction false} ConcatMapRearranged<A, B>(f: A -> seq<B>, g: A -> seq<B>, s: seq<A>)
    requires forall x :: x in s ==> multiset(f(x)) == multiset(g(x))
    ensures multiset(ConcatMap(f, s)) == multiset(ConcatMap(g, s))
  {
    if s != [] {
      var init, last := s[..|s| - 1], s[|s| - 1];
      assert s == init + [last];
      ConcatMapRearranged(f, g, init);
    }
  }

  lemma {:induction false} ConcatMapLength<A, B, C>(f: A -> seq<B>, g: A -> seq<C>, s: seq<A>)
    requires forall x :: |f(x)| == |g(x)|
    ensures |ConcatMap(f, s)| == |ConcatMap(g, s)|
  {
    if s != [] { ConcatMapLength(f, g, s[..|s| - 1]); }
  }

  lemma {:induction false} ConcatMapOnes<A, B>(f: A -> seq<B>, s: seq<A>)
    requires forall x :: |f(x)| == 1
    ensures |ConcatMap(f, s)| == |s|
  {
    if s != [] { ConcatMapOnes(f, s[..|s| - 1]); }
  }

  lemma SameElements<A>(a: seq<A>, b: seq<A>, x: A)
    requires multiset(a) == multiset(b)
    ensures |a| == |b| && (x in a <==> x in b)
  {
    assert x in a <==> x in multiset(a);
    assert x in b <==> x in multiset(b);
    assert |a| == |multiset(a)| && |b| == |multiset(b)|;
  }

  /** What each of the next k levels puts out, until a level is empty. */
  function Levels<P, T>(next: seq<P> -> seq<P>, out: seq<P> -> seq<T>, level: seq<P>, k: nat): seq<T>
    decreases k
  {
    if k == 0 || level == [] then [] else out(level) + Levels(next, out, next(level), k - 1)
  }

  lemma {:induction false} LevelsLength<P, T, U>(next: seq<P> -> seq<P>, f: seq<P> -> seq<T>, g: seq<P> -> seq<U>, level: seq<P>, k: nat)
    requires forall l :: |f(l)| == |g(l)|
    ensures |Levels(next, f, level, k)| == |Levels(next, g, level, k)|
    decreases k
  {
    if k > 0 && level != [] { LevelsLength(next, f, g, next(level), k - 1); }
  }

  ghost predicate AnyIn<T>(s: seq<T>, test: T -> bool) {
    exists x :: x in s && test(x)
  }

  lemma {:induction false} LevelsMember<P, T, U>(next: seq<P> -> seq<P>, f: seq<P> -> seq<T>, g: seq<P> -> seq<U>, level: seq<P>, k: nat,
                                                 y: T, test: U -> bool)
    requires forall l :: y in f(l) <==> AnyIn(g(l), test)
    ensures y in Levels(next, f, level, k) <==> AnyIn(Levels(next, g, level, k), test)
    decreases k
  {
    if k > 0 && level != [] {
      LevelsMember(next, f, g, next(level), k - 1, y, test);
      var first, rest := g(level), Levels(next, g, next(level), k - 1);
      assert AnyIn(first + rest, test) <==> AnyIn(first, test) || AnyIn(rest, test);
    }
  }

  ghost predicate KeepsOrder<P(!new), T>(f: seq<P> -> seq<T>, g: seq<P> -> seq<T>) {
    forall a, b :: multiset(a) == multiset(b) ==> multiset(f(a)) == multiset(g(b))
  }

  lemma {:induction false} LevelsReordered<P(!new), T>(next: seq<P> -> seq<P>, after: seq<P> -> seq<P>, f: seq<P> -> seq<T>, g: seq<P> -> seq<T>,
                                                 a: seq<P>, b: seq<P>, k: nat)
    requires KeepsOrder(next, after) && KeepsOrder(f, g) && multiset(a) == multiset(b)
    ensures multiset(Levels(next, f, a, k)) == multiset(Levels(after, g, b, k))
    decreases k
  {
    assert |a| == |multiset(a)| && |b| == |multiset(b)|;
    if k > 0 && a != [] {
      LevelsReordered(next, after, f, g, next(a), after(b), k - 1);
    }
  }
}
