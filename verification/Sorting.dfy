/** Stable sorting by an order, as `sorted` and `sort` do it. */
module Sorting {

  type Order<!T> = (T, T) -> bool

  /** Any two elements compare, and comparisons chain. */
  ghost predicate Orders<T(!new)>(before: Order<T>) {
    && (forall a, b :: before(a, b) || before(b, a))
    && (forall a, b, c :: before(a, b) && before(b, c) ==> before(a, c))
  }

  ghost predicate InOrder<T>(before: Order<T>, xs: seq<T>) {
    forall i, j | 0 <= i < j < |xs| :: before(xs[i], xs[j])
  }

  /** Behind everything that may stand before it. */
  function Insert<T>(before: Order<T>, x: T, xs: seq<T>): seq<T> {
    if xs == [] || !before(xs[0], x) then [x] + xs else [xs[0]] + Insert(before, x, xs[1..])
  }

  function Sorted<T>(before: Order<T>, xs: seq<T>): seq<T> {
    if xs == [] then [] else Insert(before, xs[|xs| - 1], Sorted(before, xs[..|xs| - 1]))
  }

  lemma {:induction false} InsertKeeps<T(!new)>(before: Order<T>, x: T, xs: seq<T>)
    requires Orders(before) && InOrder(before, xs)
    ensures InOrder(before, Insert(before, x, xs))
    ensures multiset(Insert(before, x, xs)) == multiset(xs) + multiset{x}
  {
    if xs == [] || !before(xs[0], x) {
      assert [x] + xs == Insert(before, x, xs);
      forall i | 0 <= i < |xs| ensures before(x, xs[i]) {
        if i > 0 { assert before(xs[0], xs[i]); }
      }
    } else {
      assert xs == [xs[0]] + xs[1..];
      InsertKeeps(before, x, xs[1..]);
      FrontKeeps(before, x, xs, Insert(before, x, xs[1..]));
    }
  }

  lemma FrontKeeps<T(!new)>(before: Order<T>, x: T, xs: seq<T>, rest: seq<T>)
    requires Orders(before) && InOrder(before, xs) && xs != [] && before(xs[0], x)
    requires InOrder(before, rest) && multiset(rest) == multiset(xs[1..]) + multiset{x}
    ensures InOrder(before, [xs[0]] + rest)
  {
    forall i | 0 <= i < |rest|
      ensures before(xs[0], rest[i])
    {
      assert rest[i] in multiset(rest);
      assert rest[i] in multiset(xs[1..]) ==> rest[i] in xs[1..];
    }
  }

  /** The same elements, in order. */
  lemma {:induction false} SortedKeeps<T(!new)>(before: Order<T>, xs: seq<T>)
    requires Orders(before)
    ensures InOrder(before, Sorted(before, xs)) && multiset(Sorted(before, xs)) == multiset(xs)
    ensures |Sorted(before, xs)| == |xs|
  {
    if xs != [] {
      SortedKeeps(before, xs[..|xs| - 1]);
      InsertKeeps(before, xs[|xs| - 1], Sorted(before, xs[..|xs| - 1]));
      assert xs == xs[..|xs| - 1] + [xs[|xs| - 1]];
    }
    assert |multiset(Sorted(before, xs))| == |multiset(xs)|;
  }

  function CountIf<T>(p: T -> bool, xs: seq<T>): nat {
    if xs == [] then 0 else CountIf(p, xs[..|xs| - 1]) + if p(xs[|xs| - 1]) then 1 else 0
  }

  lemma {:induction false} CountAppend<T>(p: T -> bool, a: seq<T>, b: seq<T>)
    ensures CountIf(p, a + b) == CountIf(p, a) + CountIf(p, b)
  {
    if b == [] {
      assert a + b == a;
    } else {
      assert (a + b)[..|a + b| - 1] == a + b[..|b| - 1];
      CountAppend(p, a, b[..|b| - 1]);
    }
  }

  lemma CountOne<T>(p: T -> bool, x: T)
    ensures CountIf(p, [x]) == if p(x) then 1 else 0
  {
    assert [x][..0] == [];
  }

  lemma {:induction false} InsertCounts<T>(before: Order<T>, p: T -> bool, x: T, xs: seq<T>)
    ensures CountIf(p, Insert(before, x, xs)) == CountIf(p, xs) + if p(x) then 1 else 0
  {
    CountOne(p, x);
    if xs == [] || !before(xs[0], x) {
      CountAppend(p, [x], xs);
    } else {
      InsertCounts(before, p, x, xs[1..]);
      CountAppend(p, [xs[0]], Insert(before, x, xs[1..]));
      CountAppend(p, [xs[0]], xs[1..]);
      assert xs == [xs[0]] + xs[1..];
    }
  }

  /** Sorting changes no count. */
  lemma {:induction false} SortedCounts<T>(before: Order<T>, p: T -> bool, xs: seq<T>)
    ensures CountIf(p, Sorted(before, xs)) == CountIf(p, xs)
  {
    if xs != [] {
      SortedCounts(before, p, xs[..|xs| - 1]);
      InsertCounts(before, p, xs[|xs| - 1], Sorted(before, xs[..|xs| - 1]));
    }
  }
}
