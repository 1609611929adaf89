/** Python's list.sort(key=...): ascending, and stable. The contract is complete: an
    order that is sorted and keeps ties in their original order is the only one. */
module Sorting {

  ghost predicate TotalPreorder<T(!new)>(le: (T, T) -> bool) {
    && (forall x, y :: le(x, y) || le(y, x))
    && (forall x, y, z :: le(x, y) && le(y, z) ==> le(x, z))
  }

  ghost predicate SortedBy<T>(xs: seq<T>, le: (T, T) -> bool) {
    forall i, j :: 0 <= i < j < |xs| ==> le(xs[i], xs[j])
  }

  /** The elements of xs that rank level with x, in the order they stand in xs. */
  ghost function Ties<T>(xs: seq<T>, x: T, le: (T, T) -> bool): seq<T> {
    if xs == [] then []
    else (if le(x, xs[0]) && le(xs[0], x) then [xs[0]] else []) + Ties(xs[1..], x, le)
  }

  /** ys is xs sorted, with no two level elements exchanged. */
  ghost predicate StablySorts<T(!new)>(xs: seq<T>, ys: seq<T>, le: (T, T) -> bool) {
    && SortedBy(ys, le)
    && multiset(ys) == multiset(xs)
    && forall x :: Ties(ys, x, le) == Ties(xs, x, le)
  }

  /** The elements that pass, in the order they stand. */
  function Keep<T>(xs: seq<T>, passes: T -> bool): seq<T> {
    if xs == [] then []
    else
      var last := if passes(xs[|xs| - 1]) then [xs[|xs| - 1]] else [];
      Keep(xs[..|xs| - 1], passes) + last
  }

  lemma {:induction false} KeepCounts<T(!new)>(xs: seq<T>, passes: T -> bool)
    ensures forall x :: multiset(Keep(xs, passes))[x] == if passes(x) then multiset(xs)[x] else 0
  {
    if xs != [] {
      KeepCounts(xs[..|xs| - 1], passes);
      assert xs == xs[..|xs| - 1] + [xs[|xs| - 1]];
    }
  }

  /** Keeping what passes and keeping what fails loses nothing and doubles nothing. */
  lemma KeepPartitions<T(!new)>(xs: seq<T>, passes: T -> bool, fails: T -> bool)
    requires forall x :: fails(x) == !passes(x)
    ensures multiset(Keep(xs, passes)) + multiset(Keep(xs, fails)) == multiset(xs)
  {
    KeepCounts(xs, passes);
    KeepCounts(xs, fails);
  }

  lemma KeepHolds<T(!new)>(xs: seq<T>, passes: T -> bool)
    ensures forall x :: x in Keep(xs, passes) <==> x in xs && passes(x)
  {
    KeepCounts(xs, passes);
    forall x ensures x in Keep(xs, passes) <==> x in xs && passes(x) {
      assert x in Keep(xs, passes) <==> multiset(Keep(xs, passes))[x] > 0;
      assert x in xs <==> multiset(xs)[x] > 0;
    }
  }

  function Insert<T>(x: T, xs: seq<T>, le: (T, T) -> bool): seq<T> {
    if xs == [] || le(x, xs[0]) then [x] + xs else [xs[0]] + Insert(x, xs[1..], le)
  }

  function StableSort<T>(xs: seq<T>, le: (T, T) -> bool): seq<T> {
    if xs == [] then [] else Insert(xs[0], StableSort(xs[1..], le), le)
  }

  lemma {:induction false} InsertSorts<T(!new)>(x: T, xs: seq<T>, le: (T, T) -> bool)
    requires TotalPreorder(le) && SortedBy(xs, le)
    ensures SortedBy(Insert(x, xs, le), le)
    ensures multiset(Insert(x, xs, le)) == multiset{x} + multiset(xs)
  {
    if xs == [] || le(x, xs[0]) {
    } else {
      var rest := Insert(x, xs[1..], le);
      InsertSorts(x, xs[1..], le);
      assert xs == [xs[0]] + xs[1..];
      HeadStaysFirst(xs[0], x, xs[1..], rest, le);
    }
  }

  lemma HeadStaysFirst<T(!new)>(head: T, x: T, xs: seq<T>, rest: seq<T>, le: (T, T) -> bool)
    requires le(head, x) && SortedBy([head] + xs, le)
    requires multiset(rest) == multiset{x} + multiset(xs) && SortedBy(rest, le)
    ensures SortedBy([head] + rest, le)
  {
    forall k | 0 <= k < |rest| ensures le(head, rest[k]) {
      assert rest[k] in multiset(rest);
      if rest[k] != x {
        var j :| 0 <= j < |xs| && xs[j] == rest[k];
        assert ([head] + xs)[0] == head && ([head] + xs)[j + 1] == xs[j];
      }
    }
  }

  lemma {:induction false} InsertKeepsTies<T(!new)>(x: T, xs: seq<T>, y: T, le: (T, T) -> bool)
    requires TotalPreorder(le) && SortedBy(xs, le)
    ensures Ties(Insert(x, xs, le), y, le) == Ties([x] + xs, y, le)
  {
    assert ([x] + xs)[1..] == xs;
    if xs == [] || le(x, xs[0]) {
    } else {
      InsertKeepsTies(x, xs[1..], y, le);
      assert ([x] + xs[1..])[1..] == xs[1..];
      var rest := Insert(x, xs[1..], le);
      var head := xs[0];
      assert ([head] + rest)[1..] == rest;
      assert !(le(y, x) && le(x, y) && le(y, head) && le(head, y));
    }
  }

  lemma {:induction false} StableSortSorts<T(!new)>(xs: seq<T>, le: (T, T) -> bool)
    requires TotalPreorder(le)
    ensures StablySorts(xs, StableSort(xs, le), le)
  {
    if xs != [] {
      var rest := StableSort(xs[1..], le);
      StableSortSorts(xs[1..], le);
      InsertSorts(xs[0], rest, le);
      assert xs == [xs[0]] + xs[1..];
      forall y ensures Ties(StableSort(xs, le), y, le) == Ties(xs, y, le) {
        InsertKeepsTies(xs[0], rest, y, le);
        assert ([xs[0]] + rest)[1..] == rest;
      }
    }
  }

  lemma {:induction false} TiesMember<T(!new)>(xs: seq<T>, x: T, le: (T, T) -> bool)
    ensures Ties(xs, x, le) != [] <==> exists k :: 0 <= k < |xs| && le(x, xs[k]) && le(xs[k], x)
  {
    if xs != [] {
      TiesMember(xs[1..], x, le);
      if k :| 0 <= k < |xs| && le(x, xs[k]) && le(xs[k], x) {
        if k > 0 { assert xs[1..][k - 1] == xs[k]; }
      }
    }
  }

  /** Two sorted arrangements that agree on every class of ties are the same list. */
  lemma {:induction false} StableOrderIsUnique<T(!new)>(a: seq<T>, b: seq<T>, le: (T, T) -> bool)
    requires TotalPreorder(le) && SortedBy(a, le) && SortedBy(b, le)
    requires |a| == |b|
    requires forall x :: Ties(a, x, le) == Ties(b, x, le)
    ensures a == b
  {
    if a != [] {
      TiesMember(a, a[0], le);
      TiesMember(b, a[0], le);
      var k :| 0 <= k < |b| && le(a[0], b[k]) && le(b[k], a[0]);
      TiesMember(b, b[0], le);
      TiesMember(a, b[0], le);
      var j :| 0 <= j < |a| && le(b[0], a[j]) && le(a[j], b[0]);
      assert Ties(a, a[0], le)[0] == a[0];
      assert le(b[0], b[k]) && le(a[0], a[j]);
      assert Ties(b, a[0], le)[0] == b[0];
      forall x ensures Ties(a[1..], x, le) == Ties(b[1..], x, le) {
        assert Ties(a, x, le) == Ties(b, x, le);
        var head := if le(x, a[0]) && le(a[0], x) then [a[0]] else [];
        assert Ties(a, x, le) == head + Ties(a[1..], x, le);
        assert Ties(b, x, le) == head + Ties(b[1..], x, le);
        assert Ties(a[1..], x, le) == Ties(a, x, le)[|head|..];
      }
      StableOrderIsUnique(a[1..], b[1..], le);
      assert a == [a[0]] + a[1..] && b == [b[0]] + b[1..];
    }
  }

  /** A list is stably sorted in exactly one way, and StableSort finds it. */
  lemma StableSortIsTheOnlyOne<T(!new)>(xs: seq<T>, ys: seq<T>, le: (T, T) -> bool)
    requires TotalPreorder(le)
    ensures StablySorts(xs, ys, le) <==> ys == StableSort(xs, le)
  {
    StableSortSorts(xs, le);
    if StablySorts(xs, ys, le) {
      var zs := StableSort(xs, le);
      forall x ensures Ties(ys, x, le) == Ties(zs, x, le) {
        assert Ties(ys, x, le) == Ties(xs, x, le) && Ties(zs, x, le) == Ties(xs, x, le);
      }
      assert |multiset(ys)| == |multiset(zs)|;
      StableOrderIsUnique(ys, zs, le);
    }
  }
}
