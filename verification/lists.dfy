/**
 Lists kept the way the drilldown validator keeps them: a value is appended
 only when it is not already present, so the list holds each value once, in
 the order it was first seen.
 */
module Lists {

  predicate NoDuplicates<T(==)>(xs: seq<T>)
  {
    forall i, j :: 0 <= i < j < |xs| ==> xs[i] != xs[j]
  }

  /** The position of the first occurrence of `x` in `xs`. */
  function FirstIndex<T(==)>(xs: seq<T>, x: T): (i: nat)
    requires x in xs
    ensures i < |xs| && xs[i] == x
    ensures forall k :: 0 <= k < i ==> xs[k] != x
  {
    if xs[0] == x then 0 else 1 + FirstIndex(xs[1..], x)
  }

  lemma InConcat<T>(x: T, a: seq<T>, b: seq<T>)
    ensures x in a + b <==> x in a || x in b
  {
  }

  /** The lists `f` gives for the elements of `xs`, one after another. */
  function FlatMap<T, U>(f: T -> seq<U>, xs: seq<T>): seq<U>
    decreases |xs|
  {
    if |xs| == 0 then [] else f(xs[0]) + FlatMap(f, xs[1..])
  }

  /** An element of a flat map comes from the list of some element. */
  lemma {:induction false} InFlatMap<T, U>(f: T -> seq<U>, xs: seq<T>, x: U)
    ensures x in FlatMap(f, xs) <==> exists i :: 0 <= i < |xs| && x in f(xs[i])
    decreases |xs|
  {
    if |xs| > 0 {
      InFlatMap(f, xs[1..], x);
      InConcat(x, f(xs[0]), FlatMap(f, xs[1..]));
      if x in FlatMap(f, xs[1..]) {
        var i :| 0 <= i < |xs[1..]| && x in f(xs[1..][i]);
        assert xs[1..][i] == xs[i + 1];
      } else if x !in f(xs[0]) {
        forall i | 0 <= i < |xs|
          ensures x !in f(xs[i])
        {
          if i > 0 {
            assert xs[i] == xs[1..][i - 1];
          }
        }
      }
    }
  }

  /** Appends `x` unless it is already in `acc`. */
  function AppendNew<T(==)>(acc: seq<T>, x: T): seq<T>
  {
    if x in acc then acc else acc + [x]
  }

  /**
   Appends, one after the other, the values of `xs` not yet present. The
   old list stays a prefix, the values are those of both inputs, and no value
   is repeated when none was repeated before.
   */
  function AppendAllNew<T(==, !new)>(acc: seq<T>, xs: seq<T>): (r: seq<T>)
    ensures acc <= r
    ensures forall x :: x in r <==> x in acc || x in xs
    ensures NoDuplicates(acc) ==> NoDuplicates(r)
    decreases |xs|
  {
    if |xs| == 0 then acc else AppendAllNew(AppendNew(acc, xs[0]), xs[1..])
  }

  /** Adding two lists one after the other is adding their concatenation. */
  lemma {:induction false} AppendAllNewConcat<T(!new)>(acc: seq<T>, xs: seq<T>, ys: seq<T>)
    ensures AppendAllNew(AppendAllNew(acc, xs), ys) == AppendAllNew(acc, xs + ys)
    decreases |xs|
  {
    if |xs| == 0 {
      assert xs + ys == ys;
    } else {
      assert (xs + ys)[0] == xs[0];
      assert (xs + ys)[1..] == xs[1..] + ys;
      AppendAllNewConcat(AppendNew(acc, xs[0]), xs[1..], ys);
    }
  }

  /** `xs` with every repetition after the first removed. */
  function Dedup<T(==, !new)>(xs: seq<T>): seq<T>
  {
    AppendAllNew([], xs)
  }

  lemma {:induction false} FirstIndexConcat<T>(a: seq<T>, b: seq<T>, y: T)
    requires y in a + b
    ensures FirstIndex(a + b, y) == if y in a then FirstIndex(a, y) else |a| + FirstIndex(b, y)
  {
    if |a| > 0 {
      assert (a + b)[0] == a[0];
      if a[0] != y {
        assert (a + b)[1..] == a[1..] + b;
        FirstIndexConcat(a[1..], b, y);
      }
    } else {
      assert a + b == b;
    }
  }

  lemma FirstIndexNoDuplicates<T>(xs: seq<T>, i: nat)
    requires NoDuplicates(xs) && i < |xs|
    ensures FirstIndex(xs, xs[i]) == i
  {
  }

  /** Inserting a value that is already present earlier does not reorder first occurrences. */
  lemma FirstIndexSkipRepeat<T>(acc: seq<T>, x: T, rest: seq<T>, y: T)
    requires x in acc && y in acc + rest
    ensures FirstIndex(acc + [x] + rest, y) ==
            if y in acc then FirstIndex(acc + rest, y) else FirstIndex(acc + rest, y) + 1
  {
    assert acc + [x] + rest == acc + ([x] + rest);
    FirstIndexConcat(acc, [x] + rest, y);
    FirstIndexConcat(acc, rest, y);
    if y !in acc {
      assert y != x;
      FirstIndexConcat([x], rest, y);
    }
  }

  /** Every value of `r` occurs in `ys`, and earlier values of `r` occur earlier in `ys`. */
  ghost predicate FirstSeenOrder<T>(r: seq<T>, ys: seq<T>)
  {
    && (forall i :: 0 <= i < |r| ==> r[i] in ys)
    && (forall i, j :: 0 <= i < j < |r| ==> FirstIndex(ys, r[i]) < FirstIndex(ys, r[j]))
  }

  /** Dropping a repeated value from the input list does not change the first-seen order. */
  lemma OrderWithoutRepeat<T>(acc: seq<T>, x: T, rest: seq<T>, r: seq<T>)
    requires x in acc
    requires FirstSeenOrder(r, acc + rest)
    ensures FirstSeenOrder(r, acc + [x] + rest)
  {
    forall i | 0 <= i < |r|
      ensures r[i] in acc + [x] + rest
    {
      assert r[i] in acc + rest;
    }
    forall i, j | 0 <= i < j < |r|
      ensures FirstIndex(acc + [x] + rest, r[i]) < FirstIndex(acc + [x] + rest, r[j])
    {
      FirstIndexSkipRepeat(acc, x, rest, r[i]);
      FirstIndexSkipRepeat(acc, x, rest, r[j]);
      if r[j] in acc {
        FirstIndexConcat(acc, rest, r[i]);
        FirstIndexConcat(acc, rest, r[j]);
      }
    }
  }

  lemma AppendNewDistinct<T>(acc: seq<T>, x: T)
    requires NoDuplicates(acc)
    ensures NoDuplicates(AppendNew(acc, x))
  {
  }

  lemma ConsAssociates<T>(a: seq<T>, x: T, rest: seq<T>)
    ensures a + [x] + rest == a + ([x] + rest)
  {
  }

  lemma SameOrder<T>(r: seq<T>, ys: seq<T>, zs: seq<T>)
    requires ys == zs && FirstSeenOrder(r, ys)
    ensures FirstSeenOrder(r, zs)
  {
  }

  lemma OrderOfDistinct<T>(xs: seq<T>)
    requires NoDuplicates(xs)
    ensures FirstSeenOrder(xs, xs)
  {
    forall i | 0 <= i < |xs|
      ensures FirstIndex(xs, xs[i]) == i
    {
      FirstIndexNoDuplicates(xs, i);
    }
  }

  /** One step of `AppendAllNew` keeps the first-seen order, whether or not it adds its value. */
  lemma OrderStep<T>(acc: seq<T>, x: T, rest: seq<T>, r: seq<T>)
    requires FirstSeenOrder(r, AppendNew(acc, x) + rest)
    ensures FirstSeenOrder(r, acc + ([x] + rest))
  {
    ConsAssociates(acc, x, rest);
    if x !in acc {
      SameOrder(r, AppendNew(acc, x) + rest, acc + ([x] + rest));
    } else {
      OrderWithoutRepeat(acc, x, rest, r);
      SameOrder(r, acc + [x] + rest, acc + ([x] + rest));
    }
  }

  /**
   The values `AppendAllNew` adds keep the order in which they first appear:
   of two values in the result, the earlier one occurs first in `acc + xs`.
   */
  lemma {:induction false} AppendAllNewOrder<T(!new)>(acc: seq<T>, xs: seq<T>)
    requires NoDuplicates(acc)
    ensures FirstSeenOrder(AppendAllNew(acc, xs), acc + xs)
    decreases |xs|
  {
    if |xs| == 0 {
      assert acc + xs == acc;
      OrderOfDistinct(acc);
    } else {
      var x := xs[0];
      var rest := xs[1..];
      AppendNewDistinct(acc, x);
      AppendAllNewOrder(AppendNew(acc, x), rest);
      OrderStep(acc, x, rest, AppendAllNew(AppendNew(acc, x), rest));
      assert xs == [x] + rest;
    }
  }

  /**
   `Dedup(xs)` holds every value of `xs` exactly once, in the order of first
   appearance.
   */
  lemma DedupFirstSeen<T(!new)>(xs: seq<T>)
    ensures NoDuplicates(Dedup(xs))
    ensures forall x :: x in Dedup(xs) <==> x in xs
    ensures FirstSeenOrder(Dedup(xs), xs)
  {
    AppendAllNewOrder([], xs);
    assert [] + xs == xs;
  }
}
