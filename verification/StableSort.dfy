/** Stable sorting, as sort.SliceStable and sort.Strings promise it. The sorted
    order of a sequence is determined by that promise alone (`Unique`), so it
    does not matter which stable algorithm a library uses. */
module StableSort {

  /** `before` is a strict weak order: what a comparison function must be. */
  ghost predicate StrictWeak<T(!new)>(before: (T, T) -> bool) {
    && (forall a, b :: before(a, b) ==> !before(b, a))
    && (forall a, b, c :: !before(a, b) && !before(b, c) ==> !before(a, c))
  }

  predicate Tied<T>(before: (T, T) -> bool, a: T, b: T) {
    !before(a, b) && !before(b, a)
  }

  ghost predicate Sorted<T>(xs: seq<T>, before: (T, T) -> bool) {
    forall i, j :: 0 <= i < j < |xs| ==> !before(xs[j], xs[i])
  }

  /** The elements of `xs` that tie with `z`, in their order in `xs`. */
  function TiedWith<T>(xs: seq<T>, z: T, before: (T, T) -> bool): seq<T> {
    if xs == [] then []
    else (if Tied(before, xs[0], z) then [xs[0]] else []) + TiedWith(xs[1..], z, before)
  }

  /** `ys` is `xs` sorted stably: in order, and elements that tie keep their
      order (which also says that no element is lost, added or duplicated). */
  ghost predicate IsStableSort<T(!new)>(xs: seq<T>, ys: seq<T>, before: (T, T) -> bool) {
    && Sorted(ys, before)
    && forall z :: TiedWith(ys, z, before) == TiedWith(xs, z, before)
  }

  function Insert<T>(x: T, ys: seq<T>, before: (T, T) -> bool): seq<T> {
    if ys == [] then [x]
    else if before(ys[0], x) then [ys[0]] + Insert(x, ys[1..], before)
    else [x] + ys
  }

  function Sort<T>(xs: seq<T>, before: (T, T) -> bool): seq<T> {
    if xs == [] then [] else Insert(xs[0], Sort(xs[1..], before), before)
  }

  lemma {:induction false} InsertMembers<T>(x: T, ys: seq<T>, before: (T, T) -> bool)
    ensures multiset(Insert(x, ys, before)) == multiset{x} + multiset(ys)
  {
    if ys != [] {
      assert ys == [ys[0]] + ys[1..];
      if before(ys[0], x) {
        InsertMembers(x, ys[1..], before);
      }
    }
  }

  lemma {:induction false} InsertKeepsSorted<T(!new)>(x: T, ys: seq<T>, before: (T, T) -> bool)
    requires StrictWeak(before) && Sorted(ys, before)
    ensures Sorted(Insert(x, ys, before), before)
  {
    if ys != [] {
      if before(ys[0], x) {
        var zs := Insert(x, ys[1..], before);
        InsertKeepsSorted(x, ys[1..], before);
        InsertMembers(x, ys[1..], before);
        forall j | 0 <= j < |zs| ensures !before(zs[j], ys[0]) {
          assert zs[j] in multiset(zs);
          assert zs[j] == x || zs[j] in ys[1..];
        }
      } else {
        forall j | 0 <= j < |ys| ensures !before(ys[j], x) {
          assert j > 0 ==> !before(ys[j], ys[0]);
        }
      }
    }
  }

  /** Of two elements in a strict order, at most one ties with a third. */
  lemma {:induction false} OrderedAreNotBothTied<T(!new)>(a: T, b: T, z: T, before: (T, T) -> bool)
    requires StrictWeak(before) && before(a, b)
    ensures !(Tied(before, a, z) && Tied(before, b, z))
  {
  }

  lemma {:induction false} TiedWithFirst<T>(y: T, ys: seq<T>, z: T, before: (T, T) -> bool)
    ensures TiedWith([y] + ys, z, before) == (if Tied(before, y, z) then [y] else []) + TiedWith(ys, z, before)
  {
    assert ([y] + ys)[1..] == ys;
  }

  lemma {:induction false} InsertIsStable<T(!new)>(x: T, ys: seq<T>, z: T, before: (T, T) -> bool)
    requires StrictWeak(before)
    ensures TiedWith(Insert(x, ys, before), z, before)
         == (if Tied(before, x, z) then [x] else []) + TiedWith(ys, z, before)
  {
    hide StrictWeak, Tied, TiedWith;
    if ys != [] && before(ys[0], x) {
      var y, rest := ys[0], ys[1..];
      assert ys == [y] + rest;
      TiedWithFirst(y, rest, z, before);
      TiedWithFirst(y, Insert(x, rest, before), z, before);
      InsertIsStable(x, rest, z, before);
      OrderedAreNotBothTied(y, x, z, before);
    } else {
      TiedWithFirst(x, ys, z, before);
      assert ys == [] ==> [x] == [x] + ys;
    }
  }

  lemma {:induction false} SortIsStable<T(!new)>(xs: seq<T>, before: (T, T) -> bool)
    requires StrictWeak(before)
    ensures IsStableSort(xs, Sort(xs, before), before)
    ensures multiset(Sort(xs, before)) == multiset(xs)
  {
    if xs != [] {
      var rest := Sort(xs[1..], before);
      assert xs == [xs[0]] + xs[1..];
      SortIsStable(xs[1..], before);
      InsertKeepsSorted(xs[0], rest, before);
      InsertMembers(xs[0], rest, before);
      forall z ensures TiedWith(Sort(xs, before), z, before) == TiedWith(xs, z, before) {
        InsertIsStable(xs[0], rest, z, before);
      }
    }
  }

  lemma {:induction false} TiedWithMembers<T>(xs: seq<T>, z: T, before: (T, T) -> bool)
    ensures forall e :: e in TiedWith(xs, z, before) <==> e in xs && Tied(before, e, z)
  {
    if xs != [] {
      assert xs == [xs[0]] + xs[1..];
      TiedWithMembers(xs[1..], z, before);
    }
  }

  /** The smallest element of one stable sort is the smallest of any other. */
  lemma {:induction false} SameHead<T(!new)>(xs: seq<T>, ys: seq<T>, before: (T, T) -> bool)
    requires StrictWeak(before) && Sorted(xs, before) && Sorted(ys, before) && xs != []
    requires forall z :: TiedWith(xs, z, before) == TiedWith(ys, z, before)
    ensures ys != [] && ys[0] == xs[0]
  {
    var x := xs[0];
    TiedWithMembers(xs, x, before);
    TiedWithMembers(ys, x, before);
    assert x in TiedWith(ys, x, before);
    var y := ys[0];
    TiedWithMembers(xs, y, before);
    TiedWithMembers(ys, y, before);
    assert y in TiedWith(xs, y, before);
    assert !before(x, y) && !before(y, x);
    assert TiedWith(xs, x, before)[0] == x && TiedWith(ys, x, before)[0] == y;
  }

  /** There is only one stable sort of a sequence. */
  lemma {:induction false} Unique<T(!new)>(xs: seq<T>, ys: seq<T>, before: (T, T) -> bool)
    requires StrictWeak(before) && Sorted(xs, before) && Sorted(ys, before)
    requires forall z :: TiedWith(xs, z, before) == TiedWith(ys, z, before)
    ensures xs == ys
  {
    if xs == [] {
      if ys != [] {
        SameHead(ys, xs, before);
      }
    } else {
      SameHead(xs, ys, before);
      forall z ensures TiedWith(xs[1..], z, before) == TiedWith(ys[1..], z, before) {
        var head := if Tied(before, xs[0], z) then [xs[0]] else [];
        assert TiedWith(xs, z, before) == head + TiedWith(xs[1..], z, before);
        assert TiedWith(ys, z, before) == head + TiedWith(ys[1..], z, before);
        assert TiedWith(xs[1..], z, before) == TiedWith(xs, z, before)[|head|..];
        assert TiedWith(ys[1..], z, before) == TiedWith(ys, z, before)[|head|..];
      }
      Unique(xs[1..], ys[1..], before);
    }
  }

  /** `Sort` is the stable sort: exactly one sequence qualifies. */
  lemma {:induction false} StableSortIsSort<T(!new)>(xs: seq<T>, ys: seq<T>, before: (T, T) -> bool)
    requires StrictWeak(before)
    ensures IsStableSort(xs, ys, before) <==> ys == Sort(xs, before)
  {
    SortIsStable(xs, before);
    if IsStableSort(xs, ys, before) {
      Unique(ys, Sort(xs, before), before);
    }
  }

  lemma {:induction false} RepeatsCountTwice<T>(ys: seq<T>, i: nat, j: nat)
    requires i < j < |ys|
    ensures ys[i] == ys[j] ==> multiset(ys)[ys[j]] >= 2
  {
    assert ys == ys[..j] + [ys[j]] + ys[j + 1..];
    if ys[i] == ys[j] {
      assert ys[..j][i] == ys[j];
      assert ys[j] in multiset(ys[..j]);
    }
  }

  // ---------------------------------------------------------------------
  // Relative order
  // ---------------------------------------------------------------------

  /** Some occurrence of `a` comes before some occurrence of `b`. */
  ghost predicate Precedes<T>(xs: seq<T>, a: T, b: T) {
    exists i, j :: 0 <= i < j < |xs| && xs[i] == a && xs[j] == b
  }

  lemma {:induction false} PrecedesStep<T>(xs: seq<T>, a: T, b: T)
    requires xs != []
    ensures Precedes(xs, a, b) <==> (xs[0] == a && b in xs[1..]) || Precedes(xs[1..], a, b)
  {
    var rest := xs[1..];
    if Precedes(xs, a, b) {
      var i, j :| 0 <= i < j < |xs| && xs[i] == a && xs[j] == b;
      assert xs[j] == rest[j - 1];
      assert i > 0 ==> xs[i] == rest[i - 1];
    }
    if xs[0] == a && b in rest {
      var j :| 0 <= j < |rest| && rest[j] == b;
      assert xs[0] == a && xs[j + 1] == b;
    }
    if Precedes(rest, a, b) {
      var i, j :| 0 <= i < j < |rest| && rest[i] == a && rest[j] == b;
      assert xs[i + 1] == a && xs[j + 1] == b;
    }
  }

  lemma {:induction false} TiedKeepsOrder<T>(xs: seq<T>, z: T, a: T, b: T, before: (T, T) -> bool)
    requires Tied(before, a, z) && Tied(before, b, z)
    ensures Precedes(TiedWith(xs, z, before), a, b) <==> Precedes(xs, a, b)
  {
    if xs != [] {
      var tied, rest := TiedWith(xs, z, before), TiedWith(xs[1..], z, before);
      TiedKeepsOrder(xs[1..], z, a, b, before);
      PrecedesStep(xs, a, b);
      TiedWithMembers(xs[1..], z, before);
      if Tied(before, xs[0], z) {
        assert tied[1..] == rest;
        PrecedesStep(tied, a, b);
      } else {
        assert tied == rest;
      }
    }
  }

  /** A stable sort never changes the relative order of elements that tie. */
  lemma {:induction false} TiesKeepOrder<T(!new)>(xs: seq<T>, a: T, b: T, before: (T, T) -> bool)
    requires StrictWeak(before) && Tied(before, a, b)
    ensures Precedes(Sort(xs, before), a, b) <==> Precedes(xs, a, b)
  {
    SortIsStable(xs, before);
    assert Tied(before, a, a);
    TiedKeepsOrder(xs, a, a, b, before);
    TiedKeepsOrder(Sort(xs, before), a, a, b, before);
  }
}
