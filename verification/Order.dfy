// Sorted windows: stable insertion into a sorted sequence, what sorting by
// repeated insertion means, and why keeping only the last few elements after
// each insertion is the same as sorting everything and then cutting.
module Order {
  import opened Base

  // A three-way comparison, negative, zero or positive.
  type Cmp<!T> = (T, T) -> int

  predicate Antisymmetric<T>(cmp: Cmp<T>, a: T, b: T) {
    (cmp(a, b) <= 0 <==> cmp(b, a) >= 0) && (cmp(a, b) >= 0 <==> cmp(b, a) <= 0)
  }

  predicate Transitive<T>(cmp: Cmp<T>, a: T, b: T, c: T) {
    cmp(a, b) <= 0 && cmp(b, c) <= 0 ==> cmp(a, c) <= 0
  }

  // A total preorder: ties are allowed, and hold between equivalent elements.
  ghost predicate Ordering<T(!new)>(cmp: Cmp<T>) {
    (forall a, b :: Antisymmetric(cmp, a, b)) && (forall a, b, c :: Transitive(cmp, a, b, c))
  }

  ghost predicate Sorted<T>(cmp: Cmp<T>, s: seq<T>) {
    forall i, j :: 0 <= i < j < |s| ==> cmp(s[i], s[j]) <= 0
  }

  // The stable position of x: just after the last element not above it.
  function Place<T>(cmp: Cmp<T>, s: seq<T>, x: T, i: nat): (p: nat)
    requires i <= |s|
    ensures i <= p <= |s|
    decreases |s| - i
  {
    if i == |s| || cmp(s[i], x) > 0 then i else Place(cmp, s, x, i + 1)
  }

  function Insert<T>(cmp: Cmp<T>, s: seq<T>, x: T): seq<T> {
    var p := Place(cmp, s, x, 0);
    s[..p] + [x] + s[p..]
  }

  // In a sorted sequence the position splits what is not above x from what is.
  lemma {:induction false} PlaceSplits<T(!new)>(cmp: Cmp<T>, s: seq<T>, x: T, i: nat)
    requires Ordering(cmp) && Sorted(cmp, s) && i <= |s|
    ensures var p := Place(cmp, s, x, i);
      && (forall k :: i <= k < p ==> cmp(s[k], x) <= 0)
      && (forall k :: p <= k < |s| ==> cmp(s[k], x) > 0)
    decreases |s| - i
  {
    if i < |s| {
      if cmp(s[i], x) > 0 {
        forall k | i <= k < |s|
          ensures cmp(s[k], x) > 0
        {
          assert Transitive(cmp, s[i], s[k], x);
        }
      } else {
        PlaceSplits(cmp, s, x, i + 1);
      }
    }
  }

  lemma {:induction false} PlaceIs<T>(cmp: Cmp<T>, s: seq<T>, x: T, i: nat, p: nat)
    requires i <= p <= |s|
    requires forall k :: i <= k < p ==> cmp(s[k], x) <= 0
    requires p < |s| ==> cmp(s[p], x) > 0
    ensures Place(cmp, s, x, i) == p
    decreases p - i
  {
    if i < p {
      PlaceIs(cmp, s, x, i + 1, p);
    }
  }

  lemma InsertSorts<T(!new)>(cmp: Cmp<T>, s: seq<T>, x: T)
    requires Ordering(cmp) && Sorted(cmp, s)
    ensures Sorted(cmp, Insert(cmp, s, x))
    ensures multiset(Insert(cmp, s, x)) == multiset(s) + multiset{x}
  {
    var p, r := Place(cmp, s, x, 0), Insert(cmp, s, x);
    PlaceSplits(cmp, s, x, 0);
    SpliceCounts(s, x, p);
    forall i, j | 0 <= i < j < |r|
      ensures cmp(r[i], r[j]) <= 0
    {
      SpliceIndex(s, x, p, i);
      SpliceIndex(s, x, p, j);
      if j == p {
      } else if i == p {
        assert Antisymmetric(cmp, x, s[j - 1]);
      }
    }
  }

  lemma SpliceIndex<T>(s: seq<T>, x: T, p: nat, i: nat)
    requires p <= |s| && i <= |s|
    ensures (s[..p] + [x] + s[p..])[i] == if i < p then s[i] else if i == p then x else s[i - 1]
  {
  }

  lemma SpliceCounts<T>(s: seq<T>, x: T, p: nat)
    requires p <= |s|
    ensures multiset(s[..p] + [x] + s[p..]) == multiset(s) + multiset{x}
  {
    assert s == s[..p] + s[p..];
  }

  // Sorting by repeated insertion, in arrival order.
  function SortAll<T>(cmp: Cmp<T>, xs: seq<T>): seq<T> {
    if xs == [] then [] else Insert(cmp, SortAll(cmp, xs[..|xs| - 1]), xs[|xs| - 1])
  }

  lemma {:induction false} SortAllSorts<T(!new)>(cmp: Cmp<T>, xs: seq<T>)
    requires Ordering(cmp)
    ensures Sorted(cmp, SortAll(cmp, xs)) && multiset(SortAll(cmp, xs)) == multiset(xs)
  {
    if xs != [] {
      var front, x := xs[..|xs| - 1], xs[|xs| - 1];
      SortAllSorts(cmp, front);
      InsertSorts(cmp, SortAll(cmp, front), x);
      assert xs == front + [x];
    }
  }

  // The last cap elements.
  function Last<T>(cap: nat, s: seq<T>): (r: seq<T>) {
    if |s| <= cap then s else s[|s| - cap..]
  }

  // Inserting into the window and cutting is inserting into everything and
  // cutting: what was dropped never matters again.
  lemma {:induction false} WindowInsert<T(!new)>(cmp: Cmp<T>, s: seq<T>, x: T, cap: nat)
    requires Ordering(cmp) && Sorted(cmp, s)
    ensures Last(cap, Insert(cmp, Last(cap, s), x)) == Last(cap, Insert(cmp, s, x))
  {
    if |s| > cap {
      var w, p := Last(cap, s), Place(cmp, s, x, 0);
      PlaceInTail(cmp, s, x, |s| - cap);
      InsertAt(cmp, s, x, p);
      if p < |s| - cap {
        InsertAt(cmp, w, x, 0);
        CutBefore(s, x, p, cap, Insert(cmp, w, x), Insert(cmp, s, x));
      } else {
        InsertAt(cmp, w, x, p - (|s| - cap));
        CutAfter(s, x, p, cap, Insert(cmp, w, x), Insert(cmp, s, x));
      }
    }
  }

  lemma {:induction false} InsertAt<T>(cmp: Cmp<T>, s: seq<T>, x: T, p: nat)
    requires Place(cmp, s, x, 0) == p
    ensures Insert(cmp, s, x) == s[..p] + [x] + s[p..]
  {
  }

  lemma PlaceInTail<T(!new)>(cmp: Cmp<T>, s: seq<T>, x: T, d: nat)
    requires Ordering(cmp) && Sorted(cmp, s) && d <= |s|
    ensures var p := Place(cmp, s, x, 0); Place(cmp, s[d..], x, 0) == if p < d then 0 else p - d
  {
    var p := Place(cmp, s, x, 0);
    PlaceSplits(cmp, s, x, 0);
    PlaceIs(cmp, s[d..], x, 0, if p < d then 0 else p - d);
  }

  lemma CutBefore<T>(s: seq<T>, x: T, p: nat, cap: nat, few: seq<T>, many: seq<T>)
    requires |s| > cap && p < |s| - cap
    requires var w := s[|s| - cap..]; few == w[..0] + [x] + w[0..]
    requires many == s[..p] + [x] + s[p..]
    ensures Last(cap, few) == Last(cap, many)
  {
    var w := s[|s| - cap..];
    assert few == [x] + w;
    assert Last(cap, few) == w;
    assert many[|many| - cap..] == w;
  }

  lemma CutAfter<T>(s: seq<T>, x: T, p: nat, cap: nat, few: seq<T>, many: seq<T>)
    requires |s| > cap && |s| - cap <= p <= |s|
    requires var w, q := s[|s| - cap..], p - (|s| - cap); few == w[..q] + [x] + w[q..]
    requires many == s[..p] + [x] + s[p..]
    ensures Last(cap, few) == Last(cap, many)
  {
    assert many == s[..|s| - cap] + few;
  }

  // What sorting and cutting leaves out is not above anything it keeps, of
  // which there are then as many as it may keep.
  lemma LeftOutIsBelow<T(!new)>(cmp: Cmp<T>, xs: seq<T>, cap: nat, x: T)
    requires Ordering(cmp) && x in xs
    ensures var kept := Last(cap, SortAll(cmp, xs));
      x in kept || (|kept| == cap && forall y :: y in kept ==> cmp(x, y) <= 0)
  {
    var s := SortAll(cmp, xs);
    SortAllSorts(cmp, xs);
    SortAllHolds(cmp, xs);
    var k :| 0 <= k < |s| && s[k] == x;
    if |s| > cap {
      var cut := |s| - cap;
      assert k >= cut ==> s[cut..][k - cut] == x;
    }
  }


  // The elements that tie with k, in order.
  function Ties<T>(cmp: Cmp<T>, s: seq<T>, k: T): seq<T> {
    if s == [] then [] else (if cmp(s[0], k) == 0 then [s[0]] else []) + Ties(cmp, s[1..], k)
  }

  // What a stable sort is: sorted, with every group of ties in its old order.
  ghost predicate IsStableSort<T(!new)>(cmp: Cmp<T>, xs: seq<T>, ys: seq<T>) {
    Sorted(cmp, ys) && forall k :: Ties(cmp, ys, k) == Ties(cmp, xs, k)
  }

  lemma {:induction false} TiesAppend<T>(cmp: Cmp<T>, a: seq<T>, b: seq<T>, k: T)
    ensures Ties(cmp, a + b, k) == Ties(cmp, a, k) + Ties(cmp, b, k)
  {
    if a == [] {
      assert a + b == b;
    } else {
      TailOfAppend(a, b);
      TiesAppend(cmp, a[1..], b, k);
      Associative(if cmp(a[0], k) == 0 then [a[0]] else [], Ties(cmp, a[1..], k), Ties(cmp, b, k));
    }
  }

  lemma {:induction false} NoTies<T>(cmp: Cmp<T>, s: seq<T>, k: T)
    requires forall x :: x in s ==> cmp(x, k) != 0
    ensures Ties(cmp, s, k) == []
  {
    if s != [] {
      NoTies(cmp, s[1..], k);
    }
  }

  lemma TiesOfInsert<T(!new)>(cmp: Cmp<T>, s: seq<T>, x: T, k: T)
    requires Ordering(cmp) && Sorted(cmp, s)
    ensures Ties(cmp, Insert(cmp, s, x), k) == Ties(cmp, s + [x], k)
  {
    var p := Place(cmp, s, x, 0);
    PlaceSplits(cmp, s, x, 0);
    SplitAt(s, p);
    if cmp(x, k) == 0 {
      forall y | y in s[p..]
        ensures cmp(y, k) != 0
      {
        assert Antisymmetric(cmp, x, k) && Transitive(cmp, y, k, x);
      }
      NoTies(cmp, s[p..], k);
    }
    TiesOfSplice(cmp, s[..p], x, s[p..], k);
  }

  lemma TiesOfSplice<T>(cmp: Cmp<T>, a: seq<T>, x: T, b: seq<T>, k: T)
    requires cmp(x, k) == 0 ==> Ties(cmp, b, k) == []
    ensures Ties(cmp, a + [x] + b, k) == Ties(cmp, a + b + [x], k)
  {
    var ta, tx, tb := Ties(cmp, a, k), Ties(cmp, [x], k), Ties(cmp, b, k);
    TiesAppend(cmp, a + [x], b, k);
    TiesAppend(cmp, a, [x], k);
    TiesAppend(cmp, a + b, [x], k);
    TiesAppend(cmp, a, b, k);
    assert tb == [] || tx == [] by {
      assert [x][1..] == [];
    }
    assert ta + tx + tb == ta + tb + tx;
  }

  lemma {:induction false} SortAllIsStable<T(!new)>(cmp: Cmp<T>, xs: seq<T>)
    requires Ordering(cmp)
    ensures IsStableSort(cmp, xs, SortAll(cmp, xs))
  {
    SortAllSorts(cmp, xs);
    forall k
      ensures Ties(cmp, SortAll(cmp, xs), k) == Ties(cmp, xs, k)
    {
      SameTies(cmp, xs, k);
    }
  }

  lemma {:induction false} SameTies<T(!new)>(cmp: Cmp<T>, xs: seq<T>, k: T)
    requires Ordering(cmp)
    ensures Ties(cmp, SortAll(cmp, xs), k) == Ties(cmp, xs, k)
  {
    if xs != [] {
      var front, x := xs[..|xs| - 1], xs[|xs| - 1];
      SameTies(cmp, front, k);
      SortAllSorts(cmp, front);
      TiesOfInsert(cmp, SortAll(cmp, front), x, k);
      TiesAppend(cmp, SortAll(cmp, front), [x], k);
      TiesAppend(cmp, front, [x], k);
      assert xs == front + [x];
    }
  }

  lemma {:induction false} TiesHold<T>(cmp: Cmp<T>, s: seq<T>, k: T)
    ensures forall x :: x in Ties(cmp, s, k) <==> x in s && cmp(x, k) == 0
  {
    if s != [] {
      TiesHold(cmp, s[1..], k);
      assert forall x :: x in s <==> x == s[0] || x in s[1..];
    }
  }

  // There is only one stable sort.
  lemma {:induction false} StableSortIsUnique<T(!new)>(cmp: Cmp<T>, a: seq<T>, b: seq<T>)
    requires Ordering(cmp) && Sorted(cmp, a) && Sorted(cmp, b)
    requires forall k :: Ties(cmp, a, k) == Ties(cmp, b, k)
    ensures a == b
  {
    if a == [] || b == [] {
      EmptyTwin(cmp, a, b);
      EmptyTwin(cmp, b, a);
    } else {
      FirstIsLeast(cmp, a, b);
      FirstIsLeast(cmp, b, a);
      assert Antisymmetric(cmp, a[0], b[0]) && Antisymmetric(cmp, a[0], a[0]);
      assert Ties(cmp, a, a[0])[0] == a[0] && Ties(cmp, b, a[0])[0] == b[0];
      forall k
        ensures Ties(cmp, a[1..], k) == Ties(cmp, b[1..], k)
      {
        assert Ties(cmp, a, k) == Ties(cmp, b, k);
        DropSame(if cmp(a[0], k) == 0 then [a[0]] else [], Ties(cmp, a[1..], k), Ties(cmp, b[1..], k));
      }
      StableSortIsUnique(cmp, a[1..], b[1..]);
    }
  }

  lemma DropSame<T>(p: seq<T>, a: seq<T>, b: seq<T>)
    requires p + a == p + b
    ensures a == b
  {
    assert (p + a)[|p|..] == a && (p + b)[|p|..] == b;
  }

  lemma EmptyTwin<T(!new)>(cmp: Cmp<T>, a: seq<T>, b: seq<T>)
    requires Ordering(cmp) && forall k :: Ties(cmp, a, k) == Ties(cmp, b, k)
    ensures a == [] ==> b == []
  {
    if b != [] {
      assert Antisymmetric(cmp, b[0], b[0]);
      assert Ties(cmp, b, b[0])[0] == b[0];
      assert Ties(cmp, a, b[0]) == Ties(cmp, b, b[0]);
    }
  }

  lemma FirstIsLeast<T(!new)>(cmp: Cmp<T>, a: seq<T>, b: seq<T>)
    requires Ordering(cmp) && a != [] && b != [] && Sorted(cmp, b)
    requires forall k :: Ties(cmp, a, k) == Ties(cmp, b, k)
    ensures cmp(b[0], a[0]) <= 0
  {
    var k := a[0];
    TiesHold(cmp, a, k);
    TiesHold(cmp, b, k);
    assert Antisymmetric(cmp, k, k) && k in Ties(cmp, a, k);
    assert Ties(cmp, a, k) == Ties(cmp, b, k);
  }

  // No two elements tie.
  ghost predicate NoTwins<T>(cmp: Cmp<T>, s: seq<T>) {
    forall i, j :: 0 <= i < j < |s| ==> cmp(s[i], s[j]) != 0
  }

  lemma {:induction false} TiesCount<T>(cmp: Cmp<T>, s: seq<T>, k: T, x: T)
    ensures multiset(Ties(cmp, s, k))[x] == if cmp(x, k) == 0 then multiset(s)[x] else 0
  {
    if s != [] {
      TiesCount(cmp, s[1..], k, x);
      assert s == [s[0]] + s[1..];
    }
  }

  lemma {:induction false} AtMostOneTie<T(!new)>(cmp: Cmp<T>, s: seq<T>, k: T)
    requires Ordering(cmp) && NoTwins(cmp, s)
    ensures |Ties(cmp, s, k)| <= 1
  {
    if s != [] {
      AtMostOneTie(cmp, s[1..], k);
      if cmp(s[0], k) == 0 {
        forall x | x in s[1..]
          ensures cmp(x, k) != 0
        {
          var i :| 1 <= i < |s| && s[i] == x;
          assert Antisymmetric(cmp, s[0], k) && Antisymmetric(cmp, x, k) && Antisymmetric(cmp, s[0], x);
          assert Transitive(cmp, s[0], k, x) && Transitive(cmp, x, k, s[0]);
        }
        NoTies(cmp, s[1..], k);
      }
    }
  }

  lemma {:induction false} TwoTies<T>(cmp: Cmp<T>, s: seq<T>, i: nat, j: nat, k: T)
    requires i < j < |s| && cmp(s[i], k) == 0 && cmp(s[j], k) == 0
    ensures |Ties(cmp, s, k)| >= 2
  {
    SplitAt(s, j);
    TiesAppend(cmp, s[..j], s[j..], k);
    TiesHold(cmp, s[..j], k);
    TiesHold(cmp, s[j..], k);
    assert s[..j][i] == s[i] && s[j..][0] == s[j];
    assert s[i] in Ties(cmp, s[..j], k) && s[j] in Ties(cmp, s[j..], k);
  }

  lemma NoTwinsSurvive<T(!new)>(cmp: Cmp<T>, xs: seq<T>)
    requires Ordering(cmp) && NoTwins(cmp, xs)
    ensures NoTwins(cmp, SortAll(cmp, xs))
  {
    var s := SortAll(cmp, xs);
    forall i, j | 0 <= i < j < |s|
      ensures cmp(s[i], s[j]) != 0
    {
      if cmp(s[i], s[j]) == 0 {
        AtMostOneTie(cmp, xs, s[j]);
        SameTies(cmp, xs, s[j]);
        assert Antisymmetric(cmp, s[j], s[j]);
        TwoTies(cmp, s, i, j, s[j]);
      }
    }
  }

  lemma SortAllHolds<T(!new)>(cmp: Cmp<T>, xs: seq<T>)
    requires Ordering(cmp)
    ensures forall x :: x in SortAll(cmp, xs) <==> x in xs
  {
    SortAllSorts(cmp, xs);
    forall x
      ensures x in SortAll(cmp, xs) <==> x in xs
    {
      assert x in multiset(SortAll(cmp, xs)) <==> x in multiset(xs);
    }
  }

  lemma SameOne<T>(a: seq<T>, b: seq<T>)
    requires |a| <= 1 && multiset(a) == multiset(b)
    ensures a == b
  {
    assert |multiset(a)| == |a| && |multiset(b)| == |b|;
    if a != [] {
      assert b[0] in multiset(b);
    }
  }

  // Elements that tie came in the same order.
  ghost predicate SameTieOrder<T(!new)>(cmp: Cmp<T>, xs: seq<T>, ys: seq<T>) {
    forall k :: Ties(cmp, xs, k) == Ties(cmp, ys, k)
  }

  // Sorting depends on the arrival order only through the order of ties.
  lemma OrderMattersOnlyAmongTies<T(!new)>(cmp: Cmp<T>, xs: seq<T>, ys: seq<T>)
    requires Ordering(cmp)
    ensures SortAll(cmp, xs) == SortAll(cmp, ys) <==> SameTieOrder(cmp, xs, ys)
  {
    SortAllIsStable(cmp, xs);
    SortAllIsStable(cmp, ys);
    if SortAll(cmp, xs) == SortAll(cmp, ys) {
      forall k
        ensures Ties(cmp, xs, k) == Ties(cmp, ys, k)
      {
        SameTies(cmp, xs, k);
        SameTies(cmp, ys, k);
      }
      assert SameTieOrder(cmp, xs, ys);
    } else if SameTieOrder(cmp, xs, ys) {
      StableSortIsUnique(cmp, SortAll(cmp, xs), SortAll(cmp, ys));
    }
  }

  lemma NoTwinsNoOrder<T(!new)>(cmp: Cmp<T>, xs: seq<T>, ys: seq<T>)
    requires Ordering(cmp) && NoTwins(cmp, xs) && multiset(xs) == multiset(ys)
    ensures SortAll(cmp, xs) == SortAll(cmp, ys)
  {
    forall k
      ensures Ties(cmp, xs, k) == Ties(cmp, ys, k)
    {
      AtMostOneTie(cmp, xs, k);
      forall x
        ensures multiset(Ties(cmp, xs, k))[x] == multiset(Ties(cmp, ys, k))[x]
      {
        TiesCount(cmp, xs, k, x);
        TiesCount(cmp, ys, k, x);
      }
      SameOne(Ties(cmp, xs, k), Ties(cmp, ys, k));
    }
    OrderMattersOnlyAmongTies(cmp, xs, ys);
  }

  // Keeping the last cap after every insertion.
  function Windowed<T>(cmp: Cmp<T>, xs: seq<T>, cap: nat): seq<T> {
    if xs == [] then [] else Last(cap, Insert(cmp, Windowed(cmp, xs[..|xs| - 1], cap), xs[|xs| - 1]))
  }

  lemma {:induction false} WindowedIsLast<T(!new)>(cmp: Cmp<T>, xs: seq<T>, cap: nat)
    requires Ordering(cmp)
    ensures Windowed(cmp, xs, cap) == Last(cap, SortAll(cmp, xs))
  {
    if xs != [] {
      var front := xs[..|xs| - 1];
      WindowedIsLast(cmp, front, cap);
      SortAllSorts(cmp, front);
      WindowInsert(cmp, SortAll(cmp, front), xs[|xs| - 1], cap);
    }
  }
}
