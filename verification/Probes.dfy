// The probe ring of internal/collector/collector.go over any arrival order,
// and the chart series internal/ui/ui.go reads off it.
module Probes {
  import opened Base
  import opened Order
  import opened Feed

  // The ring after samples arrive one by one.
  function Ring(arrivals: seq<ProbeSample>): seq<ProbeSample> {
    Windowed(ProbeCmp, arrivals, PROBE_HISTORY_LEN)
  }

  // What one more RecordProbe makes of it.
  lemma RingGrowsByPush(arrivals: seq<ProbeSample>, s: ProbeSample)
    ensures Ring(arrivals + [s]) == Push(Ring(arrivals), s)
  {
    assert (arrivals + [s])[..|arrivals + [s]| - 1] == arrivals;
  }

  // The ring is the newest 128 of everything that ever arrived, whatever was
  // cut on the way.
  lemma RingIsTheNewest(arrivals: seq<ProbeSample>)
    ensures Ring(arrivals) == Last(PROBE_HISTORY_LEN, SortAll(ProbeCmp, arrivals))
    ensures Sorted(ProbeCmp, Ring(arrivals))
  {
    ProbeOrdering();
    WindowedIsLast(ProbeCmp, arrivals, PROBE_HISTORY_LEN);
    SortAllSorts(ProbeCmp, arrivals);
    CutKeepsSorted(ProbeCmp, SortAll(ProbeCmp, arrivals), PROBE_HISTORY_LEN);
  }

  // In instants and texts: the ring is oldest first, ties by backend and model,
  // and nothing that fell out of it is later than anything in it.
  lemma RingIsChronological(arrivals: seq<ProbeSample>)
    ensures var ring := Ring(arrivals);
      && (forall i, j :: 0 <= i < j < |ring| ==> ring[i].at <= ring[j].at && InRingOrder(ring[i], ring[j]))
      && forall s :: s in arrivals ==>
           s in ring || (|ring| == 128 && forall x :: x in ring ==> s.at <= x.at && InRingOrder(s, x))
  {
    var ring := Ring(arrivals);
    RingIsTheNewest(arrivals);
    ProbeOrdering();
    forall i, j | 0 <= i < j < |ring|
      ensures ring[i].at <= ring[j].at && InRingOrder(ring[i], ring[j])
    {
      ProbeCmpIs(ring[i], ring[j]);
    }
    forall s | s in arrivals && s !in ring
      ensures |ring| == 128 && forall x :: x in ring ==> s.at <= x.at && InRingOrder(s, x)
    {
      LeftOutIsBelow(ProbeCmp, arrivals, PROBE_HISTORY_LEN, s);
      forall x | x in ring
        ensures s.at <= x.at && InRingOrder(s, x)
      {
        ProbeCmpIs(s, x);
      }
    }
  }

  // Probes finish out of launch order; with no two samples of one instant,
  // backend and model, no finishing order changes the ring.
  lemma FinishingOrderDoesNotMatter(xs: seq<ProbeSample>, ys: seq<ProbeSample>)
    requires NoTwins(ProbeCmp, xs) && multiset(xs) == multiset(ys)
    ensures Ring(xs) == Ring(ys)
  {
    ProbeOrdering();
    RingIsTheNewest(xs);
    RingIsTheNewest(ys);
    NoTwinsNoOrder(ProbeCmp, xs, ys);
  }

  // Twins that differ keep their arrival order, so there it does matter.
  lemma TwinsKeepArrivalOrder(a: ProbeSample, b: ProbeSample)
    requires ProbeCmp(a, b) == 0 && a != b
    ensures Ring([a, b]) == [a, b] != Ring([b, a])
  {
    ProbeOrdering();
    assert Antisymmetric(ProbeCmp, a, b);
    TwoTwins(a, b);
    TwoTwins(b, a);
  }

  lemma TwoTwins(a: ProbeSample, b: ProbeSample)
    requires ProbeCmp(a, b) == 0
    ensures Ring([a, b]) == [a, b]
  {
    assert [a, b][..1] == [a] && [a][..0] == [];
    assert Windowed(ProbeCmp, [a], PROBE_HISTORY_LEN) == [a];
    assert Place(ProbeCmp, [a], b, 0) == 1;
  }

  // v is the speed of the latest probe strictly before t, or zero before any.
  ghost predicate HeldAt(probes: seq<ProbeSample>, t: Instant, v: real) {
    if exists k :: 0 <= k < |probes| && probes[k].at < t
    then exists k :: 0 <= k < |probes| && IsLatestBefore(probes, t, k) && v == probes[k].tokPS
    else v == 0.0
  }

  // Latest by time; among the probes of one instant, the last in the ring.
  ghost predicate IsLatestBefore(probes: seq<ProbeSample>, t: Instant, k: nat)
    requires k < |probes|
  {
    && probes[k].at < t
    && forall i :: 0 <= i < |probes| && probes[i].at < t ==>
         probes[i].at < probes[k].at || (probes[i].at == probes[k].at && i <= k)
  }

  // The end of column j of w, the last of which holds the newest probe.
  function ColumnEnd(end: Instant, w: nat, cadence: Positive, j: int): Instant {
    end - (w - 1) * cadence + (j + 1) * cadence
  }

  // The column of every cell is held at that column's end.
  ghost predicate HeldUpTo(probes: seq<ProbeSample>, w: nat, cadence: Positive, cells: seq<real>, n: nat)
    requires probes != [] && n <= |cells|
  {
    forall j :: 0 <= j < n ==> HeldAt(probes, ColumnEnd(probes[|probes| - 1].at, w, cadence, j), cells[j])
  }

  lemma OneMoreCell(probes: seq<ProbeSample>, w: nat, cadence: Positive, cells: seq<real>, j: nat, v: real)
    requires probes != [] && j < |cells| && HeldUpTo(probes, w, cadence, cells, j)
    requires HeldAt(probes, ColumnEnd(probes[|probes| - 1].at, w, cadence, j), v)
    ensures HeldUpTo(probes, w, cadence, cells[j := v], j + 1)
  {
  }

  // Column j ends one cadence after its own instant, the last one a cadence
  // after the newest probe, which it therefore shows.
  lemma SeriesEndsAtTheNewest(probes: seq<ProbeSample>, w: nat, cadence: Positive, cells: seq<real>)
    requires probes != [] && |cells| == w && HeldUpTo(probes, w, cadence, cells, w) && Sorted(ProbeCmp, probes)
    ensures forall j :: 0 <= j < w ==> HeldAt(probes, probes[|probes| - 1].at - (w - 2 - j) * cadence, cells[j])
    ensures w > 0 ==> cells[w - 1] == probes[|probes| - 1].tokPS
  {
    var end := probes[|probes| - 1].at;
    forall j | 0 <= j < w
      ensures HeldAt(probes, end - (w - 2 - j) * cadence, cells[j])
    {
      Backwards(end, w, cadence, j);
    }
    if w > 0 {
      NewestIsHeld(probes, cadence, cells[w - 1]);
    }
  }

  lemma Backwards(end: Instant, w: nat, cadence: Positive, j: nat)
    requires j < w
    ensures ColumnEnd(end, w, cadence, j) == end - (w - 2 - j) * cadence
  {
    assert (w - 1) * cadence == (w - 2 - j) * cadence + (j + 1) * cadence;
  }

  lemma NoneIsLater(probes: seq<ProbeSample>, k: nat)
    requires k < |probes| && Sorted(ProbeCmp, probes)
    ensures probes[k].at <= probes[|probes| - 1].at
  {
    assert k < |probes| - 1 ==> ProbeCmp(probes[k], probes[|probes| - 1]) <= 0;
  }

  lemma NewestIsHeld(probes: seq<ProbeSample>, cadence: Positive, v: real)
    requires probes != [] && Sorted(ProbeCmp, probes)
    requires HeldAt(probes, probes[|probes| - 1].at - (-1) * cadence, v)
    ensures v == probes[|probes| - 1].tokPS
  {
    var last := |probes| - 1;
    var t := probes[last].at - (-1) * cadence;
    assert probes[last].at < t;
    var k :| 0 <= k < |probes| && IsLatestBefore(probes, t, k) && v == probes[k].tokPS;
    NoneIsLater(probes, k);
  }

  method ProbeSeries(probes: seq<ProbeSample>, w: nat, cadence: Positive) returns (grid: seq<real>)
    requires Sorted(ProbeCmp, probes)
    ensures if probes == [] then grid == [] else |grid| == w && HeldUpTo(probes, w, cadence, grid, w)
  {
    if |probes| == 0 {
      return [];
    }
    var end := probes[|probes| - 1].at;
    var cells := new real[w](_ => 0.0);
    var last, next, j := 0.0, 0, 0;
    while j < w
      invariant j <= w && Behind(probes, ColumnEnd(end, w, cadence, j - 1), next, last)
      invariant HeldUpTo(probes, w, cadence, cells[..], j)
    {
      last, next := Hold(probes, end, w, cadence, j, next, last);
      SetColumn(probes, w, cadence, cells, j, last);
      j := j + 1;
    }
    grid := cells[..];
  }

  // cells[j] = last, the columns before it held already.
  method SetColumn(probes: seq<ProbeSample>, w: nat, cadence: Positive, cells: array<real>, j: nat, last: real)
    requires probes != [] && j < cells.Length && HeldUpTo(probes, w, cadence, cells[..], j)
    requires HeldAt(probes, ColumnEnd(probes[|probes| - 1].at, w, cadence, j), last)
    modifies cells
    ensures HeldUpTo(probes, w, cadence, cells[..], j + 1)
  {
    ghost var before := cells[..];
    cells[j] := last;
    assert cells[..] == before[j := last];
    OneMoreCell(probes, w, cadence, before, j, last);
  }

  // Everything left of the cursor is before t, and last is the one just left
  // of it.
  ghost predicate Behind(probes: seq<ProbeSample>, t: Instant, next: nat, last: real) {
    && next <= |probes|
    && (forall i :: 0 <= i < next ==> probes[i].at < t)
    && last == if next > 0 then probes[next - 1].tokPS else 0.0
  }

  // One column: on to its end.
  method Hold(probes: seq<ProbeSample>, end: Instant, w: nat, cadence: Positive, j: nat, from: nat, held: real)
    returns (last: real, next: nat)
    requires Sorted(ProbeCmp, probes) && Behind(probes, ColumnEnd(end, w, cadence, j - 1), from, held)
    ensures Behind(probes, ColumnEnd(end, w, cadence, j), next, last)
    ensures HeldAt(probes, ColumnEnd(end, w, cadence, j), last)
  {
    var bucketEnd := ColumnEnd(end, w, cadence, j);
    Later(end, w, cadence, j);
    last, next := Advance(probes, bucketEnd, from, held);
    CursorHolds(probes, bucketEnd, next);
  }

  method Advance(probes: seq<ProbeSample>, bucketEnd: Instant, from: nat, held: real) returns (last: real, next: nat)
    requires Behind(probes, bucketEnd, from, held)
    ensures Behind(probes, bucketEnd, next, last)
    ensures next < |probes| ==> probes[next].at >= bucketEnd
  {
    last, next := held, from;
    while next < |probes| && probes[next].at < bucketEnd
      invariant Behind(probes, bucketEnd, next, last)
    {
      last := probes[next].tokPS;
      next := next + 1;
    }
  }

  lemma Later(end: Instant, w: nat, cadence: Positive, j: nat)
    ensures ColumnEnd(end, w, cadence, j - 1) < ColumnEnd(end, w, cadence, j)
  {
  }

  // In a sorted ring the cursor stops right behind the latest probe.
  lemma CursorHolds(probes: seq<ProbeSample>, t: Instant, next: nat)
    requires Sorted(ProbeCmp, probes) && next <= |probes|
    requires forall i :: 0 <= i < next ==> probes[i].at < t
    requires next < |probes| ==> probes[next].at >= t
    ensures HeldAt(probes, t, if next > 0 then probes[next - 1].tokPS else 0.0)
  {
    forall i | next <= i < |probes|
      ensures probes[i].at >= t
    {
      assert i > next ==> ProbeCmp(probes[next], probes[i]) <= 0;
    }
    if next > 0 {
      forall i | 0 <= i < next
        ensures probes[i].at <= probes[next - 1].at
      {
        assert i < next - 1 ==> ProbeCmp(probes[i], probes[next - 1]) <= 0;
      }
      assert IsLatestBefore(probes, t, next - 1);
    }
  }
}
