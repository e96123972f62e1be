// applyRecord of agentusage/watch.go: how one file's counted records fold into
// the tokens it contributes, for both ways agents report them.
module Tallies {
  import opened Base
  import opened Counters
  import opened Lines

  // One file's entries in the base*, seen and total maps. A Go map index on a
  // missing key reads zero, hence Seen().
  datatype Tally = Tally(base: Option<Values>, seen: Option<Values>, total: Count) {
    function Seen(): Values {
      if seen.Some? then seen.value else NOTHING
    }
  }

  const UNTOUCHED := Tally(None, None, 0)

  datatype Field = Output | Thinking | Input

  function Get(v: Values, f: Field): Count {
    match f
    case Output => v.output
    case Thinking => v.thinking
    case Input => v.input
  }

  // The largest growth over the baseline wins: d > cur assigns.
  function Raise(cur: Count, v: Count, base: Count): Count {
    if v - base > cur then v - base else cur
  }

  function Apply(kind: Kind, pre: bool, t: Tally, v: Values): Tally {
    var cur := t.Seen();
    match kind
    case PerMessage =>
      var next := cur.(output := SatAdd(cur.output, v.output), thinking := SatAdd(cur.thinking, v.thinking),
                       input := SatAdd(cur.input, v.input));
      t.(seen := Some(next), total := if t.total < v.total then v.total else t.total)
    case Cumulative =>
      var b := if t.base.Some? then t.base.value else if pre then v.(total := 0) else NOTHING;
      var next := cur.(output := Raise(cur.output, v.output, b.output),
                       thinking := Raise(cur.thinking, v.thinking, b.thinking),
                       input := Raise(cur.input, v.input, b.input));
      Tally(Some(b), Some(next), if v.total > t.total then v.total else t.total)
  }

  function Fold(kind: Kind, pre: bool, t: Tally, recs: seq<Values>): Tally
    decreases |recs|
  {
    if recs == [] then t else Fold(kind, pre, Apply(kind, pre, t, recs[0]), recs[1..])
  }

  function Total(recs: seq<Values>, f: Field): nat {
    if recs == [] then 0 else Get(recs[0], f) + Total(recs[1..], f)
  }

  function Largest(recs: seq<Values>, f: Field): (m: nat)
    ensures m <= MAX_INT
  {
    if recs == [] then 0 else Max(Get(recs[0], f), Largest(recs[1..], f))
  }

  function LargestTotal(recs: seq<Values>): (m: nat)
    ensures m <= MAX_INT
  {
    if recs == [] then 0 else Max(recs[0].total, LargestTotal(recs[1..]))
  }

  lemma {:induction false} FoldAppend(kind: Kind, pre: bool, t: Tally, a: seq<Values>, b: seq<Values>)
    ensures Fold(kind, pre, t, a + b) == Fold(kind, pre, Fold(kind, pre, t, a), b)
    decreases |a|
  {
    if a == [] {
      assert a + b == b;
    } else {
      TailOfAppend(a, b);
      FoldAppend(kind, pre, Apply(kind, pre, t, a[0]), a[1..], b);
    }
  }

  // No record ever takes a contribution, or the largest context, back.
  lemma {:induction false} FoldGrows(kind: Kind, pre: bool, t: Tally, recs: seq<Values>)
    ensures var r := Fold(kind, pre, t, recs);
      && AtMost(t.Seen(), r.Seen()) && t.total <= r.total
      && (t.seen.Some? || recs != [] ==> r.seen.Some?)
    decreases |recs|
  {
    if recs != [] {
      FoldGrows(kind, pre, Apply(kind, pre, t, recs[0]), recs[1..]);
    }
  }

  // Per-message usage is the sum of the records, saturated at the machine's
  // largest integer; the context figure is the largest one, never a sum.
  lemma {:induction false} PerMessageSums(pre: bool, t: Tally, recs: seq<Values>, f: Field)
    ensures var r := Fold(PerMessage, pre, t, recs);
      && Get(r.Seen(), f) as int == Min(Get(t.Seen(), f) + Total(recs, f), MAX_INT)
      && r.total as int == Max(t.total, LargestTotal(recs))
    decreases |recs|
  {
    if recs != [] {
      PerMessageSums(pre, Apply(PerMessage, pre, t, recs[0]), recs[1..], f);
    }
  }

  // Once its baseline is fixed, a cumulative file contributes the largest
  // growth any record shows over it: order and repetition are irrelevant.
  lemma {:induction false} CumulativeIsLargestGrowth(pre: bool, t: Tally, recs: seq<Values>, f: Field)
    requires t.base.Some?
    ensures var r := Fold(Cumulative, pre, t, recs);
      && r.base == t.base
      && Get(r.Seen(), f) as int == Max(Get(t.Seen(), f), Largest(recs, f) - Get(t.base.value, f))
    decreases |recs|
  {
    if recs != [] {
      CumulativeIsLargestGrowth(pre, Apply(Cumulative, pre, t, recs[0]), recs[1..], f);
    }
  }

  lemma {:induction false} LargestIsLargest(recs: seq<Values>, f: Field)
    ensures forall v :: v in recs ==> Get(v, f) <= Largest(recs, f)
    ensures recs != [] ==> exists v :: v in recs && Get(v, f) as int == Largest(recs, f)
  {
    if recs != [] {
      LargestIsLargest(recs[1..], f);
      if Get(recs[0], f) < Largest(recs[1..], f) {
        var v :| v in recs[1..] && Get(v, f) as int == Largest(recs[1..], f);
        assert v in recs;
      } else {
        assert recs[0] in recs;
      }
    }
  }

  lemma LargestOfSameSet(a: seq<Values>, b: seq<Values>, f: Field)
    requires forall v :: v in a <==> v in b
    ensures Largest(a, f) == Largest(b, f)
  {
    LargestIsLargest(a, f);
    LargestIsLargest(b, f);
  }

  // Re-reading or reordering records cannot double-count.
  lemma CumulativeIgnoresOrderAndRepeats(pre: bool, t: Tally, a: seq<Values>, b: seq<Values>, f: Field)
    requires t.base.Some? && (forall v :: v in a <==> v in b)
    ensures Get(Fold(Cumulative, pre, t, a).Seen(), f) == Get(Fold(Cumulative, pre, t, b).Seen(), f)
  {
    LargestOfSameSet(a, b, f);
    CumulativeIsLargestGrowth(pre, t, a, f);
    CumulativeIsLargestGrowth(pre, t, b, f);
  }
}
