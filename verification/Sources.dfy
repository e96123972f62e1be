// The session reader of agentusage/watch.go: an agent that keeps cumulative
// counters per session in a database, counted against a snapshot taken once.
module Sources {
  import opened Base
  import opened Counters

  // One session of one database.
  datatype SessionKey = SessionKey(path: string, id: string)

  // Readers let through only sane counters.
  type Sane = n: int | 0 <= n <= MAX_SANE_TOKENS

  datatype SessionCounts = SessionCounts(output: Sane, input: Sane)

  type Sessions = map<SessionKey, SessionCounts>

  const NO_SESSION := SessionCounts(0, 0)

  function Gain(current: Sane, base: Sane): nat {
    Max(current - base, 0)
  }

  function OutputGain(cur: Sessions, base: Sessions): SessionKey -> nat {
    (k: SessionKey) => Gain(Lookup(cur, k, NO_SESSION).output, Lookup(base, k, NO_SESSION).output)
  }

  function InputGain(cur: Sessions, base: Sessions): SessionKey -> nat {
    (k: SessionKey) => Gain(Lookup(cur, k, NO_SESSION).input, Lookup(base, k, NO_SESSION).input)
  }

  ghost function OutputGrowth(cur: Sessions, base: Sessions): nat {
    Sum(cur.Keys, OutputGain(cur, base))
  }

  ghost function InputGrowth(cur: Sessions, base: Sessions): nat {
    Sum(cur.Keys, InputGain(cur, base))
  }

  ghost predicate Believable(cur: Sessions, base: Sessions) {
    OutputGrowth(cur, base) <= MAX_SANE_TOKENS && InputGrowth(cur, base) <= MAX_SANE_TOKENS
  }

  // What was gained since the snapshot, or nothing when it cannot be believed.
  ghost function Growth(cur: Sessions, base: Sessions): Values {
    if Believable(cur, base) then Values(OutputGrowth(cur, base), 0, 0, InputGrowth(cur, base)) else NOTHING
  }

  // A poll's two possible queries: every session, and those touched since
  // attach. Each may fail.
  datatype Queries = Queries(all: Option<Sessions>, touched: Option<Sessions>)

  // The snapshot, once there is one, and the usage reported so far.
  datatype State = State(base: Option<Sessions>, sample: Values)

  // One component grew.
  predicate Grew(v: Values, sample: Values) {
    !AtMost(v, sample)
  }

  ghost function Step(s: State, q: Queries): State {
    if s.base.None? then s.(base := q.all)
    else if q.touched.None? then s
    else
      var v := Growth(q.touched.value, s.base.value);
      if Grew(v, s.sample) then s.(sample := v) else s
  }

  class SessionWatcher {
    var hasSessionBase: bool
    var sourceBase: Sessions
    var sample: Values

    ghost function Abstract(): State
      reads this
    {
      State(if hasSessionBase then Some(sourceBase) else None, sample)
    }

    constructor (attached: Option<Sessions>)
      ensures Abstract() == State(attached, NOTHING)
    {
      hasSessionBase := attached.Some?;
      sourceBase := if attached.Some? then attached.value else map[];
      sample := NOTHING;
    }

    method ReadSessionSource(q: Queries) returns (v: Values, ok: bool)
      modifies this`hasSessionBase, this`sourceBase
      ensures sample == old(sample)
      ensures old(hasSessionBase) ==> hasSessionBase && sourceBase == old(sourceBase)
      ensures old(hasSessionBase) && q.touched.Some? ==> v == Growth(q.touched.value, sourceBase) && ok == v.Present()
      ensures old(hasSessionBase) && q.touched.None? ==> v == NOTHING && !ok
      ensures !old(hasSessionBase) ==> v == NOTHING && !ok && Abstract().base == q.all
    {
      if !hasSessionBase {
        if q.all.None? {
          return NOTHING, false;
        }
        sourceBase := q.all.value;
        hasSessionBase := true;
        return NOTHING, false;
      }
      if q.touched.None? {
        return NOTHING, false;
      }
      v := GrowthSince(q.touched.value, sourceBase);
      ok := v.Present();
    }

    method Poll(q: Queries)
      modifies this
      ensures Abstract() == Step(old(Abstract()), q)
    {
      var v, ok := ReadSessionSource(q);
      if ok {
        if v.output > sample.output || v.total > sample.total
           || v.thinking > sample.thinking || v.input > sample.input {
          sample := v;
        }
      }
    }
  }

  // The loop over the sessions, in whatever order the map yields them.
  method GrowthSince(cur: Sessions, base: Sessions) returns (v: Values)
    ensures v == Growth(cur, base)
  {
    var outN, inN := 0, 0;
    ghost var o, n := OutputGain(cur, base), InputGain(cur, base);
    var rest := cur.Keys;
    while rest != {}
      invariant rest <= cur.Keys && 0 <= outN <= MAX_SANE_TOKENS && 0 <= inN <= MAX_SANE_TOKENS
      invariant Sum(cur.Keys, o) == outN + Sum(rest, o)
      invariant Sum(cur.Keys, n) == inN + Sum(rest, n)
    {
      var k := AnyOf(rest);
      SumRemove(rest, o, k);
      SumRemove(rest, n, k);
      var tokens, b := cur[k], Lookup(base, k, NO_SESSION);
      var d := tokens.output - b.output;
      if d > 0 {
        if outN > MAX_SANE_TOKENS - d {
          return NOTHING;
        }
        outN := outN + d;
      }
      d := tokens.input - b.input;
      if d > 0 {
        if inN > MAX_SANE_TOKENS - d {
          return NOTHING;
        }
        inN := inN + d;
      }
      rest := rest - {k};
    }
    return Values(Counter(outN), 0, 0, Counter(inN));
  }

  ghost function Run(s: State, qs: seq<Queries>): State
    decreases |qs|
  {
    if qs == [] then s else Run(Step(s, qs[0]), qs[1..])
  }

  // The first snapshot that succeeds, the attach's own counting first.
  function FirstSnapshot(attached: Option<Sessions>, qs: seq<Queries>): Option<Sessions>
    decreases |qs|
  {
    if attached.Some? || qs == [] then attached else FirstSnapshot(qs[0].all, qs[1..])
  }

  // The latch: the snapshot is the first that succeeded, for good.
  lemma {:induction false} SnapshotIsTheFirst(s: State, qs: seq<Queries>)
    ensures Run(s, qs).base == FirstSnapshot(s.base, qs)
    decreases |qs|
  {
    if qs != [] {
      SnapshotIsTheFirst(Step(s, qs[0]), qs[1..]);
      LatchHolds(Step(s, qs[0]).base, qs[1..]);
    }
  }

  lemma LatchHolds(base: Option<Sessions>, qs: seq<Queries>)
    ensures base.Some? ==> FirstSnapshot(base, qs) == base
  {
  }

  // The touched sessions are some of all of them, with the same counters.
  ghost predicate PartOf(touched: Sessions, all: Sessions) {
    forall k :: k in touched ==> k in all && all[k] == touched[k]
  }

  ghost predicate NoGain(cur: Sessions, base: Sessions, k: SessionKey) {
    OutputGain(cur, base)(k) == 0 && InputGain(cur, base)(k) == 0
  }

  // Reading only the touched sessions counts what reading all would, exactly
  // when no other session has gained since the snapshot.
  lemma TouchedIsEnoughIff(touched: Sessions, all: Sessions, base: Sessions)
    requires PartOf(touched, all)
    ensures (OutputGrowth(touched, base) == OutputGrowth(all, base) &&
             InputGrowth(touched, base) == InputGrowth(all, base)) <==>
            forall k :: k in all.Keys - touched.Keys ==> NoGain(all, base, k)
  {
    var rest := all.Keys - touched.Keys;
    SumSplit(all.Keys, touched.Keys, OutputGain(all, base));
    SumSplit(all.Keys, touched.Keys, InputGain(all, base));
    SumAgrees(touched.Keys, OutputGain(touched, base), OutputGain(all, base));
    SumAgrees(touched.Keys, InputGain(touched, base), InputGain(all, base));
    SumIsZeroIff(rest, OutputGain(all, base));
    SumIsZeroIff(rest, InputGain(all, base));
    assert forall k :: NoGain(all, base, k) <==> OutputGain(all, base)(k) == 0 && InputGain(all, base)(k) == 0;
  }

  // A session nobody wrote since the snapshot still has the snapshot's
  // counters, so it has gained nothing.
  lemma IdleSessionsGainNothing(all: Sessions, base: Sessions, k: SessionKey)
    requires k in all && k in base && all[k] == base[k]
    ensures NoGain(all, base, k)
  {
  }

  // So the query filtered by update time is as good as the whole one while the
  // store dates every change: what it leaves out stands as it was snapshotted.
  lemma FilteredQueryIsEnough(touched: Sessions, all: Sessions, base: Sessions)
    requires PartOf(touched, all)
    requires forall k :: k in all.Keys - touched.Keys ==> k in base && all[k] == base[k]
    ensures Growth(touched, base) == Growth(all, base) && (Believable(touched, base) <==> Believable(all, base))
  {
    forall k | k in all.Keys - touched.Keys
      ensures NoGain(all, base, k)
    {
      IdleSessionsGainNothing(all, base, k);
    }
    TouchedIsEnoughIff(touched, all, base);
  }

  // Every session of a is still in b and has not fallen.
  ghost predicate Onward(a: Sessions, b: Sessions) {
    forall k :: k in a ==> k in b && a[k].output <= b[k].output && a[k].input <= b[k].input
  }

  lemma GrowthIsMonotone(a: Sessions, b: Sessions, base: Sessions)
    requires Onward(a, b)
    ensures OutputGrowth(a, base) <= OutputGrowth(b, base) && InputGrowth(a, base) <= InputGrowth(b, base)
  {
    SumMonotone(a.Keys, OutputGain(a, base), b.Keys, OutputGain(b, base));
    SumMonotone(a.Keys, InputGain(a, base), b.Keys, InputGain(b, base));
  }

  // The reading the next poll with one builds on: counters never fall.
  ghost predicate Rising(last: Sessions, qs: seq<Queries>, base: Sessions)
    decreases |qs|
  {
    qs == [] || (match qs[0].touched
                 case None => Rising(last, qs[1..], base)
                 case Some(cur) => Onward(last, cur) && Believable(cur, base) && Rising(cur, qs[1..], base))
  }

  function LastReading(last: Sessions, qs: seq<Queries>): Sessions
    decreases |qs|
  {
    if qs == [] then last
    else LastReading(if qs[0].touched.Some? then qs[0].touched.value else last, qs[1..])
  }

  // With counters that never fall, the sample is always exactly what the last
  // successful reading gained over the snapshot, and it never falls either.
  lemma {:induction false} SampleIsLastGrowth(s: State, last: Sessions, qs: seq<Queries>)
    requires s.base.Some? && s.sample == Growth(last, s.base.value) && Believable(last, s.base.value)
    requires Rising(last, qs, s.base.value)
    ensures Run(s, qs).sample == Growth(LastReading(last, qs), s.base.value)
    ensures AtMost(s.sample, Run(s, qs).sample)
    decreases |qs|
  {
    if qs != [] {
      if qs[0].touched.None? {
        SampleIsLastGrowth(s, last, qs[1..]);
      } else {
        OneReading(s, last, qs[0], qs[0].touched.value);
        SampleIsLastGrowth(Step(s, qs[0]), qs[0].touched.value, qs[1..]);
      }
    }
  }

  lemma OneReading(s: State, last: Sessions, q: Queries, cur: Sessions)
    requires s.base.Some? && s.sample == Growth(last, s.base.value) && Believable(last, s.base.value)
    requires q.touched == Some(cur) && Onward(last, cur) && Believable(cur, s.base.value)
    ensures Step(s, q) == s.(sample := Growth(cur, s.base.value)) && AtMost(s.sample, Step(s, q).sample)
  {
    GrowthIsMonotone(last, cur, s.base.value);
  }

  lemma {:induction false} WaitsForSnapshot(s: State, qs: seq<Queries>)
    requires s.base.None? && FirstSnapshot(None, qs).None?
    ensures Run(s, qs) == s
    decreases |qs|
  {
    if qs != [] {
      LatchHolds(qs[0].all, qs[1..]);
      WaitsForSnapshot(s, qs[1..]);
    }
  }

  lemma {:induction false} RunAppend(s: State, a: seq<Queries>, b: seq<Queries>)
    ensures Run(s, a + b) == Run(Run(s, a), b)
    decreases |a|
  {
    if a == [] {
      assert a + b == b;
    } else {
      TailOfAppend(a, b);
      RunAppend(Step(s, a[0]), a[1..], b);
    }
  }

  lemma NothingGainedAtOnce(base: Sessions)
    ensures Growth(base, base) == NOTHING && Believable(base, base)
  {
    SumIsZeroIff(base.Keys, OutputGain(base, base));
    SumIsZeroIff(base.Keys, InputGain(base, base));
  }

  // An attach whose snapshot failed, however often it fails again, reports
  // nothing until one succeeds, nothing for that one, and from then on only
  // what is gained over it: tokens from before are never counted.
  lemma LateSnapshotCountsOnlyGrowth(failed: seq<Queries>, q: Queries, later: seq<Queries>)
    requires FirstSnapshot(None, failed).None? && q.all.Some?
    requires Rising(q.all.value, later, q.all.value)
    ensures var start := State(None, NOTHING);
      && Run(start, failed).sample == NOTHING
      && Run(start, failed + [q]).sample == NOTHING
      && Run(start, failed + [q] + later).sample == Growth(LastReading(q.all.value, later), q.all.value)
  {
    var start := State(None, NOTHING);
    WaitsForSnapshot(start, failed);
    RunAppend(start, failed, [q]);
    assert [q][1..] == [];
    assert Run(start, [q]) == Step(start, q);
    RunAppend(start, failed + [q], later);
    NothingGainedAtOnce(q.all.value);
    SampleIsLastGrowth(Step(start, q), q.all.value, later);
  }

  // A failed query, and a reading past what can be believed, change nothing.
  lemma BadReadsChangeNothing(s: State, q: Queries)
    requires s.base.Some?
    requires q.touched.None? || !Believable(q.touched.value, s.base.value)
    ensures Step(s, q) == s
  {
  }

  // Once the snapshot stands, a bad read anywhere in a run leaves no trace.
  lemma BadReadsLeaveNoTrace(s: State, a: seq<Queries>, q: Queries, b: seq<Queries>)
    requires Run(s, a).base.Some?
    requires q.touched.None? || !Believable(q.touched.value, Run(s, a).base.value)
    ensures Run(s, a + [q] + b) == Run(s, a + b)
  {
    RunAppend(s, a, [q]);
    RunAppend(s, a + [q], b);
    RunAppend(s, a, b);
    assert [q][1..] == [];
    assert Run(Run(s, a), [q]) == Step(Run(s, a), q);
    BadReadsChangeNothing(Run(s, a), q);
  }
}
