// The probe scheduler of internal/collector/collector.go: which backends one
// wave probes, under the mutex, and the three fields that decide it.
module Scheduler {
  import opened Base
  import opened Feed

  const PROBE_WAVE_GAP: int := 500_000_000

  datatype Request = Request(kind: string, base: string, model: string)

  function Key(t: Request): string {
    t.base + "|" + t.model
  }

  // Backends whose addresses hold no bar share a key only when they are one.
  lemma KeysTellBackends(t: Request, u: Request)
    requires '|' !in t.base && '|' !in u.base
    ensures Key(t) == Key(u) <==> t.base == u.base && t.model == u.model
  {
    if Key(t) == Key(u) {
      BarStandsAfter(t);
      BarStandsAfter(u);
      assert |t.base| == |u.base|;
      assert t.base == Key(t)[..|t.base|] && u.base == Key(u)[..|u.base|];
      assert t.model == Key(t)[|t.base| + 1..] && u.model == Key(u)[|u.base| + 1..];
    }
  }

  lemma BarStandsAfter(t: Request)
    ensures |Key(t)| > |t.base| && Key(t)[|t.base|] == '|'
    ensures forall i :: 0 <= i < |t.base| ==> Key(t)[i] == t.base[i]
  {
  }

  // With a bar in an address two backends can share one.
  lemma KeysCanCollide()
    ensures exists t, u :: Key(t) == Key(u) && t.base != u.base
  {
    var t, u := Request("", "a|b", "c"), Request("", "a", "b|c");
    assert Key(t) == "a|b|c" == Key(u);
  }

  predicate TooSoon(now: Instant, last: Instant) {
    Elapsed(now, last) < PROBE_WAVE_GAP
  }

  // Nothing is running for the key and no Retry-After is left to wait out.
  predicate Free(inflight: set<string>, backoff: map<string, Instant>, now: Instant, key: string) {
    key !in inflight && !(key in backoff && now < backoff[key])
  }

  // The targets from i on that a wave launches.
  function Live(inflight: set<string>, backoff: map<string, Instant>, now: Instant, targets: seq<Request>,
                i: nat): seq<Request>
    requires i <= |targets|
    decreases |targets| - i
  {
    if i == |targets| then [] else
      var key := Key(targets[i]);
      if Free(inflight, backoff, now, key)
      then [targets[i]] + Live(inflight + {key}, backoff, now, targets, i + 1)
      else Live(inflight, backoff, now, targets, i + 1)
  }

  function Keys(ts: seq<Request>): set<string> {
    set t | t in ts :: Key(t)
  }

  // No key twice, only free ones, and every free target's.
  lemma {:induction false} LiveIsExactly(inflight: set<string>, backoff: map<string, Instant>, now: Instant,
                                         targets: seq<Request>, i: nat)
    requires i <= |targets|
    ensures var live := Live(inflight, backoff, now, targets, i);
      && (forall a, b :: 0 <= a < b < |live| ==> Key(live[a]) != Key(live[b]))
      && (forall t :: t in live ==> t in targets[i..] && Free(inflight, backoff, now, Key(t)))
      && (forall t :: t in targets[i..] && Free(inflight, backoff, now, Key(t)) ==> Key(t) in Keys(live))
    decreases |targets| - i
  {
    if i < |targets| {
      var t, key := targets[i], Key(targets[i]);
      var rest := targets[i + 1..];
      assert targets[i..] == [t] + rest;
      if Free(inflight, backoff, now, key) {
        LiveIsExactly(inflight + {key}, backoff, now, targets, i + 1);
        var tail := Live(inflight + {key}, backoff, now, targets, i + 1);
        assert key in Keys([t] + tail) by {
          assert t in [t] + tail;
        }
        forall u | u in rest && Free(inflight, backoff, now, Key(u))
          ensures Key(u) in Keys([t] + tail)
        {
          if Key(u) != key {
            var v :| v in tail && Key(v) == Key(u);
            assert v in [t] + tail;
          }
        }
      } else {
        LiveIsExactly(inflight, backoff, now, targets, i + 1);
      }
    }
  }

  function Delayed(backoff: map<string, Instant>, key: string, clock: Instant, retryAfter: int): map<string, Instant> {
    if retryAfter > 0 then backoff[key := clock + retryAfter] else backoff
  }

  lemma KeysGrow(ts: seq<Request>, t: Request)
    ensures Keys(ts + [t]) == Keys(ts) + {Key(t)}
  {
    forall u | u in ts
      ensures Key(u) in Keys(ts + [t])
    {
      assert u in ts + [t];
    }
    assert t in ts + [t];
  }
}

// Every interleaving of probe waves with the ends of the generations they
// launched.
module ProbeRuns {
  import opened Order
  import opened Feed
  import opened Probes
  import opened Scheduler

  // A generation's goroutine: it gets its answer (and stores a backoff), then
  // records its sample, then takes its key out of the in-flight table.
  datatype Phase = Running | Answered | Recorded | Landed

  // What probe.Run measured.
  datatype Reading = Reading(ok: bool, err: string, ttftMs: real, tokPS: real, tokens: int, retryAfter: int)

  const UNREAD := Reading(false, "", 0.0, 0.0, 0, 0)

  datatype Generation = Generation(request: Request, stamp: Instant, phase: Phase,
                                   reading: Reading, notBefore: Instant)

  datatype State = State(lastWave: Instant, inflight: set<string>, backoff: map<string, Instant>,
                         waves: seq<Instant>, gens: seq<Generation>,
                         recorded: seq<ProbeSample>, order: seq<nat>)

  datatype Event =
    | Wave(now: Instant, targets: seq<Request>)
    | Answer(gen: nat, clock: Instant, reading: Reading)
    | Store(gen: nat)
    | Land(gen: nat)

  const IDLE := State(0, {}, map[], [], [], [], [])

  predicate Enabled(s: State, e: Event) {
    match e
    case Wave(_, _) => true
    case Answer(g, _, _) => g < |s.gens| && s.gens[g].phase == Running
    case Store(g) => g < |s.gens| && s.gens[g].phase == Answered
    case Land(g) => g < |s.gens| && s.gens[g].phase == Recorded
  }

  function Launched(live: seq<Request>, now: Instant): seq<Generation> {
    seq(|live|, i requires 0 <= i < |live| => Generation(live[i], now, Running, UNREAD, 0))
  }

  function Apply(s: State, e: Event): State
    requires Enabled(s, e)
  {
    match e
    case Wave(now, targets) =>
      if TooSoon(now, s.lastWave) then s else
        var live := Live(s.inflight, s.backoff, now, targets, 0);
        State(now, s.inflight + Keys(live), s.backoff - Keys(live),
              s.waves + [now], s.gens + Launched(live, now), s.recorded, s.order)
    case Answer(g, clock, reading) =>
      var gen := s.gens[g].(phase := Answered, reading := reading, notBefore := clock + reading.retryAfter);
      s.(backoff := Delayed(s.backoff, Key(gen.request), clock, reading.retryAfter), gens := s.gens[g := gen])
    case Store(g) =>
      s.(gens := s.gens[g := s.gens[g].(phase := Recorded)],
         recorded := s.recorded + [SampleOf(s.gens[g])], order := s.order + [g])
    case Land(g) =>
      s.(inflight := s.inflight - {Key(s.gens[g].request)}, gens := s.gens[g := s.gens[g].(phase := Landed)])
  }

  // A wave is committed exactly half a second or more after the last one
  // committed; else it leaves no trace.
  lemma WaveCommitsIff(s: State, now: Instant, targets: seq<Request>)
    ensures var t := Apply(s, Wave(now, targets));
      if now - s.lastWave >= 500_000_000 then t.lastWave == now && t.waves == s.waves + [now] else t == s
  {
  }

  // The sample a generation stores: its wave's stamp, not its finishing time.
  function SampleOf(g: Generation): ProbeSample {
    Measured(g.request, g.stamp, g.reading)
  }

  function Measured(t: Request, stamp: Instant, r: Reading): ProbeSample {
    ProbeSample(stamp, t.base, t.model, r.ok, r.err, r.ttftMs, r.tokPS, r.tokens, r.retryAfter)
  }

  // A sample, field by field: when its wave was, which backend it probed, and
  // what it read there.
  predicate IsReadingOf(x: ProbeSample, t: Request, stamp: Instant, r: Reading) {
    && x.at == stamp && x.addr == t.base && x.model == t.model
    && x.ok == r.ok && x.err == r.err && x.ttftMs == r.ttftMs && x.tokPS == r.tokPS
    && x.tokens == r.tokens && x.retryAfter == r.retryAfter
  }

  predicate IsRun(s: State, es: seq<Event>)
    decreases |es|
  {
    es == [] || (Enabled(s, es[0]) && IsRun(Apply(s, es[0]), es[1..]))
  }

  function Final(s: State, es: seq<Event>): State
    requires IsRun(s, es)
    decreases |es|
  {
    if es == [] then s else Final(Apply(s, es[0]), es[1..])
  }

  function KeyOf(g: Generation): string {
    Key(g.request)
  }

  // One generation was told to wait until d: the wave clock has passed it, or
  // the key is still held back that long.
  predicate Held(s: State, key: string, d: Instant) {
    s.lastWave >= d || (key in s.backoff && s.backoff[key] >= d)
  }

  predicate Waiting(g: Generation) {
    g.phase != Running && g.reading.retryAfter > 0
  }

  // Two generations of one key: the first had landed, and its wait was over.
  predicate InTurn(a: Generation, b: Generation) {
    KeyOf(a) == KeyOf(b) ==>
      a.phase == Landed && a.stamp < b.stamp && (Waiting(a) ==> a.notBefore <= b.stamp)
  }

  ghost predicate Spaced(waves: seq<Instant>) {
    forall i, j :: 0 <= i < j < |waves| ==> waves[j] - waves[i] >= PROBE_WAVE_GAP
  }

  ghost predicate GenInv(s: State, g: Generation) {
    && g.stamp <= s.lastWave
    && (g.phase != Landed ==> KeyOf(g) in s.inflight)
    && (g.phase == Running ==> KeyOf(g) !in s.backoff)
    && (Waiting(g) ==> Held(s, KeyOf(g), g.notBefore))
  }

  ghost predicate Turns(gens: seq<Generation>) {
    forall i, j :: 0 <= i < j < |gens| ==> InTurn(gens[i], gens[j])
  }

  // A table entry always has a generation behind it.
  ghost predicate Backed(s: State) {
    && (forall k :: k in s.inflight ==>
          exists i :: 0 <= i < |s.gens| && KeyOf(s.gens[i]) == k && s.gens[i].phase != Landed)
    && (forall k :: k in s.backoff ==> exists i :: 0 <= i < |s.gens| && HoldsBack(s, i, k))
  }

  predicate HoldsBack(s: State, i: nat, k: string)
    requires i < |s.gens| && k in s.backoff
  {
    KeyOf(s.gens[i]) == k && Waiting(s.gens[i]) && s.gens[i].notBefore == s.backoff[k]
  }

  ghost predicate InOrder(s: State) {
    && |s.recorded| == |s.order|
    && (forall k :: 0 <= k < |s.order| ==>
          && s.order[k] < |s.gens| && s.gens[s.order[k]].phase in {Recorded, Landed}
          && s.recorded[k] == SampleOf(s.gens[s.order[k]]))
    && (forall k, l :: 0 <= k < l < |s.order| ==> s.order[k] != s.order[l])
  }

  ghost predicate Paced(s: State) {
    && Spaced(s.waves) && (s.waves != [] ==> s.waves[|s.waves| - 1] == s.lastWave)
    && (forall i :: 0 <= i < |s.gens| ==> GenInv(s, s.gens[i]))
    && Turns(s.gens)
  }

  ghost predicate Inv(s: State) {
    Paced(s) && Backed(s) && InOrder(s)
  }

  lemma WaveKeepsPace(s: State, now: Instant, targets: seq<Request>)
    requires Paced(s)
    ensures Paced(Apply(s, Wave(now, targets)))
  {
    if !TooSoon(now, s.lastWave) {
      var s' := Apply(s, Wave(now, targets));
      var live := Live(s.inflight, s.backoff, now, targets, 0);
      LiveIsExactly(s.inflight, s.backoff, now, targets, 0);
      assert forall t :: t in live ==> Free(s.inflight, s.backoff, now, Key(t));
      forall i | 0 <= i < |s'.gens|
        ensures GenInv(s', s'.gens[i])
      {
        if i < |s.gens| {
          assert GenInv(s, s.gens[i]);
        } else {
          assert live[i - |s.gens|] in live;
        }
      }
      forall i, j | 0 <= i < j < |s'.gens|
        ensures InTurn(s'.gens[i], s'.gens[j])
      {
        if j >= |s.gens| {
          assert live[j - |s.gens|] in live;
          if i < |s.gens| {
            assert GenInv(s, s.gens[i]);
          }
        }
      }
    }
  }

  lemma AnswerKeepsPace(s: State, e: Event)
    requires Paced(s) && e.Answer? && Enabled(s, e)
    ensures Paced(Apply(s, e))
  {
    var g, s' := e.gen, Apply(s, e);
    assert GenInv(s, s.gens[g]);
    forall i | 0 <= i < |s'.gens|
      ensures GenInv(s', s'.gens[i])
    {
      assert GenInv(s, s.gens[i]);
      if i < g {
        assert InTurn(s.gens[i], s.gens[g]);
      } else if i > g {
        assert InTurn(s.gens[g], s.gens[i]);
      }
    }
    forall i, j | 0 <= i < j < |s'.gens|
      ensures InTurn(s'.gens[i], s'.gens[j])
    {
      assert InTurn(s.gens[i], s.gens[j]);
    }
  }

  lemma EndKeepsPace(s: State, e: Event)
    requires Paced(s) && (e.Store? || e.Land?) && Enabled(s, e)
    ensures Paced(Apply(s, e))
  {
    var g, s' := e.gen, Apply(s, e);
    forall i | 0 <= i < |s'.gens|
      ensures GenInv(s', s'.gens[i])
    {
      assert GenInv(s, s.gens[i]) && GenInv(s, s.gens[g]);
      if i < g {
        assert InTurn(s.gens[i], s.gens[g]);
      } else if i > g {
        assert InTurn(s.gens[g], s.gens[i]);
      }
    }
    forall i, j | 0 <= i < j < |s'.gens|
      ensures InTurn(s'.gens[i], s'.gens[j])
    {
      assert InTurn(s.gens[i], s.gens[j]);
    }
  }

  lemma WaveKeepsBacked(s: State, now: Instant, targets: seq<Request>)
    requires Backed(s)
    ensures Backed(Apply(s, Wave(now, targets)))
  {
    if !TooSoon(now, s.lastWave) {
      var s' := Apply(s, Wave(now, targets));
      var live := Live(s.inflight, s.backoff, now, targets, 0);
      forall k | k in s'.inflight
        ensures exists i :: 0 <= i < |s'.gens| && KeyOf(s'.gens[i]) == k && s'.gens[i].phase != Landed
      {
        if k in s.inflight {
          var i :| 0 <= i < |s.gens| && KeyOf(s.gens[i]) == k && s.gens[i].phase != Landed;
          assert s'.gens[i] == s.gens[i];
        } else {
          var a :| 0 <= a < |live| && Key(live[a]) == k;
          assert s'.gens[|s.gens| + a] == Launched(live, now)[a];
        }
      }
      forall k | k in s'.backoff
        ensures exists i :: 0 <= i < |s'.gens| && HoldsBack(s', i, k)
      {
        var i :| 0 <= i < |s.gens| && HoldsBack(s, i, k);
        assert HoldsBack(s', i, k);
      }
    }
  }

  lemma EndKeepsBacked(s: State, e: Event)
    requires Backed(s) && !e.Wave? && Enabled(s, e)
    ensures Backed(Apply(s, e))
  {
    var g, s' := e.gen, Apply(s, e);
    forall k | k in s'.inflight
      ensures exists i :: 0 <= i < |s'.gens| && KeyOf(s'.gens[i]) == k && s'.gens[i].phase != Landed
    {
      var i :| 0 <= i < |s.gens| && KeyOf(s.gens[i]) == k && s.gens[i].phase != Landed;
      assert KeyOf(s'.gens[i]) == k && s'.gens[i].phase != Landed;
    }
    forall k | k in s'.backoff
      ensures exists i :: 0 <= i < |s'.gens| && HoldsBack(s', i, k)
    {
      if e.Answer? && k == KeyOf(s.gens[g]) && e.reading.retryAfter > 0 {
        assert HoldsBack(s', g, k);
      } else {
        var i :| 0 <= i < |s.gens| && HoldsBack(s, i, k);
        assert HoldsBack(s', i, k);
      }
    }
  }

  lemma StepKeepsOrder(s: State, e: Event)
    requires InOrder(s) && Enabled(s, e)
    ensures InOrder(Apply(s, e))
  {
    var s' := Apply(s, e);
    assert forall i :: 0 <= i < |s.gens| && s.gens[i].phase in {Recorded, Landed} ==>
             s'.gens[i].phase in {Recorded, Landed} && SampleOf(s'.gens[i]) == SampleOf(s.gens[i]);
  }

  lemma StepKeepsInv(s: State, e: Event)
    requires Inv(s) && Enabled(s, e)
    ensures Inv(Apply(s, e))
  {
    StepKeepsOrder(s, e);
    if e.Wave? {
      WaveKeepsPace(s, e.now, e.targets);
      WaveKeepsBacked(s, e.now, e.targets);
    } else {
      EndKeepsBacked(s, e);
      if e.Answer? {
        AnswerKeepsPace(s, e);
      } else {
        EndKeepsPace(s, e);
      }
    }
  }

  lemma {:induction false} RunKeepsInv(s: State, es: seq<Event>)
    requires Inv(s) && IsRun(s, es)
    ensures Inv(Final(s, es))
    decreases |es|
  {
    if es != [] {
      StepKeepsInv(s, es[0]);
      RunKeepsInv(Apply(s, es[0]), es[1..]);
    }
  }

  // At most one generation per backend and model is ever in flight.
  lemma OneGenerationPerBackend(es: seq<Event>, i: nat, j: nat)
    requires IsRun(IDLE, es)
    requires i < j < |Final(IDLE, es).gens|
    requires Final(IDLE, es).gens[i].phase != Landed && Final(IDLE, es).gens[j].phase != Landed
    ensures var a, b := Final(IDLE, es).gens[i].request, Final(IDLE, es).gens[j].request;
      a.base != b.base || a.model != b.model
  {
    RunKeepsInv(IDLE, es);
    assert InTurn(Final(IDLE, es).gens[i], Final(IDLE, es).gens[j]);
  }

  // Committed waves keep their distance, whatever the clock does in between.
  lemma WavesKeepTheirDistance(es: seq<Event>, i: nat, j: nat)
    requires IsRun(IDLE, es) && i < j < |Final(IDLE, es).waves|
    ensures Final(IDLE, es).waves[j] - Final(IDLE, es).waves[i] >= PROBE_WAVE_GAP
  {
    RunKeepsInv(IDLE, es);
  }

  // After an answer that asked to wait r from t on, no later generation of
  // that backend and model carries a stamp below t + r.
  lemma RetryAfterIsHonoured(es: seq<Event>, g: nat, clock: Instant, reading: Reading,
                             later: seq<Event>, j: nat)
    requires IsRun(IDLE, es) && reading.retryAfter > 0
    requires Enabled(Final(IDLE, es), Answer(g, clock, reading))
    requires IsRun(Apply(Final(IDLE, es), Answer(g, clock, reading)), later)
    ensures var s := Apply(Final(IDLE, es), Answer(g, clock, reading));
      var end := Final(s, later);
      |s.gens| <= |end.gens| &&
      (|s.gens| <= j < |end.gens| && KeyOf(end.gens[j]) == KeyOf(s.gens[g]) ==>
         end.gens[j].stamp >= clock + reading.retryAfter)
  {
    var s := Apply(Final(IDLE, es), Answer(g, clock, reading));
    RunKeepsInv(IDLE, es);
    StepKeepsInv(Final(IDLE, es), Answer(g, clock, reading));
    RunKeepsInv(s, later);
    AnswerStays(s, later, g);
    var end := Final(s, later);
    if |s.gens| <= j < |end.gens| {
      assert InTurn(end.gens[g], end.gens[j]);
    }
  }

  // What a generation was answered is never rewritten.
  lemma {:induction false} AnswerStays(s: State, es: seq<Event>, g: nat)
    requires IsRun(s, es) && g < |s.gens| && s.gens[g].phase != Running
    ensures var end := Final(s, es);
      && |s.gens| <= |end.gens| && end.gens[g].phase != Running
      && end.gens[g].request == s.gens[g].request && end.gens[g].reading == s.gens[g].reading
      && end.gens[g].notBefore == s.gens[g].notBefore
    decreases |es|
  {
    if es != [] {
      AnswerStays(Apply(s, es[0]), es[1..], g);
    }
  }

  // The protocol never produces twins, so two runs whose generations yielded
  // the same samples hold the same ring, however differently they finished.
  lemma RingForgetsTheSchedule(a: seq<Event>, b: seq<Event>)
    requires IsRun(IDLE, a) && IsRun(IDLE, b)
    requires multiset(Final(IDLE, a).recorded) == multiset(Final(IDLE, b).recorded)
    ensures NoTwins(ProbeCmp, Final(IDLE, a).recorded)
    ensures Ring(Final(IDLE, a).recorded) == Ring(Final(IDLE, b).recorded)
  {
    RunKeepsInv(IDLE, a);
    SamplesHaveNoTwins(Final(IDLE, a));
    FinishingOrderDoesNotMatter(Final(IDLE, a).recorded, Final(IDLE, b).recorded);
  }

  lemma SamplesHaveNoTwins(s: State)
    requires Inv(s)
    ensures NoTwins(ProbeCmp, s.recorded)
  {
    forall k, l | 0 <= k < l < |s.recorded|
      ensures ProbeCmp(s.recorded[k], s.recorded[l]) != 0
    {
      var i, j := s.order[k], s.order[l];
      StringCmpEqual(s.recorded[k].addr, s.recorded[l].addr, 0);
      StringCmpEqual(s.recorded[k].model, s.recorded[l].model, 0);
      if i < j {
        assert InTurn(s.gens[i], s.gens[j]);
      } else {
        assert InTurn(s.gens[j], s.gens[i]);
      }
    }
  }

  // When a committed wave probes a target: exactly if every earlier generation
  // of its backend and model is over and has waited as long as it was told to.
  lemma TargetIsProbedIff(es: seq<Event>, now: Instant, targets: seq<Request>, t: Request)
    requires IsRun(IDLE, es) && t in targets && !TooSoon(now, Final(IDLE, es).lastWave)
    ensures var s := Final(IDLE, es);
      Key(t) in Keys(Live(s.inflight, s.backoff, now, targets, 0)) <==>
      forall i :: 0 <= i < |s.gens| && KeyOf(s.gens[i]) == Key(t) ==>
        s.gens[i].phase == Landed && (Waiting(s.gens[i]) ==> s.gens[i].notBefore <= now)
  {
    var s := Final(IDLE, es);
    RunKeepsInv(IDLE, es);
    LiveIsExactly(s.inflight, s.backoff, now, targets, 0);
    assert targets[0..] == targets;
    if Key(t) in s.inflight {
      var i :| 0 <= i < |s.gens| && KeyOf(s.gens[i]) == Key(t) && s.gens[i].phase != Landed;
    } else if Key(t) in s.backoff && now < s.backoff[Key(t)] {
      var i :| 0 <= i < |s.gens| && HoldsBack(s, i, Key(t));
    } else {
      assert Free(s.inflight, s.backoff, now, Key(t));
      forall i | 0 <= i < |s.gens| && KeyOf(s.gens[i]) == Key(t)
        ensures s.gens[i].phase == Landed && (Waiting(s.gens[i]) ==> s.gens[i].notBefore <= now)
      {
        assert GenInv(s, s.gens[i]);
      }
    }
  }
}

// The scheduler's fields in place, each critical section one method.
module Prober {
  import opened Base
  import opened Feed
  import opened Probes
  import opened Scheduler
  import opened ProbeRuns

  lemma {:induction false} OneMoreEvent(s: State, es: seq<Event>, e: Event)
    requires IsRun(s, es) && Enabled(Final(s, es), e)
    ensures IsRun(s, es + [e]) && Final(s, es + [e]) == Apply(Final(s, es), e)
    decreases |es|
  {
    if es == [] {
      assert es + [e] == [e];
    } else {
      TailOfAppend(es, [e]);
      OneMoreEvent(Apply(s, es[0]), es[1..], e);
    }
  }

  class ProbeTable {
    const collector: Collector
    var lastProbeWave: Instant
    var probeInflight: set<string>
    var probeBackoff: map<string, Instant>
    ghost var history: seq<Event>

    // Where the protocol stands: the methods called so far, one event each.
    ghost function Stage(): State
      reads this
    {
      if IsRun(IDLE, history) then Final(IDLE, history) else IDLE
    }

    // The fields are those of the protocol, and the ring holds what it recorded.
    ghost predicate Valid()
      reads this, collector
    {
      && IsRun(IDLE, history)
      && lastProbeWave == Stage().lastWave && probeInflight == Stage().inflight && probeBackoff == Stage().backoff
      && collector.Valid() && collector.probes == Ring(Stage().recorded)
    }

    constructor (collector: Collector)
      requires collector.Valid() && collector.probes == []
      ensures Valid() && this.collector == collector && history == []
    {
      this.collector := collector;
      lastProbeWave, probeInflight, probeBackoff, history := 0, {}, map[], [];
    }

    // The goroutine of generation g has this request and its wave's stamp.
    ghost predicate Serves(g: nat, t: Request, stamp: Instant)
      reads this
    {
      g < |Stage().gens| && Stage().gens[g].request == t && Stage().gens[g].stamp == stamp
    }

    // ProbeAll up to the launch of its goroutines.
    method ProbeAll(now: Instant, targets: seq<Request>) returns (live: seq<Request>)
      requires Valid()
      modifies this
      ensures Valid() && history == old(history) + [Wave(now, targets)]
      ensures live == if now - old(lastProbeWave) < 500_000_000 then []
                      else Live(old(probeInflight), old(probeBackoff), now, targets, 0)
      ensures forall i :: 0 <= i < |live| ==> Serves(|old(Stage().gens)| + i, live[i], now)
    {
      OneMoreEvent(IDLE, history, Wave(now, targets));
      history := history + [Wave(now, targets)];
      if TooSoon(now, lastProbeWave) {
        return [];
      }
      lastProbeWave := now;
      live := Claim(now, targets);
    }

    // The loop over the targets, under the mutex.
    method Claim(now: Instant, targets: seq<Request>) returns (live: seq<Request>)
      modifies `probeInflight, `probeBackoff
      ensures live == Live(old(probeInflight), old(probeBackoff), now, targets, 0)
      ensures probeInflight == old(probeInflight) + Keys(live)
      ensures probeBackoff == old(probeBackoff) - Keys(live)
    {
      live := [];
      var i := 0;
      while i < |targets|
        invariant i <= |targets|
        invariant live + Live(probeInflight, old(probeBackoff), now, targets, i) ==
                  Live(old(probeInflight), old(probeBackoff), now, targets, 0)
        invariant probeInflight == old(probeInflight) + Keys(live)
        invariant probeBackoff == old(probeBackoff) - Keys(live)
      {
        var t, key := targets[i], Key(targets[i]);
        if key !in probeInflight && !(key in probeBackoff && now < probeBackoff[key]) {
          Associative(live, [t], Live(probeInflight + {key}, old(probeBackoff), now, targets, i + 1));
          KeysGrow(live, t);
          probeBackoff := probeBackoff - {key};
          probeInflight := probeInflight + {key};
          live := live + [t];
        }
        i := i + 1;
      }
    }

    // A generation has its answer. Told to wait, its key is taken by no wave
    // before then.
    method Backoff(ghost g: nat, t: Request, ghost stamp: Instant, clock: Instant, reading: Reading)
      requires Valid() && Serves(g, t, stamp) && Enabled(Stage(), Answer(g, clock, reading))
      modifies this
      ensures Valid() && history == old(history) + [Answer(g, clock, reading)]
      ensures Serves(g, t, stamp) && Stage().gens[g].reading == reading && Enabled(Stage(), Event.Store(g))
      ensures reading.retryAfter > 0 ==>
                forall now :: now < clock + reading.retryAfter ==> !Free(probeInflight, probeBackoff, now, Key(t))
    {
      OneMoreEvent(IDLE, history, Answer(g, clock, reading));
      history := history + [Answer(g, clock, reading)];
      if reading.retryAfter > 0 {
        probeBackoff := probeBackoff[Key(t) := clock + reading.retryAfter];
      }
    }

    // It records its sample, dated by its wave.
    method Store(ghost g: nat, t: Request, stamp: Instant, reading: Reading)
      requires Valid() && Serves(g, t, stamp) && Enabled(Stage(), Event.Store(g)) && Stage().gens[g].reading == reading
      modifies `history, collector`probes
      ensures Valid() && history == old(history) + [Event.Store(g)]
      ensures Serves(g, t, stamp) && Enabled(Stage(), Event.Land(g))
      ensures var was, all := old(Stage().recorded), Stage().recorded;
        |all| == |was| + 1 && all[..|was|] == was && IsReadingOf(all[|was|], t, stamp, reading)
    {
      OneMoreEvent(IDLE, history, Event.Store(g));
      RingGrowsByPush(Stage().recorded, Measured(t, stamp, reading));
      history := history + [Event.Store(g)];
      collector.RecordProbe(Measured(t, stamp, reading));
    }

    // The deferred end of its goroutine: the key is free again once its wait is
    // over, and no other key's turn has changed.
    method Land(ghost g: nat, t: Request, ghost stamp: Instant)
      requires Valid() && Serves(g, t, stamp) && Enabled(Stage(), Event.Land(g))
      modifies this
      ensures Valid() && history == old(history) + [Event.Land(g)]
      ensures forall now :: Free(probeInflight, probeBackoff, now, Key(t)) <==>
                            !(Key(t) in probeBackoff && now < probeBackoff[Key(t)])
      ensures forall now, key :: key != Key(t) ==>
                (Free(probeInflight, probeBackoff, now, key) <==>
                 Free(old(probeInflight), old(probeBackoff), now, key))
    {
      OneMoreEvent(IDLE, history, Event.Land(g));
      history := history + [Event.Land(g)];
      probeInflight := probeInflight - {Key(t)};
    }
  }
}
