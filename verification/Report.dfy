// The delta reporting of internal/agentwatch/agentwatch.go: what one tracker
// sends the feed adds up to what its transcripts hold.
module Report {
  import opened Base
  import opened Counters
  import opened Decimal
  import opened Feed
  import opened Processes
  import opened Tallies
  import opened Tail
  import opened Watcher

  function Share(s: Sample, f: Field): Count {
    match f
    case Output => s.output
    case Thinking => s.thinking
    case Input => s.input
  }

  // What an event carries of a count.
  function Carried(e: AgentEvent, f: Field): int {
    match f
    case Output => e.outputTokens
    case Thinking => e.thinkingTokens
    case Input => e.promptTokens
  }

  predicate IsEmpty(s: Sample) {
    !Values(s.output, s.thinking, s.total, s.input).Present()
  }

  // Growth in any reported count; growth in the context size alone is none.
  predicate IsNews(last: Sample, cur: Sample) {
    !IsEmpty(cur) && (cur.output > last.output || cur.thinking > last.thinking || cur.input > last.input)
  }

  // How free text is cleaned and cut to n characters, and a directory shortened.
  datatype Wording = Wording(clean: (string, nat) -> string, shortDir: string -> string)

  datatype Follower = Follower(process: Process, wording: Wording)

  function SampleID(p: Process, at: int): string {
    "aw:" + FormatInt(p.pid) + ":" + FormatInt(p.started) + ":" + FormatInt(at)
  }

  // via is the engine it generates through, "" for none.
  function Note(fo: Follower, thinking: int, via: string): string {
    fo.wording.shortDir(fo.process.dir)
    + (if thinking > 0 then " \U{B7} " + Itoa(thinking) + " reasoning" else "")
    + if via != "" then " \U{B7} counted by engine " + via else ""
  }

  // The event one report sends.
  function EventOf(fo: Follower, via: string, last: Sample, cur: Sample, clock: Instant): AgentEvent {
    var agent := fo.wording.clean(fo.process.tool, 64);
    var think := cur.thinking - last.thinking;
    AgentEvent(clock, SampleID(fo.process, cur.at), if agent == "" then "anonymous" else agent, "", "turn",
               Max(cur.input - last.input, 0), Max(cur.output - last.output, 0), Max(think, 0),
               fo.wording.clean(via, 128), fo.wording.clean(Note(fo, think, via), 512))
  }

  // That event, field by field: the positive growth of each count since the last
  // report, dated by the clock, under the id of the process and the sample.
  ghost predicate Says(fo: Follower, via: string, last: Sample, cur: Sample, clock: Instant, e: AgentEvent) {
    && e.at == clock && e.id == SampleID(fo.process, cur.at)
    && e.outputTokens == (if cur.output > last.output then cur.output - last.output else 0)
    && e.promptTokens == (if cur.input > last.input then cur.input - last.input else 0)
    && e.thinkingTokens == (if cur.thinking > last.thinking then cur.thinking - last.thinking else 0)
    && e.viaEngine == fo.wording.clean(via, 128)
    && e.agent == (if fo.wording.clean(fo.process.tool, 64) == "" then "anonymous"
                   else fo.wording.clean(fo.process.tool, 64))
    && e.kind == "turn" && e.model == ""
    && e.note == fo.wording.clean(
                   fo.wording.shortDir(fo.process.dir)
                   + (if cur.thinking > last.thinking
                      then " \U{B7} " + Itoa(cur.thinking - last.thinking) + " reasoning" else "")
                   + (if via == "" then "" else " \U{B7} counted by engine " + via), 512)
  }

  // One report, from what was last reported, had been sent and stood in the feed
  // to what is, has and does afterwards. Nothing is sent unless the sample holds
  // something and a reported count grew.
  ghost predicate Reported(fo: Follower, via: string, cur: Sample, clock: Instant, now: Instant,
                           last: Sample, last': Sample, sent: seq<AgentEvent>, sent': seq<AgentEvent>,
                           feed: seq<AgentEvent>, feed': seq<AgentEvent>)
  {
    if (cur.output > 0 || cur.thinking > 0 || cur.total > 0 || cur.input > 0) &&
       (cur.output > last.output || cur.thinking > last.thinking || cur.input > last.input)
    then && last' == cur && |sent'| == |sent| + 1 && sent'[..|sent|] == sent
         && Says(fo, via, last, cur, clock, sent'[|sent|])
         && feed' == Record(feed, Stamped(sent'[|sent|], now))
    else last' == last && sent' == sent && feed' == feed
  }

  lemma EventSays(fo: Follower, via: string, last: Sample, cur: Sample, clock: Instant)
    ensures Says(fo, via, last, cur, clock, EventOf(fo, via, last, cur, clock))
  {
  }

  lemma SaysGrowth(fo: Follower, via: string, last: Sample, cur: Sample, clock: Instant, e: AgentEvent, f: Field)
    requires Says(fo, via, last, cur, clock, e)
    ensures Carried(e, f) == Max(Share(cur, f) - Share(last, f), 0)
  {
  }

  // An id stands for one sample of one process: the feed drops a second event
  // under it as a repeat of the same reading, and drops nothing else.
  lemma SampleIDNamesTheSample(p: Process, a: int, q: Process, b: int)
    ensures SampleID(p, a) == SampleID(q, b) <==> p.pid == q.pid && p.started == q.started && a == b
  {
    if SampleID(p, a) == SampleID(q, b) {
      NumeralsHoldNoColon(a);
      NumeralsHoldNoColon(b);
      NumeralsHoldNoColon(p.started);
      NumeralsHoldNoColon(q.started);
      SuffixIsUnique("aw:" + FormatInt(p.pid) + ":" + FormatInt(p.started), FormatInt(a),
                     "aw:" + FormatInt(q.pid) + ":" + FormatInt(q.started), FormatInt(b));
      SuffixIsUnique("aw:" + FormatInt(p.pid), FormatInt(p.started), "aw:" + FormatInt(q.pid), FormatInt(q.started));
      assert ("aw:" + FormatInt(p.pid))[3..] == FormatInt(p.pid);
      assert ("aw:" + FormatInt(q.pid))[3..] == FormatInt(q.pid);
      FormatIntIsInjective(p.pid, q.pid);
      FormatIntIsInjective(p.started, q.started);
      FormatIntIsInjective(a, b);
    }
  }

  // A count over all events sent.
  function Recorded(sent: seq<AgentEvent>, f: Field): int {
    if sent == [] then 0 else Carried(sent[0], f) + Recorded(sent[1..], f)
  }

  lemma {:induction false} RecordedAppend(a: seq<AgentEvent>, b: seq<AgentEvent>, f: Field)
    ensures Recorded(a + b, f) == Recorded(a, f) + Recorded(b, f)
  {
    if a == [] {
      assert a + b == b;
    } else {
      TailOfAppend(a, b);
      RecordedAppend(a[1..], b, f);
    }
  }

  lemma RecordedMore(sent: seq<AgentEvent>, sent': seq<AgentEvent>, f: Field)
    requires |sent'| == |sent| + 1 && sent'[..|sent|] == sent
    ensures Recorded(sent', f) == Recorded(sent, f) + Carried(sent'[|sent|], f)
  {
    var e := sent'[|sent|];
    assert sent' == sent + [e];
    RecordedAppend(sent, [e], f);
    assert [e][1..] == [];
  }

  // The events sent, the last reported sample and the current one agree.
  ghost predicate Agrees(sent: seq<AgentEvent>, last: Sample, sample: Sample) {
    forall f :: Share(last, f) == Share(sample, f) == Recorded(sent, f)
  }

  ghost predicate AddsUp(sent: seq<AgentEvent>, seen: map<Path, Values>) {
    forall f :: Recorded(sent, f) == Min(SumSeen(seen, f), MAX_INT)
  }

  lemma OneMoreReport(fo: Follower, via: string, before: Sample, cur: Sample, clock: Instant, now: Instant,
                      last: Sample, last': Sample, sent: seq<AgentEvent>, sent': seq<AgentEvent>,
                      feed: seq<AgentEvent>, feed': seq<AgentEvent>)
    requires Agrees(sent, last, before) && SampleAtMost(before, cur)
    requires Reported(fo, via, cur, clock, now, last, last', sent, sent', feed, feed')
    ensures Agrees(sent', last', cur)
  {
    assert Share(last, Output) == Share(before, Output) && Share(last, Thinking) == Share(before, Thinking);
    assert Share(last, Input) == Share(before, Input);
    forall f
      ensures Share(last', f) == Share(cur, f) == Recorded(sent', f)
    {
      if |sent'| > |sent| {
        SaysGrowth(fo, via, last, cur, clock, sent'[|sent|], f);
        RecordedMore(sent, sent', f);
      }
    }
  }

  lemma AgreedAddsUp(sent: seq<AgentEvent>, last: Sample, sample: Sample,
                     seen: map<Path, Values>, total: map<Path, Count>)
    requires Agrees(sent, last, sample) && Reads(sample, seen, total)
    ensures AddsUp(sent, seen)
  {
    forall f
      ensures Recorded(sent, f) == Min(SumSeen(seen, f), MAX_INT)
    {
      assert Share(last, f) == Share(sample, f);
    }
  }

  // What the forced walk of a final report meets, and the clocks it reads.
  datatype Farewell = Farewell(listing: seq<Path>, views: seq<View>, polled: int, clock: Instant, now: Instant)

  class Tracked {
    const watch: Watcher
    const rec: Collector
    const follower: Follower
    var viaEngine: string
    var last: Sample
    // Every event handed to the collector.
    ghost var sent: seq<AgentEvent>

    // Everything sent so far is what the transcripts hold, up to the machine's
    // integer.
    ghost predicate Synced()
      reads this, watch
    {
      watch.Settled() && Agrees(sent, last, watch.sample) && AddsUp(sent, watch.seen)
    }

    constructor (watch: Watcher, rec: Collector, follower: Follower)
      requires watch.Settled() && watch.sample == EMPTY_SAMPLE
      ensures this.watch == watch && this.rec == rec && this.follower == follower
      ensures Synced() && sent == []
    {
      this.watch, this.rec, this.follower := watch, rec, follower;
      viaEngine, last, sent := "", EMPTY_SAMPLE, [];
    }

    method Report(cur: Sample, clock: Instant, now: Instant)
      requires rec.Valid()
      modifies `last, `sent, rec`agents
      ensures rec.Valid()
      ensures Reported(follower, viaEngine, cur, clock, now, old(last), last, old(sent), sent,
                       old(rec.agents), rec.agents)
    {
      if IsEmpty(cur) {
        return;
      }
      var out, think, prompt := cur.output - last.output, cur.thinking - last.thinking, cur.input - last.input;
      if out <= 0 && think <= 0 && prompt <= 0 {
        return;
      }
      var e := Worded(cur, clock);
      last := cur;
      sent := sent + [e];
      rec.RecordAgent(e, now);
    }

    method Worded(cur: Sample, clock: Instant) returns (e: AgentEvent)
      ensures Says(follower, viaEngine, last, cur, clock, e)
    {
      EventSays(follower, viaEngine, last, cur, clock);
      return EventOf(follower, viaEngine, last, cur, clock);
    }

    // One tick of a tracker's loop: a poll, and a report when it grew.
    method Tick(rescan: bool, listing: seq<Path>, views: seq<View>, polled: int, clock: Instant, now: Instant)
      requires Synced() && rec.Valid()
      requires |views| == if rescan then |listing| else |watch.cached|
      modifies `last, `sent, watch, rec`agents
      ensures Synced() && rec.Valid()
      ensures SampleAtMost(old(watch.sample), watch.sample)
      ensures if SampleAtMost(watch.sample, old(watch.sample))
              then last == old(last) && sent == old(sent) && rec.agents == old(rec.agents)
              else Reported(follower, viaEngine, watch.sample, clock, now, old(last), last, old(sent), sent,
                            old(rec.agents), rec.agents)
    {
      ghost var before, last0, sent0, feed := watch.sample, last, sent, rec.agents;
      var grew := watch.Poll(rescan, listing, views, polled);
      if grew {
        Report(watch.sample, clock, now);
        OneMoreReport(follower, viaEngine, before, watch.sample, clock, now, last0, last, sent0, sent,
                      feed, rec.agents);
      }
      AgreedAddsUp(sent, last, watch.sample, watch.seen, watch.total);
    }

    // The last word of a follower that is stopped: a forced walk, and a report
    // of what it found, which may be nothing new.
    method Final(bye: Farewell)
      requires Synced() && rec.Valid() && |bye.views| == |bye.listing|
      modifies `last, `sent, watch, rec`agents
      ensures Synced() && rec.Valid()
      ensures SampleAtMost(old(watch.sample), watch.sample)
      ensures Reported(follower, viaEngine, watch.sample, bye.clock, bye.now, old(last), last, old(sent), sent,
                       old(rec.agents), rec.agents)
    {
      ghost var before, last0, sent0, feed := watch.sample, last, sent, rec.agents;
      var _ := watch.Poll(true, bye.listing, bye.views, bye.polled);
      Report(watch.sample, bye.clock, bye.now);
      OneMoreReport(follower, viaEngine, before, watch.sample, bye.clock, bye.now, last0, last, sent0, sent,
                    feed, rec.agents);
      AgreedAddsUp(sent, last, watch.sample, watch.seen, watch.total);
    }
  }

  // A sample as it comes to be reported: with the engine the agent then uses,
  // and the clock.
  datatype Moment = Moment(cur: Sample, via: string, clock: Instant)

  // Any samples at all, one report each.
  function LastOf(last: Sample, moments: seq<Moment>): Sample
    decreases |moments|
  {
    if moments == [] then last else LastOf(Next(last, moments[0].cur), moments[1..])
  }

  function Next(last: Sample, cur: Sample): Sample {
    if IsNews(last, cur) then cur else last
  }

  function Sent(fo: Follower, last: Sample, moments: seq<Moment>): seq<AgentEvent>
    decreases |moments|
  {
    if moments == [] then [] else
      var m := moments[0];
      (if IsNews(last, m.cur) then [EventOf(fo, m.via, last, m.cur, m.clock)] else []) +
      Sent(fo, Next(last, m.cur), moments[1..])
  }

  // How far f fell in all, over the reported samples.
  function Falls(last: Sample, moments: seq<Moment>, f: Field): nat
    decreases |moments|
  {
    if moments == [] then 0
    else if !IsNews(last, moments[0].cur) then Falls(last, moments[1..], f)
    else Max(Share(last, f) - Share(moments[0].cur, f), 0) + Falls(moments[0].cur, moments[1..], f)
  }

  lemma FirstSent(fo: Follower, last: Sample, m: Moment, f: Field)
    ensures Carried(EventOf(fo, m.via, last, m.cur, m.clock), f) == Max(Share(m.cur, f) - Share(last, f), 0)
  {
    EventSays(fo, m.via, last, m.cur, m.clock);
    SaysGrowth(fo, m.via, last, m.cur, m.clock, EventOf(fo, m.via, last, m.cur, m.clock), f);
  }

  // Conservation: what was sent is what the last report says, plus every fall
  // on the way. So the events add up to the last reported sample exactly when
  // that count never fell between two reports.
  lemma {:induction false} RecordsAddUp(fo: Follower, last: Sample, moments: seq<Moment>, f: Field)
    ensures Share(last, f) + Recorded(Sent(fo, last, moments), f) ==
            Share(LastOf(last, moments), f) + Falls(last, moments, f)
    decreases |moments|
  {
    if moments != [] {
      var m := moments[0];
      RecordsAddUp(fo, Next(last, m.cur), moments[1..], f);
      if IsNews(last, m.cur) {
        FirstSent(fo, last, m, f);
        RecordedFirst(EventOf(fo, m.via, last, m.cur, m.clock), Sent(fo, m.cur, moments[1..]), f);
      } else {
        assert [] + Sent(fo, last, moments[1..]) == Sent(fo, last, moments[1..]);
      }
    }
  }

  lemma RecordedFirst(e: AgentEvent, more: seq<AgentEvent>, f: Field)
    ensures Recorded([e] + more, f) == Carried(e, f) + Recorded(more, f)
  {
    assert ([e] + more)[1..] == more;
  }

  ghost predicate Rises(moments: seq<Moment>) {
    forall i, j :: 0 <= i < j < |moments| ==> SampleAtMost(moments[i].cur, moments[j].cur)
  }

  // Samples that never fall are sent in full, even those that were not reported
  // one by one.
  lemma RisingSamplesAddUp(fo: Follower, moments: seq<Moment>, f: Field)
    requires moments != [] && Rises(moments)
    ensures Recorded(Sent(fo, EMPTY_SAMPLE, moments), f) == Share(moments[|moments| - 1].cur, f)
  {
    RecordsAddUp(fo, EMPTY_SAMPLE, moments, f);
    NothingFalls(EMPTY_SAMPLE, moments, f);
  }

  lemma {:induction false} NothingFalls(last: Sample, moments: seq<Moment>, f: Field)
    requires Rises(moments) && forall i :: 0 <= i < |moments| ==> SampleAtMost(last, moments[i].cur)
    ensures Falls(last, moments, f) == 0
    ensures moments != [] ==> Share(LastOf(last, moments), f) == Share(moments[|moments| - 1].cur, f)
    ensures moments == [] ==> LastOf(last, moments) == last
    decreases |moments|
  {
    if moments != [] {
      var next := Next(last, moments[0].cur);
      forall i | 0 <= i < |moments[1..]|
        ensures SampleAtMost(next, moments[1..][i].cur)
      {
        assert moments[1..][i] == moments[i + 1];
      }
      forall i, j | 0 <= i < j < |moments[1..]|
        ensures SampleAtMost(moments[1..][i].cur, moments[1..][j].cur)
      {
        assert moments[1..][i] == moments[i + 1] && moments[1..][j] == moments[j + 1];
      }
      NothingFalls(next, moments[1..], f);
    }
  }
}
