// What a transcript shows on the dashboard, for agents that report every
// message and for agents whose counters only grow: a function of the records
// after attach alone, whatever the schedule of polls and forgetting passes.
module Figures {
  import opened Base
  import opened Counters
  import opened Lines
  import opened Frames
  import opened Zstd
  import opened DshReader
  import opened Tallies
  import opened Tail
  import opened Torn
  import opened Runs
  import opened ExactlyOnce

  // A file's counting entries after recs, from the baseline attach gave it.
  function Shown(kind: Kind, pre: bool, base: Option<Values>, recs: seq<Values>): Tally {
    Fold(kind, pre, Based(base), recs)
  }

  function Based(base: Option<Values>): Tally {
    UNTOUCHED.(base := base)
  }

  // What of a cumulative counter is not this attach's: the seeded baseline,
  // else the first reading of a file that was there already, else nothing.
  function Origin(pre: bool, base: Option<Values>, recs: seq<Values>, f: Field): Count {
    if base.Some? then Get(base.value, f)
    else if pre && recs != [] then Get(recs[0], f)
    else 0
  }

  // The figures of both kinds in closed form.
  lemma ShownFigures(kind: Kind, pre: bool, base: Option<Values>, recs: seq<Values>, f: Field)
    ensures var t := Shown(kind, pre, base, recs);
      && t.total as int == LargestTotal(recs)
      && Get(t.Seen(), f) as int ==
           match kind
           case PerMessage => Min(Total(recs, f), MAX_INT)
           case Cumulative => Max(0, Largest(recs, f) - Origin(pre, base, recs, f))
  {
    var t := Based(base);
    match kind
    case PerMessage =>
      PerMessageSums(pre, t, recs, f);
    case Cumulative =>
      CumulativeTotal(pre, t, recs);
      if base.Some? {
        CumulativeIsLargestGrowth(pre, t, recs, f);
      } else if recs != [] {
        CumulativeIsLargestGrowth(pre, Apply(Cumulative, pre, t, recs[0]), recs[1..], f);
      }
  }

  lemma {:induction false} CumulativeTotal(pre: bool, t: Tally, recs: seq<Values>)
    ensures Fold(Cumulative, pre, t, recs).total as int == Max(t.total, LargestTotal(recs))
    decreases |recs|
  {
    if recs != [] {
      CumulativeTotal(pre, Apply(Cumulative, pre, t, recs[0]), recs[1..]);
    }
  }

  // The file's entries are what t0 became by the records counted so far.
  ghost predicate Folded(ad: Adapter, pre: bool, t0: Tally, s: Outcome) {
    s.file.pre == pre && s.file.tally == Fold(ad.kind, pre, t0, s.counted)
  }

  // Forgetting a file that attach did not meet changes none of its figures: it
  // has none yet. A file that attach did meet must be spared.
  lemma StepFolds(ad: Adapter, fmt: Format, content: Bytes, s: Outcome, e: Event, pre: bool, t0: Tally)
    requires Length(0, e) <= |content| && Folded(ad, pre, t0, s)
    requires e.Forget? ==> Kept(ad, s.file, false) || (!pre && t0 == UNTOUCHED)
    ensures Folded(ad, pre, t0, After(ad, fmt, content, s, e))
  {
    if !e.Forget? {
      StepTallies(ad, fmt, s.file, ViewOf(content, e));
      FoldAppend(ad.kind, pre, t0, s.counted, Step(ad, fmt, s.file, ViewOf(content, e)).1);
    } else if !Kept(ad, s.file, false) {
      FoldGrows(ad.kind, pre, t0, s.counted);
    }
  }

  lemma {:induction false} RunFolds(ad: Adapter, fmt: Format, content: Bytes, s: Outcome, events: seq<Event>,
                                    pre: bool, t0: Tally)
    requires AppendOnly(s.length, events, |content|) && Folded(ad, pre, t0, s)
    requires Spares(ad, fmt, content, s, events) || (!pre && t0 == UNTOUCHED)
    ensures Folded(ad, pre, t0, Run(ad, fmt, content, s, events))
    decreases |events|
  {
    if events != [] {
      FinalBounds(s.length, events, |content|);
      StepFolds(ad, fmt, content, s, events[0], pre, t0);
      RunFolds(ad, fmt, content, After(ad, fmt, content, s, events[0]), events[1..], pre, t0);
    }
  }

  // Forgetting is harmless: a file attach met is spared every time, or the file
  // is one attach never met, which has nothing to lose.
  ghost predicate Harmless(ad: Adapter, fmt: Format, content: Bytes, attach: nat,
                           pre: bool, base: Option<Values>, events: seq<Event>)
    requires AppendOnly(attach, events, |content|)
  {
    if pre then Spares(ad, fmt, content, Start(attach, pre, base), events) else attach == 0 && base.None?
  }

  // Agents without a session header need no such hypothesis: forgetIdle spares
  // what attach met.
  lemma HeaderlessIsHarmless(ad: Adapter, size: Positive, content: Bytes, attach: nat,
                             base: Option<Values>, events: seq<Event>)
    requires ad.header.None? && AppendOnly(attach, events, |content|)
    ensures Harmless(ad, PlainFormat(ad, size), content, attach, true, base, events)
  {
    forall src: Bytes
      ensures Settles(PlainFormat(ad, size), src)
    {
      LinesSettle(ad, size, src);
    }
    KeptForGood(ad, PlainFormat(ad, size), content, Start(attach, true, base), events);
  }

  // After a tail that saw the finished file, no forgetting pass does harm.
  lemma LaterIsHarmless(ad: Adapter, fmt: Format, content: Bytes, attach: nat, acct: Account, pre: bool,
                        base: Option<Values>, events: seq<Event>, tail: seq<Event>, rest: seq<Event>)
    requires Reads(fmt, content, attach, acct) && attach <= |content|
    requires Verdicts(ad, fmt, content, true) && fmt.verdict(content) == Some(true)
    requires ad.header.Some? ==> fmt.verdict([]) == None
    requires AppendOnly(attach, events, |content|) && Harmless(ad, fmt, content, attach, pre, base, events)
    requires var s := Run(ad, fmt, content, Start(attach, pre, base), events);
      && AppendOnly(s.length, tail, |content|) && Spares(ad, fmt, content, s, tail)
      && Completes(content, tail) > 0
      && AppendOnly(Run(ad, fmt, content, s, tail).length, rest, |content|)
    ensures var t := Run(ad, fmt, content, Run(ad, fmt, content, Start(attach, pre, base), events), tail);
      Spares(ad, fmt, content, t, rest) || (attach == 0 && !pre && base.None?)
  {
    var s := RunKeepsInv(ad, fmt, content, attach, acct, pre, base, events);
    RunSeals(ad, fmt, content, Start(attach, pre, base), events);
    if ad.header.Some? || pre {
      if pre {
        RunFolds(ad, fmt, content, Start(attach, pre, base), events, pre, Based(base));
      }
      RunInv(ad, fmt, content, attach, acct, s, tail);
      TailKeeps(ad, fmt, content, attach, acct, s, tail);
      KeptForGood(ad, fmt, content, Run(ad, fmt, content, s, tail), rest);
    }
  }

  lemma LifeFolds(ad: Adapter, fmt: Format, content: Bytes, attach: nat, pre: bool, base: Option<Values>,
                  events: seq<Event>, tail: seq<Event>, rest: seq<Event>)
    requires AppendOnly(attach, events, |content|) && Harmless(ad, fmt, content, attach, pre, base, events)
    requires var s := Run(ad, fmt, content, Start(attach, pre, base), events);
      && AppendOnly(s.length, tail, |content|) && Spares(ad, fmt, content, s, tail)
      && var t := Run(ad, fmt, content, s, tail);
      && AppendOnly(t.length, rest, |content|)
      && (Spares(ad, fmt, content, t, rest) || (attach == 0 && !pre && base.None?))
    ensures var s := Run(ad, fmt, content, Start(attach, pre, base), events);
      Folded(ad, pre, Based(base), Run(ad, fmt, content, Run(ad, fmt, content, s, tail), rest))
  {
    var s := Run(ad, fmt, content, Start(attach, pre, base), events);
    RunFolds(ad, fmt, content, Start(attach, pre, base), events, pre, Based(base));
    RunFolds(ad, fmt, content, s, tail, pre, Based(base));
    RunFolds(ad, fmt, content, Run(ad, fmt, content, s, tail), rest, pre, Based(base));
  }

  // An empty file gives no verdict where there is a header to wait for.
  lemma EmptyIsUndecidedLine(ad: Adapter, size: Positive)
    requires ad.header.Some?
    ensures PlainFormat(ad, size).verdict([]) == None
  {
    NoNewline([]);
  }

  lemma EmptyIsUndecidedLog(ad: Adapter, codec: Codec)
    requires ad.header.Some? && SelfContained(codec)
    ensures ZstdFormat(ad, codec).verdict([]) == None
  {
    FramingIsPrefixCode(codec);
    NothingAtEnd(FramingOf(codec), MAX_FRAME_BYTES, []);
  }

  lemma OnePoll(ad: Adapter, fmt: Format, content: Bytes, s: Outcome, e: Event)
    requires Complete(content, e) && s.length <= |content|
    ensures AppendOnly(s.length, [e], |content|) && Length(s.length, e) == |content|
    ensures Spares(ad, fmt, content, s, [e]) && Completes(content, [e]) == 1
    ensures Run(ad, fmt, content, s, [e]) == After(ad, fmt, content, s, e)
  {
    assert [e][1..] == [];
  }

  // Exactly once, in figures: from the first undisturbed poll of the finished
  // file on, at every later moment, its entries are those of one batch read of
  // what was written after attach. ShownFigures says what that is for either
  // kind of agent.
  lemma LineTranscriptsReportOnce(ad: Adapter, size: Positive, content: Bytes, attach: nat, pre: bool,
                                  base: Option<Values>, events: seq<Event>, last: Event, rest: seq<Event>)
    requires attach <= |content| && Orderly(ad, size, content[attach..]) && Rest(content[attach..]) == []
    requires var fmt := PlainFormat(ad, size);
      && Verdicts(ad, fmt, content, true) && fmt.verdict(content) == Some(true)
      && AppendOnly(attach, events, |content|) && Harmless(ad, fmt, content, attach, pre, base, events)
      && Complete(content, last) && AppendOnly(|content|, rest, |content|)
    ensures var fmt := PlainFormat(ad, size);
      var s := After(ad, fmt, content, Run(ad, fmt, content, Start(attach, pre, base), events), last);
      && s.length == |content|
      && var t, recs := Run(ad, fmt, content, s, rest), Batch(ad, content[attach..]);
      t.counted == recs && t.file.tally == Shown(ad.kind, pre, base, recs)
  {
    var fmt, acct := PlainFormat(ad, size), LineAccount(ad, size, content, attach);
    LinesRead(ad, size, content, attach);
    LineTranscriptsCountOnce(ad, size, content, attach, pre, base, events, last);
    var s := RunKeepsInv(ad, fmt, content, attach, acct, pre, base, events);
    CompletePoll(ad, fmt, content, attach, acct, s, last);
    OnePoll(ad, fmt, content, s, last);
    if ad.header.Some? {
      EmptyIsUndecidedLine(ad, size);
    }
    LaterIsHarmless(ad, fmt, content, attach, acct, pre, base, events, [last], rest);
    LinesStay(ad, size, content, attach, After(ad, fmt, content, s, last), rest);
    LifeFolds(ad, fmt, content, attach, pre, base, events, [last], rest);
  }

  // The same for compressed logs, once enough polls have seen the finished file.
  lemma CompressedLogsReportOnce(ad: Adapter, codec: Codec, content: Bytes, attach: nat, pre: bool,
                                 base: Option<Values>, events: seq<Event>, tail: seq<Event>, rest: seq<Event>)
    requires SelfContained(codec) && attach <= |content| && ClosedFrames(FramingOf(codec), content, attach)
    requires var fmt := ZstdFormat(ad, codec);
      && Verdicts(ad, fmt, content, true) && fmt.verdict(content) == Some(true)
      && AppendOnly(attach, events, |content|) && Harmless(ad, fmt, content, attach, pre, base, events)
      && var s := Run(ad, fmt, content, Start(attach, pre, base), events);
      && AppendOnly(s.length, tail, |content|) && Spares(ad, fmt, content, s, tail)
      && AppendOnly(Run(ad, fmt, content, s, tail).length, rest, |content|)
    requires Completes(content, tail) > Rounds(ZstdFormat(ad, codec), |content| - attach)
    ensures var fmt := ZstdFormat(ad, codec);
      var s := Run(ad, fmt, content, Run(ad, fmt, content, Start(attach, pre, base), events), tail);
      var t, recs := Run(ad, fmt, content, s, rest), TextRecords(ad, Walk(FramingOf(codec), content, attach).plain);
      t.counted == recs && t.file.tally == Shown(ad.kind, pre, base, recs)
  {
    var fmt, acct := ZstdFormat(ad, codec), FrameAccount(ad, FramingOf(codec), content, attach);
    FramesRead(ad, codec, content, attach);
    CompressedLogsCountOnce(ad, codec, content, attach, pre, base, events, tail);
    var s := RunKeepsInv(ad, fmt, content, attach, acct, pre, base, events);
    RunInv(ad, fmt, content, attach, acct, s, tail);
    if ad.header.Some? {
      EmptyIsUndecidedLog(ad, codec);
    }
    LaterIsHarmless(ad, fmt, content, attach, acct, pre, base, events, tail, rest);
    FramesStay(ad, codec, content, attach, Run(ad, fmt, content, s, tail), rest);
    LifeFolds(ad, fmt, content, attach, pre, base, events, tail, rest);
  }

  // No two harmless schedules differ in what they count or show: neither when
  // polls come, nor which of them fail, nor when bookkeeping is forgotten, nor
  // how long after the first undisturbed poll of the finished file one looks.
  lemma SchedulesAgree(ad: Adapter, size: Positive, content: Bytes, attach: nat, pre: bool, base: Option<Values>,
                       a: seq<Event>, lastA: Event, restA: seq<Event>,
                       b: seq<Event>, lastB: Event, restB: seq<Event>)
    requires attach <= |content| && Orderly(ad, size, content[attach..]) && Rest(content[attach..]) == []
    requires var fmt := PlainFormat(ad, size);
      && Verdicts(ad, fmt, content, true) && fmt.verdict(content) == Some(true)
      && AppendOnly(attach, a, |content|) && Harmless(ad, fmt, content, attach, pre, base, a)
      && AppendOnly(attach, b, |content|) && Harmless(ad, fmt, content, attach, pre, base, b)
    requires Complete(content, lastA) && AppendOnly(|content|, restA, |content|)
    requires Complete(content, lastB) && AppendOnly(|content|, restB, |content|)
    ensures var fmt := PlainFormat(ad, size);
      var s := After(ad, fmt, content, Run(ad, fmt, content, Start(attach, pre, base), a), lastA);
      var t := After(ad, fmt, content, Run(ad, fmt, content, Start(attach, pre, base), b), lastB);
      && s.length == t.length == |content|
      && Run(ad, fmt, content, s, restA).counted == Run(ad, fmt, content, t, restB).counted
      && Run(ad, fmt, content, s, restA).file.tally == Run(ad, fmt, content, t, restB).file.tally
  {
    LineTranscriptsReportOnce(ad, size, content, attach, pre, base, a, lastA, restA);
    LineTranscriptsReportOnce(ad, size, content, attach, pre, base, b, lastB, restB);
  }

  // A schedule that does forget the file starts over: from the first
  // undisturbed poll after that on, the whole file is counted, and shown as one
  // that attach never met.
  lemma ForgottenStartsOver(ad: Adapter, size: Positive, content: Bytes, attach: nat, pre: bool,
                            base: Option<Values>, events: seq<Event>, last: Event, rest: seq<Event>)
    requires Orderly(ad, size, content) && Rest(content) == []
    requires var fmt := PlainFormat(ad, size);
      && Verdicts(ad, fmt, content, true) && fmt.verdict(content) == Some(true)
      && AppendOnly(attach, events, |content|) && Complete(content, last)
      && !Spares(ad, fmt, content, Start(attach, pre, base), events)
      && AppendOnly(|content|, rest, |content|)
    ensures var fmt := PlainFormat(ad, size);
      var s := After(ad, fmt, content, Run(ad, fmt, content, Start(attach, pre, base), events), last);
      && s.length == |content|
      && var t := Run(ad, fmt, content, s, rest);
      t.counted == Batch(ad, content) && t.file.tally == Shown(ad.kind, false, None, Batch(ad, content))
  {
    var fmt, acct := PlainFormat(ad, size), LineAccount(ad, size, content, 0);
    var n, again := UnsparedRenews(ad, fmt, content, Start(attach, pre, base), events);
    assert content[0..] == content;
    LinesRead(ad, size, content, 0);
    FinalBounds(n, again, |content|);
    AfreshInv(fmt, content, acct, n);
    RunInv(ad, fmt, content, 0, acct, Afresh(n), again);
    var s := Run(ad, fmt, content, Afresh(n), again);
    CompletePoll(ad, fmt, content, 0, acct, s, last);
    FinishedLines(ad, size, content, 0, After(ad, fmt, content, s, last));
    LinesStay(ad, size, content, 0, After(ad, fmt, content, s, last), rest);
    RunFolds(ad, fmt, content, Afresh(n), again, false, UNTOUCHED);
    StepFolds(ad, fmt, content, s, last, false, UNTOUCHED);
    RunFolds(ad, fmt, content, After(ad, fmt, content, s, last), rest, false, UNTOUCHED);
  }

  lemma ForgottenFramesStartOver(ad: Adapter, codec: Codec, content: Bytes, attach: nat, pre: bool,
                                 base: Option<Values>, events: seq<Event>, tail: seq<Event>, rest: seq<Event>)
    requires SelfContained(codec) && ClosedFrames(FramingOf(codec), content, 0)
    requires var fmt := ZstdFormat(ad, codec);
      && Verdicts(ad, fmt, content, true) && fmt.verdict(content) == Some(true)
      && AppendOnly(attach, events, |content|)
      && !Spares(ad, fmt, content, Start(attach, pre, base), events)
      && var s := Run(ad, fmt, content, Start(attach, pre, base), events);
      && AppendOnly(s.length, tail, |content|) && Spares(ad, fmt, content, s, tail)
      && AppendOnly(Run(ad, fmt, content, s, tail).length, rest, |content|)
    requires Completes(content, tail) > Rounds(ZstdFormat(ad, codec), |content|)
    ensures var fmt := ZstdFormat(ad, codec);
      var s := Run(ad, fmt, content, Run(ad, fmt, content, Start(attach, pre, base), events), tail);
      var t, recs := Run(ad, fmt, content, s, rest), TextRecords(ad, Walk(FramingOf(codec), content, 0).plain);
      t.counted == recs && t.file.tally == Shown(ad.kind, false, None, recs)
  {
    var fmt, acct := ZstdFormat(ad, codec), FrameAccount(ad, FramingOf(codec), content, 0);
    var n, again := UnsparedRenews(ad, fmt, content, Start(attach, pre, base), events);
    FramesRead(ad, codec, content, 0);
    FinalBounds(n, again, |content|);
    AfreshInv(fmt, content, acct, n);
    RunInv(ad, fmt, content, 0, acct, Afresh(n), again);
    var s := Run(ad, fmt, content, Afresh(n), again);
    RunFolds(ad, fmt, content, Afresh(n), again, false, UNTOUCHED);
    FramesFromScratch(ad, codec, content, s, tail, rest);
  }

  lemma FramesFromScratch(ad: Adapter, codec: Codec, content: Bytes, s: Outcome, tail: seq<Event>, rest: seq<Event>)
    requires SelfContained(codec) && ClosedFrames(FramingOf(codec), content, 0)
    requires var fmt := ZstdFormat(ad, codec);
      && Verdicts(ad, fmt, content, true) && fmt.verdict(content) == Some(true)
      && Inv(fmt, content, 0, FrameAccount(ad, FramingOf(codec), content, 0), s) && Folded(ad, false, UNTOUCHED, s)
      && AppendOnly(s.length, tail, |content|) && Spares(ad, fmt, content, s, tail)
      && AppendOnly(Run(ad, fmt, content, s, tail).length, rest, |content|)
    requires Completes(content, tail) > Rounds(ZstdFormat(ad, codec), |content|)
    ensures var t := Run(ad, ZstdFormat(ad, codec), content, Run(ad, ZstdFormat(ad, codec), content, s, tail), rest);
      && t.counted == TextRecords(ad, Walk(FramingOf(codec), content, 0).plain)
      && Folded(ad, false, UNTOUCHED, t)
  {
    var fmt := ZstdFormat(ad, codec);
    FramesFinish(ad, codec, content, 0, s, tail);
    FramesStay(ad, codec, content, 0, Run(ad, fmt, content, s, tail), rest);
    RunsFold(ad, fmt, content, s, tail, rest);
  }

  lemma RunsFold(ad: Adapter, fmt: Format, content: Bytes, s: Outcome, tail: seq<Event>, rest: seq<Event>)
    requires AppendOnly(s.length, tail, |content|) && Folded(ad, false, UNTOUCHED, s)
    requires AppendOnly(Run(ad, fmt, content, s, tail).length, rest, |content|)
    ensures Folded(ad, false, UNTOUCHED, Run(ad, fmt, content, Run(ad, fmt, content, s, tail), rest))
  {
    RunFolds(ad, fmt, content, s, tail, false, UNTOUCHED);
    RunFolds(ad, fmt, content, Run(ad, fmt, content, s, tail), rest, false, UNTOUCHED);
  }

  // The one file for which forgetting changes a figure and no record: empty
  // when attach met it, written and forgotten before its verdict. The figure f
  // of a cumulative agent is the same exactly when there was no baseline to
  // forget, or nothing to show.
  lemma EmptyAtAttach(ad: Adapter, size: Positive, content: Bytes, base: Option<Values>,
                      kept: seq<Event>, dropped: seq<Event>, last: Event, f: Field)
    requires ad.kind == Cumulative && Orderly(ad, size, content) && Rest(content) == []
    requires var fmt := PlainFormat(ad, size);
      && Verdicts(ad, fmt, content, true) && fmt.verdict(content) == Some(true) && Complete(content, last)
      && AppendOnly(0, kept, |content|) && Spares(ad, fmt, content, Start(0, true, base), kept)
      && AppendOnly(0, dropped, |content|) && !Spares(ad, fmt, content, Start(0, true, base), dropped)
    ensures var fmt, recs := PlainFormat(ad, size), Batch(ad, content);
      var s := After(ad, fmt, content, Run(ad, fmt, content, Start(0, true, base), kept), last);
      var t := After(ad, fmt, content, Run(ad, fmt, content, Start(0, true, base), dropped), last);
      && s.counted == t.counted
      && (Get(s.file.tally.Seen(), f) == Get(t.file.tally.Seen(), f) <==>
            Largest(recs, f) == 0 || Origin(true, base, recs, f) == 0)
  {
    assert content[0..] == content;
    LineTranscriptsReportOnce(ad, size, content, 0, true, base, kept, last, []);
    ForgottenStartsOver(ad, size, content, 0, true, base, dropped, last, []);
    BaselineShows(base, Batch(ad, content), f);
  }

  lemma BaselineShows(base: Option<Values>, recs: seq<Values>, f: Field)
    ensures Get(Shown(Cumulative, true, base, recs).Seen(), f) == Get(Shown(Cumulative, false, None, recs).Seen(), f)
       <==> Largest(recs, f) == 0 || Origin(true, base, recs, f) == 0
  {
    ShownFigures(Cumulative, true, base, recs, f);
    ShownFigures(Cumulative, false, None, recs, f);
  }
}
