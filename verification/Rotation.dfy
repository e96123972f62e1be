// A transcript replaced by a shorter one: readNew (agentusage/watch.go) takes
// the shrink for a rotation, asks whose file it is anew, and starts over.
module Rotation {
  import opened Base
  import opened Counters
  import opened Lines
  import opened Tallies
  import opened Tail
  import opened Torn
  import opened Runs
  import opened ExactlyOnce
  import opened Figures

  // A poll that finds the file shorter than the offset, whatever else it gets:
  // a header or none, a verdict or none, all of the new bytes, some, or none.
  predicate Shrunk(f: FileState, content: Bytes, e: Event) {
    e.Poll? && e.stat < f.offset && f.stamp != Stamp(e.mtime, e.stat) && AppendOnly(0, [e], |content|)
  }

  // No poll meets the new file under the stamp of the old one.
  predicate Restamped(stamp: Stamp, events: seq<Event>) {
    forall e :: e in events && e.Poll? ==> Stamp(e.mtime, e.stat) != stamp
  }

  // A time no poll carries.
  function Never(events: seq<Event>): (m: int)
    ensures forall e :: e in events && e.Poll? ==> e.mtime < m
  {
    if events == [] then 0 else
      var m := Never(events[1..]);
      if events[0].Poll? then Max(m, events[0].mtime + 1) else m
  }

  // The file as one that stands at its start and was never read.
  function Renewed(f: FileState, mark: Stamp): FileState {
    f.(offset := 0, owner := None, stamp := mark)
  }

  // The same entries, but for a stamp of no consequence.
  predicate Alike(a: FileState, b: FileState, former: Stamp, mark: Stamp) {
    a == b || (a.stamp == former && b.stamp == mark && b == a.(stamp := mark))
  }

  lemma AlikeRead(ad: Adapter, fmt: Format, a: FileState, b: FileState, former: Stamp, mark: Stamp,
                  stamp: Stamp, body: Body)
    requires Alike(a, b, former, mark)
    ensures ReadStep(ad, fmt, a, stamp, body).1 == ReadStep(ad, fmt, b, stamp, body).1
    ensures Alike(ReadStep(ad, fmt, a, stamp, body).0, ReadStep(ad, fmt, b, stamp, body).0, former, mark)
  {
  }

  lemma AlikeStep(ad: Adapter, fmt: Format, a: FileState, b: FileState, former: Stamp, mark: Stamp, view: View)
    requires Alike(a, b, former, mark) && (view.Present? ==> view.stamp != former && view.stamp != mark)
    ensures Step(ad, fmt, a, view).1 == Step(ad, fmt, b, view).1
    ensures Alike(Step(ad, fmt, a, view).0, Step(ad, fmt, b, view).0, former, mark)
  {
    if view.Present? {
      var x, y := Judged(ad, fmt, a, view), Judged(ad, fmt, b, view);
      AlikeRead(ad, fmt, x, y, former, mark, view.stamp, view.body);
    }
  }

  // What a poll reads from: after the shrink check and the verdict.
  function Judged(ad: Adapter, fmt: Format, f: FileState, view: View): FileState
    requires view.Present?
  {
    var g := if view.stamp.size < f.offset then f.(offset := 0, owner := None) else f;
    if ad.header.Some? then g.(owner := Decide(ad, fmt, g.owner, view.header)) else g
  }

  // The shrink makes the old file such a one.
  lemma ShrinkRenews(ad: Adapter, fmt: Format, f: FileState, mark: Stamp, view: View)
    requires view.Present? && view.stamp.size < f.offset && view.stamp != f.stamp && view.stamp != mark
    ensures Step(ad, fmt, f, view).1 == Step(ad, fmt, Renewed(f, mark), view).1
    ensures Alike(Step(ad, fmt, f, view).0, Step(ad, fmt, Renewed(f, mark), view).0, f.stamp, mark)
  {
  }

  // Two runs side by side, one of them on top of what was counted before.
  ghost predicate Abreast(s: Outcome, t: Outcome, before: seq<Values>, former: Stamp, mark: Stamp) {
    Alike(s.file, t.file, former, mark) && s.counted == before + t.counted && s.length == t.length
  }

  lemma AbreastAfter(ad: Adapter, fmt: Format, content: Bytes, s: Outcome, t: Outcome, e: Event,
                     before: seq<Values>, former: Stamp, mark: Stamp)
    requires Abreast(s, t, before, former, mark) && Length(0, e) <= |content|
    requires e.Poll? ==> Stamp(e.mtime, e.stat) != former && Stamp(e.mtime, e.stat) != mark
    ensures Abreast(After(ad, fmt, content, s, e), After(ad, fmt, content, t, e), before, former, mark)
  {
    if !e.Forget? {
      AlikeStep(ad, fmt, s.file, t.file, former, mark, ViewOf(content, e));
      Associative(before, t.counted, Step(ad, fmt, t.file, ViewOf(content, e)).1);
    }
  }

  lemma {:induction false} AbreastRun(ad: Adapter, fmt: Format, content: Bytes, s: Outcome, t: Outcome,
                                      events: seq<Event>, before: seq<Values>, former: Stamp, mark: Stamp)
    requires Abreast(s, t, before, former, mark) && AppendOnly(s.length, events, |content|)
    requires Restamped(former, events) && Restamped(mark, events)
    ensures Abreast(Run(ad, fmt, content, s, events), Run(ad, fmt, content, t, events), before, former, mark)
    ensures Spares(ad, fmt, content, s, events) <==> Spares(ad, fmt, content, t, events)
    decreases |events|
  {
    if events != [] {
      FinalBounds(s.length, events, |content|);
      assert events[0] in events;
      AbreastAfter(ad, fmt, content, s, t, events[0], before, former, mark);
      AbreastRun(ad, fmt, content, After(ad, fmt, content, s, events[0]), After(ad, fmt, content, t, events[0]),
                 events[1..], before, former, mark);
    }
  }

  lemma ShrinkAbreast(ad: Adapter, fmt: Format, content: Bytes, f: FileState, before: seq<Values>, e: Event,
                      mark: Stamp)
    requires Shrunk(f, content, e) && Length(0, e) <= |content| && Stamp(e.mtime, e.stat) != mark
    ensures Abreast(After(ad, fmt, content, Outcome(f, before, 0), e),
                    After(ad, fmt, content, Outcome(Renewed(f, mark), [], 0), e), before, f.stamp, mark)
  {
    ShrinkRenews(ad, fmt, f, mark, ViewOf(content, e));
    var recs := Step(ad, fmt, f, ViewOf(content, e)).1;
    assert before + recs == before + ([] + recs);
  }

  // The renewed file runs as any file attach never met.
  lemma RenewedCounts(ad: Adapter, size: Positive, content: Bytes, f: FileState, m: int,
                      events: seq<Event>, last: Event)
    requires Orderly(ad, size, content) && Rest(content) == []
    requires var fmt := PlainFormat(ad, size);
      && Verdicts(ad, fmt, content, true) && fmt.verdict(content) == Some(true)
      && AppendOnly(0, events, |content|) && Complete(content, last)
    ensures var fmt := PlainFormat(ad, size);
      var s := Outcome(Renewed(f, Stamp(m, 0)), [], 0);
      var r := After(ad, fmt, content, Run(ad, fmt, content, s, events), last);
      && r.counted == Batch(ad, content)
      && (Spares(ad, fmt, content, s, events) ==>
            r.file.tally == Fold(ad.kind, f.pre, f.tally, Batch(ad, content)))
  {
    var fmt, acct := PlainFormat(ad, size), LineAccount(ad, size, content, 0);
    var s := Outcome(Renewed(f, Stamp(m, 0)), [], 0);
    var t := Run(ad, fmt, content, s, events);
    assert content[0..] == content && content[0..0] == [];
    LinesRead(ad, size, content, 0);
    RunInv(ad, fmt, content, 0, acct, s, events);
    CompletePoll(ad, fmt, content, 0, acct, t, last);
    FinishedLines(ad, size, content, 0, After(ad, fmt, content, t, last));
    if Spares(ad, fmt, content, s, events) {
      RunFolds(ad, fmt, content, s, events, f.pre, f.tally);
      StepFolds(ad, fmt, content, t, last, f.pre, f.tally);
    }
  }

  // Whatever was counted of the old file stays, and the new one is counted
  // whole on top of it, once, however the poll that noticed went and on any
  // schedule of further events, as long as none meets the new file under the
  // old one's stamp. Where no forgetting pass drops it, as none does once it
  // has been counted, its figures go on from the old ones.
  lemma ReplacedFileStartsOver(ad: Adapter, size: Positive, content: Bytes, f: FileState, before: seq<Values>,
                               e: Event, events: seq<Event>, last: Event)
    requires Orderly(ad, size, content) && Rest(content) == [] && Shrunk(f, content, e)
    requires var fmt := PlainFormat(ad, size);
      && Verdicts(ad, fmt, content, true) && fmt.verdict(content) == Some(true)
      && AppendOnly(0, [e] + events, |content|) && Complete(content, last)
    requires Restamped(f.stamp, events + [last])
    ensures var fmt := PlainFormat(ad, size);
      var s := Outcome(f, before, 0);
      && AppendOnly(Length(0, e), events, |content|) && Length(0, e) <= |content|
      && var t := After(ad, fmt, content, s, e);
      var r := After(ad, fmt, content, Run(ad, fmt, content, t, events), last);
      && r.counted == before + Batch(ad, content)
      && ((f.tally.seen.Some? || Spares(ad, fmt, content, t, events)) ==>
            r.file.tally == Fold(ad.kind, f.pre, f.tally, Batch(ad, content)))
  {
    var fmt := PlainFormat(ad, size);
    var m := Never([e] + (events + [last]));
    var mark := Stamp(m, 0);
    var s, t := Outcome(f, before, 0), Outcome(Renewed(f, mark), [], 0);
    FinalBounds(0, [e] + events, |content|);
    assert ([e] + events)[1..] == events;
    NeverMet(e, events, last, m);
    ShrinkAbreast(ad, fmt, content, f, before, e, mark);
    AbreastRun(ad, fmt, content, After(ad, fmt, content, s, e), After(ad, fmt, content, t, e), events,
               before, f.stamp, mark);
    AbreastAfter(ad, fmt, content, Run(ad, fmt, content, After(ad, fmt, content, s, e), events),
                 Run(ad, fmt, content, After(ad, fmt, content, t, e), events), last, before, f.stamp, mark);
    assert Run(ad, fmt, content, t, [e] + events) == Run(ad, fmt, content, After(ad, fmt, content, t, e), events);
    RenewedCounts(ad, size, content, f, m, [e] + events, last);
    if f.tally.seen.Some? {
      CountedIsSpared(ad, size, content, t, e, events);
    }
  }

  lemma CountedIsSpared(ad: Adapter, size: Positive, content: Bytes, t: Outcome, e: Event, events: seq<Event>)
    requires t.file.tally.seen.Some? && t.file.offset <= t.length && e.Poll? && Runs.Grows(t.length, e)
    requires Length(t.length, e) == Length(0, e) <= |content| && AppendOnly(Length(0, e), events, |content|)
    ensures var fmt := PlainFormat(ad, size); Spares(ad, fmt, content, After(ad, fmt, content, t, e), events)
  {
    var fmt := PlainFormat(ad, size);
    forall src: Bytes
      ensures Settles(fmt, src)
    {
      LinesSettle(ad, size, src);
    }
    StepWithin(ad, fmt, content, t, e);
    StepGrows(ad, fmt, t.file, ViewOf(content, e));
    KeptForGood(ad, fmt, content, After(ad, fmt, content, t, e), events);
  }

  // The other side of that condition: while the shrunk file has no verdict, a
  // poll that meets it under the old stamp takes it for read.
  lemma OldStampHides(ad: Adapter, fmt: Format, content: Bytes, f: FileState, before: seq<Values>,
                      e: Event, last: Event)
    requires ad.header.Some? && Shrunk(f, content, e) && e.header.None? && Length(0, e) <= |content|
    requires last.Poll? && Stamp(last.mtime, last.stat) == f.stamp && Length(0, last) <= |content|
    ensures var t := After(ad, fmt, content, Outcome(f, before, 0), e);
      After(ad, fmt, content, t, last).counted == before
  {
    assert before + [] == before;
  }

  lemma NeverMet(e: Event, events: seq<Event>, last: Event, m: int)
    requires forall x :: x in [e] + (events + [last]) && x.Poll? ==> x.mtime < m
    ensures Restamped(Stamp(m, 0), [e]) && Restamped(Stamp(m, 0), events) && Restamped(Stamp(m, 0), [last])
  {
  }
}
