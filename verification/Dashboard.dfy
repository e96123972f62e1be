// From the bytes agents append to the figures on screen: the loop of
// Watcher.dfy makes every transcript's state a run of Runs.dfy, so the sample
// is the saturated sum of what one batch read of each transcript would show.
module Dashboard {
  import opened Base
  import opened Counters
  import opened Lines
  import opened Frames
  import opened Zstd
  import opened DshReader
  import opened Tallies
  import opened Tail
  import opened Torn
  import opened Runs
  import opened Figures
  import opened Watcher

  // The listing meets the path once for each time it names it, and what it
  // meets are the first of evs; rest is still to come.
  predicate Visited(content: Bytes, path: Path, listing: seq<Path>, views: seq<View>, evs: seq<Event>, rest: seq<Event>)
    requires |views| == |listing|
    decreases |listing|
  {
    if listing == [] then evs == rest
    else if listing[0] != path then Visited(content, path, listing[1..], views[1..], evs, rest)
    else
      && evs != [] && !evs[0].Forget? && Length(0, evs[0]) <= |content|
      && views[0] == ViewOf(content, evs[0])
      && Visited(content, path, listing[1..], views[1..], evs[1..], rest)
  }

  // A fresh listing without the path is a forgetting pass over it.
  predicate Ticks(content: Bytes, path: Path, cached: seq<Path>, r: Round, evs: seq<Event>, rest: seq<Event>)
    requires |r.views| == |Listed(cached, r)|
  {
    if r.rescan && path !in r.listing then evs == [Forget] + rest
    else Visited(content, path, Listed(cached, r), r.views, evs, rest)
  }

  // evs is what the path lives through in these rounds, while its bytes grow
  // into content.
  ghost predicate Lives(content: Bytes, path: Path, cached: seq<Path>, rounds: seq<Round>, evs: seq<Event>)
    requires Polled(cached, rounds)
    decreases |rounds|
  {
    if rounds == [] then evs == []
    else exists rest :: Ticks(content, path, cached, rounds[0], evs, rest)
                     && Lives(content, path, Listed(cached, rounds[0]), rounds[1..], rest)
  }

  lemma {:induction false} VisitsRun(ad: Adapter, fmt: Format, content: Bytes, s: Outcome, path: Path,
                                     listing: seq<Path>, views: seq<View>, evs: seq<Event>, rest: seq<Event>)
    returns (t: Outcome)
    requires |views| == |listing| && AppendOnly(s.length, evs, |content|)
    requires Visited(content, path, listing, views, evs, rest)
    ensures t.file == Visits(ad, fmt, s.file, path, listing, views)
    ensures AppendOnly(t.length, rest, |content|)
    ensures Run(ad, fmt, content, s, evs) == Run(ad, fmt, content, t, rest)
    decreases |listing|
  {
    if listing == [] {
      t := s;
    } else if listing[0] != path {
      t := VisitsRun(ad, fmt, content, s, path, listing[1..], views[1..], evs, rest);
    } else {
      FinalBounds(s.length, evs, |content|);
      t := VisitsRun(ad, fmt, content, After(ad, fmt, content, s, evs[0]), path, listing[1..], views[1..], evs[1..],
                     rest);
    }
  }

  lemma {:induction false} NoVisit(ad: Adapter, fmt: Format, f: FileState, path: Path,
                                   listing: seq<Path>, views: seq<View>)
    requires |views| == |listing| && path !in listing
    ensures Visits(ad, fmt, f, path, listing, views) == f
    decreases |listing|
  {
    if listing != [] {
      NoVisit(ad, fmt, f, path, listing[1..], views[1..]);
    }
  }

  lemma TickRuns(ad: Adapter, fmt: Format, content: Bytes, s: Outcome, path: Path,
                 cached: seq<Path>, r: Round, evs: seq<Event>, rest: seq<Event>) returns (t: Outcome)
    requires |r.views| == |Listed(cached, r)| && AppendOnly(s.length, evs, |content|)
    requires Ticks(content, path, cached, r, evs, rest)
    ensures t.file == Ticked(ad, fmt, s.file, path, cached, r)
    ensures AppendOnly(t.length, rest, |content|)
    ensures Run(ad, fmt, content, s, evs) == Run(ad, fmt, content, t, rest)
  {
    if r.rescan && path !in r.listing {
      t := After(ad, fmt, content, s, Forget);
      assert evs[1..] == rest;
      NoVisit(ad, fmt, t.file, path, r.listing, r.views);
    } else {
      t := VisitsRun(ad, fmt, content, s, path, Listed(cached, r), r.views, evs, rest);
    }
  }

  // Whatever else the loop does, one path's entries go through a run.
  lemma {:induction false} LoopIsARun(ad: Adapter, fmt: Format, content: Bytes, s: Outcome, path: Path,
                                      cached: seq<Path>, rounds: seq<Round>, evs: seq<Event>)
    requires Polled(cached, rounds) && AppendOnly(s.length, evs, |content|)
    requires Lives(content, path, cached, rounds, evs)
    ensures Watched(ad, fmt, s.file, path, cached, rounds) == Run(ad, fmt, content, s, evs).file
    decreases |rounds|
  {
    if rounds != [] {
      var rest :| Ticks(content, path, cached, rounds[0], evs, rest)
               && Lives(content, path, Listed(cached, rounds[0]), rounds[1..], rest);
      var t := TickRuns(ad, fmt, content, s, path, cached, rounds[0], evs, rest);
      LoopIsARun(ad, fmt, content, t, path, Listed(cached, rounds[0]), rounds[1..], rest);
    }
  }

  // One transcript: its final bytes, whether it is ours, what attach made of
  // it, and what it lived through: while it grew, the stretch in which it was
  // seen finished, and whatever came later.
  datatype Transcript = Transcript(content: Bytes, mine: bool, attach: nat, pre: bool, base: Option<Values>,
                                   events: seq<Event>, tail: seq<Event>, rest: seq<Event>)
  {
    function Entry(): Outcome {
      Start(attach, pre, base)
    }

    function Life(): seq<Event> {
      events + (tail + rest)
    }
  }

  function FormatOf(ad: Adapter, size: Positive, codec: Codec, path: Path): Format {
    if IsDshZstd(path) then ZstdFormat(ad, codec) else PlainFormat(ad, size)
  }

  // The records it holds for us: those of one read after attach, none when it
  // belongs to another directory.
  function Records(ad: Adapter, codec: Codec, path: Path, t: Transcript): seq<Values> {
    if !t.mine || t.attach > |t.content| then []
    else if IsDshZstd(path) then TextRecords(ad, Walk(FramingOf(codec), t.content, t.attach).plain)
    else Batch(ad, t.content[t.attach..])
  }

  function Figure(ad: Adapter, codec: Codec, path: Path, t: Transcript): Tally {
    if t.mine then Shown(ad.kind, t.pre, t.base, Records(ad, codec, path, t)) else UNTOUCHED
  }

  // What the exactly-once theorems ask of a transcript of ours: that forgetting
  // was harmless while it grew, and that once the finished file was read.
  ghost predicate Covered(ad: Adapter, size: Positive, codec: Codec, path: Path, t: Transcript)
    requires t.attach <= |t.content| && AppendOnly(t.attach, t.events, |t.content|)
  {
    var fmt := FormatOf(ad, size, codec, path);
    var s := Run(ad, fmt, t.content, t.Entry(), t.events);
    && Verdicts(ad, fmt, t.content, true) && fmt.verdict(t.content) == Some(true)
    && Harmless(ad, fmt, t.content, t.attach, t.pre, t.base, t.events)
    && AppendOnly(s.length, t.tail, |t.content|)
    && if IsDshZstd(path)
       then && ClosedFrames(FramingOf(codec), t.content, t.attach)
            && Spares(ad, fmt, t.content, s, t.tail)
            && Completes(t.content, t.tail) > Rounds(fmt, |t.content| - t.attach)
       else && Orderly(ad, size, t.content[t.attach..]) && Rest(t.content[t.attach..]) == []
            && |t.tail| == 1 && Complete(t.content, t.tail[0])
  }

  // An append-only life of a transcript, ours or another directory's.
  ghost predicate Follows(ad: Adapter, size: Positive, codec: Codec, path: Path, t: Transcript) {
    && t.attach <= |t.content| && AppendOnly(t.attach, t.Life(), |t.content|)
    && AppendOnly(t.attach, t.events, |t.content|)
    && if t.mine then Covered(ad, size, codec, path, t)
       else ad.header.Some? && Verdicts(ad, FormatOf(ad, size, codec, path), t.content, false)
  }

  // The three stretches of a life, one after the other.
  lemma LifeSplits(ad: Adapter, fmt: Format, t: Transcript)
    requires AppendOnly(t.attach, t.Life(), |t.content|) && AppendOnly(t.attach, t.events, |t.content|)
    requires AppendOnly(Run(ad, fmt, t.content, t.Entry(), t.events).length, t.tail, |t.content|)
    ensures var s := Run(ad, fmt, t.content, t.Entry(), t.events);
      && AppendOnly(Run(ad, fmt, t.content, s, t.tail).length, t.rest, |t.content|)
      && Run(ad, fmt, t.content, t.Entry(), t.Life()) ==
           Run(ad, fmt, t.content, Run(ad, fmt, t.content, s, t.tail), t.rest)
  {
    RunAppend(ad, fmt, t.content, t.Entry(), t.events, t.tail + t.rest);
    RunAppend(ad, fmt, t.content, Run(ad, fmt, t.content, t.Entry(), t.events), t.tail, t.rest);
  }

  lemma LineShows(ad: Adapter, size: Positive, codec: Codec, path: Path, t: Transcript)
    requires !IsDshZstd(path) && t.mine && Follows(ad, size, codec, path, t)
    ensures var fmt := PlainFormat(ad, size);
      Run(ad, fmt, t.content, t.Entry(), t.Life()).file.tally == Figure(ad, codec, path, t)
  {
    var fmt := PlainFormat(ad, size);
    var s := Run(ad, fmt, t.content, t.Entry(), t.events);
    LifeSplits(ad, fmt, t);
    FinalBounds(s.length, t.tail, |t.content|);
    OnePoll(ad, fmt, t.content, s, t.tail[0]);
    assert t.tail == [t.tail[0]];
    LineTranscriptsReportOnce(ad, size, t.content, t.attach, t.pre, t.base, t.events, t.tail[0], t.rest);
  }

  lemma LogShows(ad: Adapter, size: Positive, codec: Codec, path: Path, t: Transcript)
    requires SelfContained(codec) && IsDshZstd(path) && t.mine && Follows(ad, size, codec, path, t)
    ensures var fmt := ZstdFormat(ad, codec);
      Run(ad, fmt, t.content, t.Entry(), t.Life()).file.tally == Figure(ad, codec, path, t)
  {
    var fmt := ZstdFormat(ad, codec);
    assert FormatOf(ad, size, codec, path) == fmt && t.Entry() == Start(t.attach, t.pre, t.base);
    LifeSplits(ad, fmt, t);
    CompressedLogsReportOnce(ad, codec, t.content, t.attach, t.pre, t.base, t.events, t.tail, t.rest);
  }

  // After its life, a transcript shows its figures: from the moment its bytes
  // were read on, whatever became of it later.
  lemma LifeShows(ad: Adapter, size: Positive, codec: Codec, path: Path, t: Transcript)
    requires SelfContained(codec) && Follows(ad, size, codec, path, t)
    ensures var fmt := FormatOf(ad, size, codec, path);
      var tally := Run(ad, fmt, t.content, t.Entry(), t.Life()).file.tally;
      var shown := Figure(ad, codec, path, t);
      tally.seen == shown.seen && tally.total == shown.total
  {
    var fmt := FormatOf(ad, size, codec, path);
    if t.mine {
      if IsDshZstd(path) {
        LogShows(ad, size, codec, path, t);
      } else {
        LineShows(ad, size, codec, path, t);
      }
    } else {
      ForeignCountsNothing(ad, fmt, t.content, t.Entry(), t.Life());
      RunBlank(ad, fmt, t.content, t.Entry(), t.Life());
    }
  }

  // Nothing counted, nothing shown.
  predicate Blank(f: FileState) {
    f.tally.seen.None? && f.tally.total == 0
  }

  lemma {:induction false} RunBlank(ad: Adapter, fmt: Format, content: Bytes, s: Outcome, events: seq<Event>)
    requires AppendOnly(s.length, events, |content|) && (s.counted == [] ==> Blank(s.file))
    ensures var t := Run(ad, fmt, content, s, events); t.counted == [] ==> Blank(t.file)
    decreases |events|
  {
    if events != [] {
      FinalBounds(s.length, events, |content|);
      if !events[0].Forget? {
        StepTallies(ad, fmt, s.file, ViewOf(content, events[0]));
      }
      RunBlank(ad, fmt, content, After(ad, fmt, content, s, events[0]), events[1..]);
    }
  }

  // No listing of the loop names the path.
  predicate Unlisted(path: Path, cached: seq<Path>, rounds: seq<Round>)
    decreases |rounds|
  {
    rounds == [] ||
    (path !in Listed(cached, rounds[0]) && Unlisted(path, Listed(cached, rounds[0]), rounds[1..]))
  }

  lemma {:induction false} UnlistedStaysBlank(ad: Adapter, fmt: Format, f: FileState, path: Path,
                                              cached: seq<Path>, rounds: seq<Round>)
    requires Polled(cached, rounds) && Unlisted(path, cached, rounds) && Blank(f)
    ensures Blank(Watched(ad, fmt, f, path, cached, rounds))
    decreases |rounds|
  {
    if rounds != [] {
      var r := rounds[0];
      var g := if r.rescan then Sift(ad, f, path in r.listing) else f;
      NoVisit(ad, fmt, g, path, Listed(cached, r), r.views);
      UnlistedStaysBlank(ad, fmt, g, path, Listed(cached, r), rounds[1..]);
    }
  }

  lemma {:induction false} AttachCountsNothing(ad: Adapter, size: Positive, f: FileState, path: Path, found: seq<Found>)
    requires Blank(f)
    ensures Blank(Met(ad, size, f, path, found))
    decreases |found|
  {
    if found != [] {
      var x := found[0];
      var g := if x.path != path || x.size.None? then f
               else Attached(f, x.size.value, if ad.kind == Cumulative then SeedRecords(ad, size, x.seed) else []);
      AttachCountsNothing(ad, size, g, path, found[1..]);
    }
  }

  ghost function SumShown(shown: map<Path, Tally>, f: Field): nat {
    Sum(shown.Keys, (p: Path) => Get(Lookup(shown, p, UNTOUCHED).Seen(), f))
  }

  ghost function SumContext(shown: map<Path, Tally>): nat {
    Sum(shown.Keys, (p: Path) => Lookup(shown, p, UNTOUCHED).total)
  }

  // The maps hold these figures and nothing else.
  ghost predicate Holds(seen: map<Path, Values>, total: map<Path, Count>, shown: map<Path, Tally>) {
    forall p :: var t := TallyIn(map[], seen, total, p);
      && t.seen == Lookup(shown, p, UNTOUCHED).seen && t.total == Lookup(shown, p, UNTOUCHED).total
  }

  lemma SeenIsShown(seen: map<Path, Values>, total: map<Path, Count>, shown: map<Path, Tally>, f: Field)
    requires Holds(seen, total, shown)
    ensures SumSeen(seen, f) == SumShown(shown, f)
  {
    var mine, theirs := (p: Path) => Get(Lookup(seen, p, NOTHING), f),
                        (p: Path) => Get(Lookup(shown, p, UNTOUCHED).Seen(), f);
    forall p
      ensures mine(p) == theirs(p) && (p in seen ==> p in shown) && (p !in seen ==> theirs(p) == 0)
    {
      assert TallyIn(map[], seen, total, p).seen == Lookup(shown, p, UNTOUCHED).seen;
    }
    SumDropZeros(shown.Keys, seen.Keys, theirs);
    SumAgrees(seen.Keys, mine, theirs);
  }

  lemma TotalIsShown(seen: map<Path, Values>, total: map<Path, Count>, shown: map<Path, Tally>)
    requires Holds(seen, total, shown) && total.Keys <= seen.Keys
    ensures SumTotal(total) == SumContext(shown)
  {
    var mine, theirs := (p: Path) => Lookup(total, p, 0), (p: Path) => Lookup(shown, p, UNTOUCHED).total;
    forall p
      ensures mine(p) == theirs(p) && (p in total ==> p in shown) && (p !in total ==> theirs(p) == 0)
    {
      assert TallyIn(map[], seen, total, p).total == Lookup(shown, p, UNTOUCHED).total;
    }
    SumDropZeros(shown.Keys, total.Keys, theirs);
    SumAgrees(total.Keys, mine, theirs);
  }

  // What the attach walk and the poll loop meet, told file by file: every
  // transcript was attached as its entry says and lives through the rounds;
  // nothing else is ever listed.
  ghost predicate Story(ad: Adapter, size: Positive, codec: Codec, found: seq<Found>, rounds: seq<Round>,
                        files: map<Path, Transcript>)
    requires Polled([], rounds)
  {
    && (forall p :: p in files ==>
          && Met(ad, size, UNKNOWN, p, found) == files[p].Entry().file
          && Follows(ad, size, codec, p, files[p])
          && Lives(files[p].content, p, [], rounds, files[p].Life()))
    && (forall p :: p !in files ==> Unlisted(p, [], rounds))
  }

  lemma StoryShows(ad: Adapter, size: Positive, codec: Codec, found: seq<Found>, rounds: seq<Round>,
                   files: map<Path, Transcript>, p: Path)
    requires SelfContained(codec) && Polled([], rounds) && Story(ad, size, codec, found, rounds, files)
    ensures var t := Watched(ad, FormatOf(ad, size, codec, p), Met(ad, size, UNKNOWN, p, found), p, [], rounds).tally;
      var shown := if p in files then Figure(ad, codec, p, files[p]) else UNTOUCHED;
      t.seen == shown.seen && t.total == shown.total
  {
    var fmt := FormatOf(ad, size, codec, p);
    if p in files {
      var t := files[p];
      LoopIsARun(ad, fmt, t.content, t.Entry(), p, [], rounds, t.Life());
      LifeShows(ad, size, codec, p, t);
    } else {
      AttachCountsNothing(ad, size, UNKNOWN, p, found);
      UnlistedStaysBlank(ad, fmt, Met(ad, size, UNKNOWN, p, found), p, [], rounds);
    }
  }

  // The figures of a whole store.
  function Screen(ad: Adapter, codec: Codec, files: map<Path, Transcript>): map<Path, Tally> {
    map p | p in files :: Figure(ad, codec, p, files[p])
  }

  // The counting maps after the loop, told by what the loop did to each path.
  lemma StoryHolds(ad: Adapter, size: Positive, codec: Codec, found: seq<Found>, rounds: seq<Round>,
                   files: map<Path, Transcript>, seen: map<Path, Values>, total: map<Path, Count>)
    requires SelfContained(codec) && Polled([], rounds) && Story(ad, size, codec, found, rounds, files)
    requires forall p :: Left(ad, size, codec, found, rounds, seen, total, p)
    ensures Holds(seen, total, Screen(ad, codec, files))
  {
    forall p
      ensures var t := TallyIn(map[], seen, total, p);
        && t.seen == Lookup(Screen(ad, codec, files), p, UNTOUCHED).seen
        && t.total == Lookup(Screen(ad, codec, files), p, UNTOUCHED).total
    {
      assert Left(ad, size, codec, found, rounds, seen, total, p);
      StoryShows(ad, size, codec, found, rounds, files, p);
    }
  }

  predicate Left(ad: Adapter, size: Positive, codec: Codec, found: seq<Found>, rounds: seq<Round>,
                 seen: map<Path, Values>, total: map<Path, Count>, p: Path)
    requires Polled([], rounds)
  {
    var t := Watched(ad, FormatOf(ad, size, codec, p), Met(ad, size, UNKNOWN, p, found), p, [], rounds).tally;
    TallyIn(map[], seen, total, p).seen == t.seen && TallyIn(map[], seen, total, p).total == t.total
  }

  // Watch: a watcher that has recorded where the existing files end.
  method Watch(ad: Adapter, size: Positive, codec: Codec, found: seq<Found>) returns (w: Watcher)
    requires SelfContained(codec)
    ensures fresh(w) && w.Settled() && w.cached == []
    ensures w.ad == ad && w.size == size && w.codec == codec
    ensures forall p :: w.FileOf(p) == Met(ad, size, UNKNOWN, p, found)
  {
    w := new Watcher(ad, size, codec);
    w.AttachAll(found);
  }

  // The whole way from transcripts to the screen: a watcher attached to what it
  // found and polled through any rounds shows, for every count, the sum of what
  // one read of each of our transcripts after attach shows, saturated at the
  // machine's largest integer.
  method Follow(ad: Adapter, size: Positive, codec: Codec, found: seq<Found>, rounds: seq<Round>,
                ghost files: map<Path, Transcript>) returns (sample: Sample)
    requires SelfContained(codec) && Polled([], rounds) && Story(ad, size, codec, found, rounds, files)
    ensures sample.output as int == Min(SumShown(Screen(ad, codec, files), Output), MAX_INT)
    ensures sample.thinking as int == Min(SumShown(Screen(ad, codec, files), Thinking), MAX_INT)
    ensures sample.input as int == Min(SumShown(Screen(ad, codec, files), Input), MAX_INT)
    ensures sample.total as int == Min(SumContext(Screen(ad, codec, files)), MAX_INT)
  {
    var w := Watch(ad, size, codec, found);
    var shown := w.Run(rounds);
    sample := w.sample;
    assert forall p :: Left(ad, size, codec, found, rounds, w.seen, w.total, p) by {
      forall p
        ensures Left(ad, size, codec, found, rounds, w.seen, w.total, p)
      {
        assert w.FileOf(p).tally == TallyIn(w.base, w.seen, w.total, p);
      }
    }
    StoryHolds(ad, size, codec, found, rounds, files, w.seen, w.total);
    ScreenAddsUp(w.seen, w.total, Screen(ad, codec, files));
  }

  lemma ScreenAddsUp(seen: map<Path, Values>, total: map<Path, Count>, shown: map<Path, Tally>)
    requires Holds(seen, total, shown) && total.Keys <= seen.Keys
    ensures forall f :: SumSeen(seen, f) == SumShown(shown, f)
    ensures SumTotal(total) == SumContext(shown)
  {
    forall f
      ensures SumSeen(seen, f) == SumShown(shown, f)
    {
      SeenIsShown(seen, total, shown, f);
    }
    TotalIsShown(seen, total, shown);
  }
}
