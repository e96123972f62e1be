// The file-tailing Watcher of agentusage/watch.go, with its maps updated in
// place. Each method is proved against the per-file functions of Tail.dfy.
module Watcher {
  import opened Base
  import opened Counters
  import opened Lines
  import opened Reader
  import opened Zstd
  import opened DshReader
  import opened Tallies
  import opened Tail
  import Owner

  type Path = string

  datatype Sample = Sample(output: Count, thinking: Count, total: Count, input: Count, at: int)

  predicate IsDshZstd(path: Path) {
    |path| >= 11 && path[|path| - 11..] == ".jsonl.zstd"
  }

  lemma LogsEndInZstd(path: Path)
    ensures IsDshZstd(path) <==> exists stem: string :: path == stem + ".jsonl.zstd"
  {
    if IsDshZstd(path) {
      assert path == path[..|path| - 11] + ".jsonl.zstd";
    }
  }

  // One file's entries in the counting maps.
  function TallyIn(base: map<Path, Values>, seen: map<Path, Values>, total: map<Path, Count>, path: Path): Tally {
    Tally(if path in base then Some(base[path]) else None,
          if path in seen then Some(seen[path]) else None,
          Lookup(total, path, 0))
  }

  const EMPTY_SAMPLE := Sample(0, 0, 0, 0, 0)

  // The exact sums a poll reports, over whatever files the maps hold.
  ghost function SumSeen(seen: map<Path, Values>, f: Field): nat {
    Sum(seen.Keys, (p: Path) => Get(Lookup(seen, p, NOTHING), f))
  }

  ghost function SumTotal(total: map<Path, Count>): nat {
    Sum(total.Keys, (p: Path) => Lookup(total, p, 0))
  }

  // Part of the sum: the files a loop still has to visit.
  ghost function SumRest(seen: map<Path, Values>, rest: set<Path>, f: Field): nat {
    Sum(rest, (p: Path) => Get(Lookup(seen, p, NOTHING), f))
  }

  lemma SeenVisited(seen: map<Path, Values>, rest: set<Path>, p: Path, f: Field)
    requires p in rest && p in seen
    ensures SumRest(seen, rest, f) == Get(seen[p], f) + SumRest(seen, rest - {p}, f)
  {
    SumRemove(rest, (q: Path) => Get(Lookup(seen, q, NOTHING), f), p);
  }

  ghost function TotalRest(total: map<Path, Count>, rest: set<Path>): nat {
    Sum(rest, (p: Path) => Lookup(total, p, 0))
  }

  lemma TotalVisited(total: map<Path, Count>, rest: set<Path>, p: Path)
    requires p in rest && p in total
    ensures TotalRest(total, rest) == total[p] + TotalRest(total, rest - {p})
  {
    SumRemove(rest, (q: Path) => Lookup(total, q, 0), p);
  }

  // A sample that reads the maps exactly, saturated at the machine's integer.
  ghost predicate Reads(s: Sample, seen: map<Path, Values>, total: map<Path, Count>) {
    && s.output as int == Min(SumSeen(seen, Output), MAX_INT)
    && s.thinking as int == Min(SumSeen(seen, Thinking), MAX_INT)
    && s.input as int == Min(SumSeen(seen, Input), MAX_INT)
    && s.total as int == Min(SumTotal(total), MAX_INT)
  }

  // No part of the sample exceeds what the maps now hold.
  ghost predicate Below(s: Sample, seen: map<Path, Values>, total: map<Path, Count>) {
    && s.output <= SumSeen(seen, Output) && s.thinking <= SumSeen(seen, Thinking)
    && s.input <= SumSeen(seen, Input) && s.total <= SumTotal(total)
  }

  predicate SampleAtMost(a: Sample, b: Sample) {
    a.output <= b.output && a.thinking <= b.thinking && a.total <= b.total && a.input <= b.input
  }

  lemma SumsGrow(seen: map<Path, Values>, total: map<Path, Count>, seen': map<Path, Values>, total': map<Path, Count>)
    requires total.Keys <= seen.Keys && total'.Keys <= seen'.Keys && seen.Keys <= seen'.Keys
    requires forall p :: p in seen ==> AtMost(seen[p], seen'[p])
    requires forall p :: p in total ==> total[p] <= Lookup(total', p, 0)
    ensures forall f :: SumSeen(seen, f) <= SumSeen(seen', f)
    ensures SumTotal(total) <= SumTotal(total')
  {
    forall f
      ensures SumSeen(seen, f) <= SumSeen(seen', f)
    {
      SumMonotone(seen.Keys, (p: Path) => Get(Lookup(seen, p, NOTHING), f),
                  seen'.Keys, (p: Path) => Get(Lookup(seen', p, NOTHING), f));
    }
    TotalsGrow(total, total');
  }

  lemma TalliesGrow(base: map<Path, Values>, seen: map<Path, Values>, total: map<Path, Count>,
                    base': map<Path, Values>, seen': map<Path, Values>, total': map<Path, Count>)
    requires total.Keys <= seen.Keys && total'.Keys <= seen'.Keys
    requires forall p :: Grows(TallyIn(base, seen, total, p), TallyIn(base', seen', total', p))
    ensures forall f :: SumSeen(seen, f) <= SumSeen(seen', f)
    ensures SumTotal(total) <= SumTotal(total')
  {
    forall p | p in seen
      ensures p in seen' && AtMost(seen[p], seen'[p]) && Lookup(total, p, 0) <= Lookup(total', p, 0)
    {
      assert Grows(TallyIn(base, seen, total, p), TallyIn(base', seen', total', p));
    }
    SumsGrow(seen, total, seen', total');
  }

  // A missing entry reads zero, so the smaller map may have zero entries the
  // larger one lacks.
  lemma TotalsGrow(total: map<Path, Count>, total': map<Path, Count>)
    requires forall p :: p in total ==> total[p] <= Lookup(total', p, 0)
    ensures SumTotal(total) <= SumTotal(total')
  {
    var all := total.Keys + total'.Keys;
    SumMonotone(total.Keys, (p: Path) => Lookup(total, p, 0), all, (p: Path) => Lookup(total', p, 0));
    SumDropZeros(all, total'.Keys, (p: Path) => Lookup(total', p, 0));
  }

  // A file the attach walk found: its size, unless the stat failed, and what
  // the seed read gave.
  datatype Found = Found(path: Path, size: Option<nat>, seed: Seed)

  function Met(ad: Adapter, size: Positive, f: FileState, path: Path, found: seq<Found>): FileState
    decreases |found|
  {
    if found == [] then f else
      var x := found[0];
      Met(ad, size,
          if x.path != path || x.size.None? then f
          else Attached(f, x.size.value, if ad.kind == Cumulative then SeedRecords(ad, size, x.seed) else []),
          path, found[1..])
  }

  // One tick of the poll loop: the listing when it walks the store again, what
  // it meets of each listed file, and the time.
  datatype Round = Round(rescan: bool, listing: seq<Path>, views: seq<View>, now: int)

  function Listed(cached: seq<Path>, r: Round): seq<Path> {
    if r.rescan then r.listing else cached
  }

  // Every listed file is met.
  predicate Polled(cached: seq<Path>, rounds: seq<Round>)
    decreases |rounds|
  {
    rounds == [] ||
    (|rounds[0].views| == |Listed(cached, rounds[0])| && Polled(Listed(cached, rounds[0]), rounds[1..]))
  }

  function Ticked(ad: Adapter, fmt: Format, f: FileState, path: Path, cached: seq<Path>, r: Round): FileState
    requires |r.views| == |Listed(cached, r)|
  {
    Visits(ad, fmt, if r.rescan then Sift(ad, f, path in r.listing) else f, path, Listed(cached, r), r.views)
  }

  // One file through a whole loop.
  function Watched(ad: Adapter, fmt: Format, f: FileState, path: Path, cached: seq<Path>, rounds: seq<Round>): FileState
    requires Polled(cached, rounds)
    decreases |rounds|
  {
    if rounds == [] then f else
      Watched(ad, fmt, Ticked(ad, fmt, f, path, cached, rounds[0]), path, Listed(cached, rounds[0]), rounds[1..])
  }

  // What the change callback gets: samples each above the last.
  predicate Climbs(from: Sample, shown: seq<Sample>, to: Sample)
    decreases |shown|
  {
    if shown == [] then from == to else
      SampleAtMost(from, shown[0]) && !SampleAtMost(shown[0], from) && Climbs(shown[0], shown[1..], to)
  }

  lemma {:induction false} ClimbsOn(from: Sample, shown: seq<Sample>, mid: Sample, to: Sample)
    requires Climbs(from, shown, mid) && SampleAtMost(mid, to) && !SampleAtMost(to, mid)
    ensures Climbs(from, shown + [to], to)
    decreases |shown|
  {
    if shown == [] {
      assert shown + [to] == [to];
    } else {
      TailOfAppend(shown, [to]);
      ClimbsOn(shown[0], shown[1..], mid, to);
    }
  }

  class Watcher {
    const ad: Adapter
    const size: Positive
    const codec: Codec
    var offsets: map<Path, nat>
    var preexisting: map<Path, bool>
    var stamps: map<Path, Stamp>
    var owner: map<Path, bool>
    var cached: seq<Path>
    var base: map<Path, Values>
    var seen: map<Path, Values>
    var total: map<Path, Count>
    var sample: Sample

    function Encoding(path: Path): Format {
      if IsDshZstd(path) then ZstdFormat(ad, codec) else PlainFormat(ad, size)
    }

    // What the maps say about one transcript.
    function FileOf(path: Path): FileState
      reads this
    {
      FileState(Lookup(offsets, path, 0), Lookup(stamps, path, UNSTAMPED),
                if path in owner then Some(owner[path]) else None,
                Lookup(preexisting, path, false), TallyOf(path))
    }

    function TallyOf(path: Path): Tally
      reads this
    {
      TallyIn(base, seen, total, path)
    }

    // Only a counted file carries a context figure, and only a counted or
    // attach-time file a baseline.
    ghost predicate Valid()
      reads this
    {
      && SelfContained(codec)
      && total.Keys <= seen.Keys
      && base.Keys <= seen.Keys + preexisting.Keys
    }

    constructor (ad: Adapter, size: Positive, codec: Codec)
      requires SelfContained(codec)
      ensures Valid() && this.ad == ad && this.size == size && this.codec == codec
      ensures forall p :: FileOf(p) == UNKNOWN
      ensures cached == [] && sample == EMPTY_SAMPLE && Settled()
    {
      this.ad, this.size, this.codec := ad, size, codec;
      offsets, preexisting, stamps, owner := map[], map[], map[], map[];
      cached, base, seen, total, sample := [], map[], map[], map[], EMPTY_SAMPLE;
    }

    method ApplyRecord(path: Path, v: Values)
      requires Valid()
      modifies `base, `seen, `total
      ensures Valid()
      ensures TallyOf(path) == Apply(ad.kind, Lookup(preexisting, path, false), old(TallyOf(path)), v)
      ensures forall p :: p != path ==> TallyIn(base, seen, total, p) == old(TallyIn(base, seen, total, p))
    {
      match ad.kind
      case PerMessage =>
        AddMessage(path, v);
      case Cumulative =>
        RaiseCumulative(path, v);
    }

    method AddMessage(path: Path, v: Values)
      requires Valid()
      modifies `seen, `total
      ensures Valid()
      ensures TallyOf(path) == Apply(PerMessage, Lookup(preexisting, path, false), old(TallyOf(path)), v)
      ensures forall p :: p != path ==> TallyIn(base, seen, total, p) == old(TallyIn(base, seen, total, p))
    {
      var cur := Lookup(seen, path, NOTHING);
      cur := cur.(output := SatAdd(cur.output, v.output));
      cur := cur.(thinking := SatAdd(cur.thinking, v.thinking));
      cur := cur.(input := SatAdd(cur.input, v.input));
      seen := seen[path := cur];
      var largest := Lookup(total, path, 0);
      total := total[path := if largest < v.total then v.total else largest];
    }

    method RaiseCumulative(path: Path, v: Values)
      requires Valid()
      modifies `base, `seen, `total
      ensures Valid()
      ensures TallyOf(path) == Apply(Cumulative, Lookup(preexisting, path, false), old(TallyOf(path)), v)
      ensures forall p :: p != path ==> TallyIn(base, seen, total, p) == old(TallyIn(base, seen, total, p))
    {
      if path !in base {
        base := base[path := if Lookup(preexisting, path, false) then v.(total := 0) else NOTHING];
      }
      var b := base[path];
      var cur := Lookup(seen, path, NOTHING);
      cur := cur.(output := Raise(cur.output, v.output, b.output));
      cur := cur.(thinking := Raise(cur.thinking, v.thinking, b.thinking));
      cur := cur.(input := Raise(cur.input, v.input, b.input));
      seen := seen[path := cur];
      if v.total > Lookup(total, path, 0) {
        total := total[path := v.total];
      }
    }

    method ApplyAll(path: Path, recs: seq<Values>)
      requires Valid()
      modifies `base, `seen, `total
      ensures Valid()
      ensures TallyOf(path) == Fold(ad.kind, Lookup(preexisting, path, false), old(TallyOf(path)), recs)
      ensures forall p :: p != path ==> TallyIn(base, seen, total, p) == old(TallyIn(base, seen, total, p))
    {
      ghost var pre := Lookup(preexisting, path, false);
      var k := 0;
      while k < |recs|
        invariant k <= |recs| && Valid()
        invariant Fold(ad.kind, pre, old(TallyOf(path)), recs) == Fold(ad.kind, pre, TallyOf(path), recs[k..])
        invariant forall p :: p != path ==> TallyIn(base, seen, total, p) == old(TallyIn(base, seen, total, p))
      {
        ApplyRecord(path, recs[k]);
        DropDrop(recs, k, 1);
        k := k + 1;
      }
    }

    // Nothing is decided here unless the adapter has a session header.
    method Owns(path: Path, content: Option<Bytes>) returns (mine: bool, decided: bool)
      requires Valid()
      modifies `owner
      ensures Valid()
      ensures decided == Decide(ad, Encoding(path), old(FileOf(path)).owner, content).Some?
      ensures decided ==> mine == Decide(ad, Encoding(path), old(FileOf(path)).owner, content).value
      ensures FileOf(path) ==
              if decided && ad.header.Some? then old(FileOf(path)).(owner := Some(mine)) else old(FileOf(path))
      ensures forall p :: p != path ==> FileOf(p) == old(FileOf(p))
    {
      if ad.header.None? {
        return true, true;
      }
      if path in owner {
        return owner[path], true;
      }
      if content.None? {
        return false, false;
      }
      if IsDshZstd(path) {
        mine, decided := OwnsZstd(ad, ad.header.value, codec, content.value);
      } else {
        mine, decided := Owner.ScanOwner(ad.header.value, ad.sameDir, content.value);
      }
      if decided {
        owner := owner[path := mine];
      }
    }

    method Read(path: Path, body: Body, off: nat) returns (recs: seq<Values>, complete: nat, ok: bool)
      requires Valid()
      ensures var r := ReadBody(Encoding(path), body, off);
        && ok == r.Some?
        && (ok ==> recs == r.value.0 && complete == off + r.value.1)
    {
      if body.Unopened? {
        return [], 0, false;
      }
      var src := Drop(if body.Whole? then body.bytes else body.part, off);
      if IsDshZstd(path) {
        if body.Broken? && |src| < TAIL_BYTES {
          return [], 0, false;
        }
        recs, complete, ok := ConsumeZstd(ad, codec, src, off);
      } else {
        var br := new SliceReader(src, body.Broken?, size);
        recs, complete, ok := ConsumeAppend(ad, br, off);
      }
    }

    // The part of readNew past the owner check.
    method ReadOwned(path: Path, stamp: Stamp, body: Body)
      requires Valid()
      modifies `offsets, `stamps, `base, `seen, `total
      ensures Valid()
      ensures FileOf(path) == ReadStep(ad, Encoding(path), old(FileOf(path)), stamp, body).0
      ensures forall p :: p != path ==> FileOf(p) == old(FileOf(p))
    {
      if body.Unopened? {
        return;
      }
      var off := Lookup(offsets, path, 0);
      if stamp.size == off {
        stamps := stamps[path := stamp];
        return;
      }
      var recs, complete, ok := Read(path, body, off);
      if !ok {
        return;
      }
      ApplyAll(path, recs);
      Commit(path, complete, stamp, IsDshZstd(path) && stamp.size - off > TAIL_BYTES);
    }

    // The offset moves on; the stamp waits while bytes past the window remain.
    method Commit(path: Path, complete: nat, stamp: Stamp, more: bool)
      requires Valid()
      modifies `offsets, `stamps
      ensures Valid()
      ensures FileOf(path) == MovedTo(old(FileOf(path)), complete, stamp, more)
      ensures forall p :: p != path ==> FileOf(p) == old(FileOf(p))
    {
      offsets := offsets[path := complete];
      if more {
        return;
      }
      stamps := stamps[path := stamp];
    }

    // A shrink: the file starts over, and so does the question whose it is.
    method Restart(path: Path)
      requires Valid()
      modifies `offsets, `owner
      ensures Valid()
      ensures FileOf(path) == old(FileOf(path)).(offset := 0, owner := None)
      ensures forall p :: p != path ==> FileOf(p) == old(FileOf(p))
    {
      offsets := offsets[path := 0];
      owner := owner - {path};
    }

    method ReadNew(path: Path, view: View)
      requires Valid()
      modifies `offsets, `stamps, `owner, `base, `seen, `total
      ensures Valid()
      ensures FileOf(path) == Step(ad, Encoding(path), old(FileOf(path)), view).0
      ensures forall p :: p != path ==> FileOf(p) == old(FileOf(p))
    {
      if view.Missing? {
        return;
      }
      var stamp := view.stamp;
      if Lookup(stamps, path, UNSTAMPED) == stamp {
        return;
      }
      if stamp.size < Lookup(offsets, path, 0) {
        Restart(path);
      }
      var mine, decided := Owns(path, view.header);
      if !decided {
        return;
      }
      if !mine {
        Commit(path, stamp.size, stamp, false);
        return;
      }
      ReadOwned(path, stamp, view.body);
    }

    // One file of Watch's attach loop: it exists with this size, and for a
    // cumulative adapter its tail is read for the baseline.
    method Attach(path: Path, fileSize: nat, seed: Seed)
      requires Valid()
      modifies `offsets, `preexisting, `base
      ensures Valid()
      ensures FileOf(path) == Attached(old(FileOf(path)), fileSize,
                                       if ad.kind == Cumulative then SeedRecords(ad, size, seed) else [])
      ensures forall p :: p != path ==> FileOf(p) == old(FileOf(p))
    {
      offsets := offsets[path := fileSize];
      preexisting := preexisting[path := true];
      if ad.kind == Cumulative {
        SeedBaseline(path, seed);
      }
    }

    // Watch's attach loop over everything the first walk listed.
    method AttachAll(found: seq<Found>)
      requires Valid()
      modifies `offsets, `preexisting, `base
      ensures Valid() && cached == old(cached) && (old(Settled()) ==> Settled())
      ensures forall p :: FileOf(p) == Met(ad, size, old(FileOf(p)), p, found)
    {
      var k := 0;
      while k < |found|
        invariant k <= |found| && Valid()
        invariant forall p :: Met(ad, size, old(FileOf(p)), p, found) == Met(ad, size, FileOf(p), p, found[k..])
      {
        if found[k].size.Some? {
          Attach(found[k].path, found[k].size.value, found[k].seed);
        }
        DropDrop(found, k, 1);
        k := k + 1;
      }
    }

    method SeedBaseline(path: Path, seed: Seed)
      requires Valid() && path in preexisting
      modifies `base
      ensures Valid()
      ensures TallyOf(path) ==
              old(TallyOf(path)).(base := SeedInto(old(TallyOf(path)).base, SeedRecords(ad, size, seed)))
      ensures forall p :: p != path ==> TallyIn(base, seen, total, p) == old(TallyIn(base, seen, total, p))
    {
      var recs := ReadTail(seed);
      RaiseBase(path, recs);
    }

    // A failed read yields no records, and so leaves the baseline unset.
    method ReadTail(seed: Seed) returns (recs: seq<Values>)
      requires Valid()
      ensures recs == SeedRecords(ad, size, seed)
    {
      if seed.NoSeed? || seed.body.Unopened? {
        return [];
      }
      var content := if seed.body.Whole? then seed.body.bytes else seed.body.part;
      var off := if seed.size > BASELINE_TAIL_BYTES then seed.size - BASELINE_TAIL_BYTES else 0;
      var src := Drop(content, off);
      var br := new SliceReader(src, seed.body.Broken?, size);
      var read, _, ok := ConsumeAppend(ad, br, off);
      assert ok ==> read == Consumed(ad, size, src).0;
      assert off == SeedOffset(seed.size);
      return if ok then read else [];
    }

    method RaiseBase(path: Path, recs: seq<Values>)
      requires Valid() && path in preexisting
      modifies `base
      ensures Valid()
      ensures TallyOf(path) == old(TallyOf(path)).(base := SeedInto(old(TallyOf(path)).base, recs))
      ensures forall p :: p != path ==> TallyIn(base, seen, total, p) == old(TallyIn(base, seen, total, p))
    {
      var k := 0;
      while k < |recs|
        invariant k <= |recs| && Valid()
        invariant SeedInto(old(TallyOf(path)).base, recs) == SeedInto(TallyOf(path).base, recs[k..])
        invariant forall p :: p != path ==> TallyIn(base, seen, total, p) == old(TallyIn(base, seen, total, p))
      {
        var b, v := Lookup(base, path, NOTHING), recs[k];
        base := base[path := b.(output := if b.output < v.output then v.output else b.output,
                                thinking := if b.thinking < v.thinking then v.thinking else b.thinking,
                                input := if b.input < v.input then v.input else b.input)];
        DropDrop(recs, k, 1);
        k := k + 1;
      }
    }

    method DropFile(path: Path)
      requires Valid() && path !in seen
      modifies `stamps, `offsets, `owner, `preexisting, `base, `total
      ensures Valid()
      ensures FileOf(path) == Forgotten(old(FileOf(path)))
      ensures forall p :: p != path ==> FileOf(p) == old(FileOf(p))
      ensures total == old(total)
    {
      DropBaseline(path);
      stamps := stamps - {path};
      offsets := offsets - {path};
      owner := owner - {path};
      preexisting := preexisting - {path};
    }

    // Its part in the counting maps; a file that is not counted has no total.
    method DropBaseline(path: Path)
      requires Valid() && path !in seen
      modifies `base, `total
      ensures Valid() && total == old(total)
      ensures TallyOf(path) == UNTOUCHED
      ensures forall p :: p != path ==> TallyIn(base, seen, total, p) == old(TallyIn(base, seen, total, p))
    {
      base := base - {path};
      total := total - {path};
    }

    // The files with entries that nothing keeps.
    method Idle(live: seq<Path>) returns (drop: set<Path>)
      requires Valid()
      ensures drop !! seen.Keys
      ensures forall p :: p in drop ==> !Kept(ad, FileOf(p), p in live)
      ensures forall p :: p !in drop ==> Sift(ad, FileOf(p), p in live) == FileOf(p)
    {
      var keep := (set p | p in live) + seen.Keys + (set p | p in owner && owner[p]);
      if ad.header.None? {
        keep := keep + (set p | p in preexisting && preexisting[p]);
      }
      drop := stamps.Keys + offsets.Keys + owner.Keys + preexisting.Keys - keep;
      assert forall p :: p !in drop ==> Kept(ad, FileOf(p), p in live) || FileOf(p) == Forgotten(FileOf(p));
    }

    method ForgetIdle(live: seq<Path>)
      requires Valid()
      modifies `stamps, `offsets, `owner, `preexisting, `base, `total
      ensures Valid()
      ensures forall p :: FileOf(p) == Sift(ad, old(FileOf(p)), p in live)
      ensures total == old(total)
    {
      var drop := Idle(live);
      while drop != {}
        invariant Valid() && drop !! seen.Keys && total == old(total)
        invariant forall p :: p in drop ==> FileOf(p) == old(FileOf(p)) && !Kept(ad, old(FileOf(p)), p in live)
        invariant forall p :: p !in drop ==> FileOf(p) == Sift(ad, old(FileOf(p)), p in live)
      {
        var path := AnyOf(drop);
        DropFile(path);
        drop := drop - {path};
      }
    }

    // The loops over seen and total, in whatever order the maps yield.
    method Totals() returns (out: Count, thinking: Count, tot: Count, input: Count)
      ensures out as int == Min(SumSeen(seen, Output), MAX_INT)
      ensures thinking as int == Min(SumSeen(seen, Thinking), MAX_INT)
      ensures input as int == Min(SumSeen(seen, Input), MAX_INT)
      ensures tot as int == Min(SumTotal(total), MAX_INT)
    {
      out, thinking, tot, input := 0, 0, 0, 0;
      var left := seen.Keys;
      while left != {}
        invariant left <= seen.Keys
        invariant out as int == Min(SumSeen(seen, Output) - SumRest(seen, left, Output), MAX_INT)
        invariant thinking as int == Min(SumSeen(seen, Thinking) - SumRest(seen, left, Thinking), MAX_INT)
        invariant input as int == Min(SumSeen(seen, Input) - SumRest(seen, left, Input), MAX_INT)
      {
        var p := AnyOf(left);
        SeenVisited(seen, left, p, Output);
        SeenVisited(seen, left, p, Thinking);
        SeenVisited(seen, left, p, Input);
        out := SatAdd(out, seen[p].output);
        thinking := SatAdd(thinking, seen[p].thinking);
        input := SatAdd(input, seen[p].input);
        left := left - {p};
      }
      left := total.Keys;
      while left != {}
        invariant left <= total.Keys
        invariant tot as int == Min(SumTotal(total) - TotalRest(total, left), MAX_INT)
      {
        var p := AnyOf(left);
        TotalVisited(total, left, p);
        tot := SatAdd(tot, total[p]);
        left := left - {p};
      }
    }

    // After any poll the sample is exactly what the maps hold.
    ghost predicate Settled()
      reads this
    {
      Valid() && Reads(sample, seen, total)
    }

    method ReadListed(views: seq<View>)
      requires Valid() && |views| == |cached|
      modifies `offsets, `stamps, `owner, `base, `seen, `total
      ensures Valid()
      ensures forall p :: FileOf(p) == Visits(ad, Encoding(p), old(FileOf(p)), p, cached, views)
      ensures forall f :: SumSeen(old(seen), f) <= SumSeen(seen, f)
      ensures SumTotal(old(total)) <= SumTotal(total)
    {
      var k := 0;
      while k < |cached|
        invariant k <= |cached| && Valid()
        invariant forall p :: Visits(ad, Encoding(p), old(FileOf(p)), p, cached, views) ==
                              Visits(ad, Encoding(p), FileOf(p), p, cached[k..], views[k..])
      {
        ReadNew(cached[k], views[k]);
        DropDrop(cached, k, 1);
        DropDrop(views, k, 1);
        k := k + 1;
      }
      forall p
        ensures Grows(old(TallyIn(base, seen, total, p)), TallyIn(base, seen, total, p))
      {
        VisitsGrow(ad, Encoding(p), old(FileOf(p)), p, cached, views);
        assert FileOf(p).tally == TallyIn(base, seen, total, p);
      }
      TalliesGrow(old(base), old(seen), old(total), base, seen, total);
    }

    // One poll: perhaps a fresh listing, then every listed file, then the sums.
    method Poll(rescan: bool, listing: seq<Path>, views: seq<View>, now: int) returns (grew: bool)
      requires Settled()
      requires |views| == if rescan then |listing| else |cached|
      modifies this
      ensures Settled()
      ensures cached == if rescan then listing else old(cached)
      ensures forall p :: FileOf(p) == Visits(ad, Encoding(p),
        if rescan then Sift(ad, old(FileOf(p)), p in listing) else old(FileOf(p)),
        p, cached, views)
      ensures SampleAtMost(old(sample), sample)
      ensures grew <==> !SampleAtMost(sample, old(sample))
      ensures if grew then sample.at == now else sample == old(sample)
    {
      if rescan {
        ForgetIdle(listing);
        cached := listing;
      }
      ReadListed(views);
      grew := Refresh(now);
    }

    // The poll loop, whatever its ticks meet: shown is what onChange is given.
    method Run(rounds: seq<Round>) returns (shown: seq<Sample>)
      requires Settled() && Polled(cached, rounds)
      modifies this
      ensures Settled()
      ensures forall p :: FileOf(p) == Watched(ad, Encoding(p), old(FileOf(p)), p, old(cached), rounds)
      ensures Climbs(old(sample), shown, sample)
    {
      shown := [];
      var k := 0;
      while k < |rounds|
        invariant k <= |rounds| && Settled() && Polled(cached, rounds[k..])
        invariant forall p :: Watched(ad, Encoding(p), old(FileOf(p)), p, old(cached), rounds) ==
                              Watched(ad, Encoding(p), FileOf(p), p, cached, rounds[k..])
        invariant Climbs(old(sample), shown, sample)
      {
        ghost var before := sample;
        var r := rounds[k];
        var grew := Poll(r.rescan, r.listing, r.views, r.now);
        DropDrop(rounds, k, 1);
        if grew {
          ClimbsOn(old(sample), shown, before, sample);
          shown := shown + [sample];
        }
        k := k + 1;
      }
    }

    // The sample follows the sums when any of them grew.
    method Refresh(now: int) returns (grew: bool)
      requires Valid() && Below(sample, seen, total)
      modifies `sample
      ensures Settled()
      ensures SampleAtMost(old(sample), sample)
      ensures grew <==> !SampleAtMost(sample, old(sample))
      ensures if grew then sample.at == now else sample == old(sample)
    {
      var out, thinking, tot, input := Totals();
      grew := out > sample.output || tot > sample.total || thinking > sample.thinking || input > sample.input;
      if grew {
        sample := Sample(out, thinking, tot, input, now);
      }
    }
  }
}
