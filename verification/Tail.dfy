// One transcript's part of the Watcher of agentusage/watch.go, as a function:
// what a poll that finds the file in a given condition does to its offset,
// stamp, owner verdict and tally. Watcher.dfy proves the methods against it.
module Tail {
  import opened Base
  import opened Counters
  import opened Lines
  import opened Reader
  import opened Zstd
  import opened DshReader
  import opened Tallies
  import Owner

  datatype Stamp = Stamp(mtime: int, size: nat)

  const UNSTAMPED := Stamp(0, 0)

  // How a file's bytes are read: the records of the bytes from some offset on
  // and how many of them are done (None: retry), whose file it is (None: ask
  // again), and whether one read is limited to a window.
  datatype Format = Format(
    read: Bytes -> Option<(seq<Values>, nat)>,
    verdict: Bytes -> Option<bool>,
    capped: bool)

  function PlainFormat(ad: Adapter, size: Positive): Format {
    Format((src: Bytes) => Some(Consumed(ad, size, src)),
           (content: Bytes) => if ad.header.None? then Some(true)
                               else Owner.Verdict(ad.header.value, ad.sameDir, content),
           false)
  }

  function ZstdFormat(ad: Adapter, codec: Codec): Format {
    Format((src: Bytes) => ConsumedZstd(ad, codec, src),
           (content: Bytes) => if ad.header.None? then Some(true)
                               else ZstdVerdict(ad, ad.header.value, codec, content),
           true)
  }

  // What opening the file for reading gave: nothing, a read that failed
  // midway, or every byte up to end of file.
  datatype Body = Unopened | Broken(part: Bytes) | Whole(bytes: Bytes)

  // The file as one poll meets it: the stat, then the content the owner check
  // opened (when it could), then the content the read opened. Three separate
  // moments, so three separate values.
  datatype View = Missing | Present(stamp: Stamp, header: Option<Bytes>, body: Body)

  datatype FileState = FileState(offset: nat, stamp: Stamp, owner: Option<bool>, pre: bool, tally: Tally)

  const UNKNOWN := FileState(0, UNSTAMPED, None, false, UNTOUCHED)

  function Drop(s: Bytes, n: nat): Bytes {
    if n <= |s| then s[n..] else []
  }

  function ReadBody(fmt: Format, body: Body, off: nat): Option<(seq<Values>, nat)> {
    match body
    case Unopened => None
    case Broken(part) =>
      // A limited read never sees a failure past its window.
      if fmt.capped && |Drop(part, off)| >= TAIL_BYTES then fmt.read(Drop(part, off)) else None
    case Whole(bytes) => fmt.read(Drop(bytes, off))
  }

  // A file that ends before the offset yields nothing and moves nothing.
  lemma NothingPastTheEnd(ad: Adapter, size: Positive, bytes: Bytes, off: nat)
    requires off >= |bytes|
    ensures ReadBody(PlainFormat(ad, size), Whole(bytes), off) == Some(([], 0))
  {
    assert Drop(bytes, off) == [];
    Remainder(0, size, 0);
    NoNewline([]);
  }

  // The verdict readNew acts on: the cached one, or a fresh scan.
  function Decide(ad: Adapter, fmt: Format, owner: Option<bool>, header: Option<Bytes>): Option<bool> {
    if ad.header.None? then Some(true)
    else if owner.Some? then owner
    else if header.None? then None
    else fmt.verdict(header.value)
  }

  // A capped read leaves bytes past its window; such a poll is not stamped.
  predicate PastWindow(fmt: Format, size: nat, off: nat) {
    fmt.capped && size - off > TAIL_BYTES
  }

  // readNew: the new state, and the records it counted.
  function Step(ad: Adapter, fmt: Format, f: FileState, view: View): (FileState, seq<Values>) {
    if view.Missing? || f.stamp == view.stamp then (f, []) else
      var shrunk := view.stamp.size < f.offset;
      var f := if shrunk then f.(offset := 0, owner := None) else f;
      var verdict := Decide(ad, fmt, f.owner, view.header);
      if verdict.None? then (f, []) else
        var f := if ad.header.Some? then f.(owner := verdict) else f;
        if !verdict.value then (f.(offset := view.stamp.size, stamp := view.stamp), [])
        else ReadStep(ad, fmt, f, view.stamp, view.body)
  }

  // The part of readNew past the owner check.
  function ReadStep(ad: Adapter, fmt: Format, f: FileState, stamp: Stamp, body: Body): (FileState, seq<Values>) {
    if body.Unopened? then (f, [])
    else if stamp.size == f.offset then (f.(stamp := stamp), [])
    else
      match ReadBody(fmt, body, f.offset)
      case None => (f, [])
      case Some((recs, n)) =>
        var g := f.(tally := Fold(ad.kind, f.pre, f.tally, recs));
        (MovedTo(g, f.offset + n, stamp, PastWindow(fmt, stamp.size, f.offset)), recs)
  }

  function MovedTo(f: FileState, offset: nat, stamp: Stamp, more: bool): FileState {
    if more then f.(offset := offset) else f.(offset := offset, stamp := stamp)
  }

  // dropFile: every per-file entry but the counted contribution.
  function Forgotten(f: FileState): FileState {
    UNKNOWN.(tally := UNTOUCHED.(seen := f.tally.seen))
  }

  // forgetIdle spares a listed file, one with counts, one known to be ours,
  // and, without session headers, one that predates the watch.
  predicate Kept(ad: Adapter, f: FileState, listed: bool) {
    listed || f.tally.seen.Some? || f.owner == Some(true) || (ad.header.None? && f.pre)
  }

  // What a fresh listing leaves of a file's entries.
  function Sift(ad: Adapter, f: FileState, listed: bool): FileState {
    if Kept(ad, f, listed) then f else Forgotten(f)
  }

  // One poll's visits to one path: the listing may name it more than once.
  function Visits(ad: Adapter, fmt: Format, f: FileState, path: string, listing: seq<string>,
                  views: seq<View>): FileState
    requires |views| == |listing|
    decreases |listing|
  {
    if listing == [] then f else
      var g := if listing[0] == path then Step(ad, fmt, f, views[0]).0 else f;
      Visits(ad, fmt, g, path, listing[1..], views[1..])
  }

  // Counts never shrink, and a counted file stays counted.
  predicate Grows(t: Tally, r: Tally) {
    AtMost(t.Seen(), r.Seen()) && t.total <= r.total && (t.seen.Some? ==> r.seen.Some?)
  }

  // Whatever branch a poll takes, the tally moves by the records it counted.
  lemma StepTallies(ad: Adapter, fmt: Format, f: FileState, view: View)
    ensures var (g, recs) := Step(ad, fmt, f, view);
      g.pre == f.pre && g.tally == Fold(ad.kind, f.pre, f.tally, recs)
  {
  }

  lemma StepGrows(ad: Adapter, fmt: Format, f: FileState, view: View)
    ensures Grows(f.tally, Step(ad, fmt, f, view).0.tally)
  {
    StepTallies(ad, fmt, f, view);
    FoldGrows(ad.kind, f.pre, f.tally, Step(ad, fmt, f, view).1);
  }

  lemma {:induction false} VisitsGrow(ad: Adapter, fmt: Format, f: FileState, path: string, listing: seq<string>,
                                      views: seq<View>)
    requires |views| == |listing|
    ensures Grows(f.tally, Visits(ad, fmt, f, path, listing, views).tally)
    decreases |listing|
  {
    if listing != [] {
      StepGrows(ad, fmt, f, views[0]);
      var g := if listing[0] == path then Step(ad, fmt, f, views[0]).0 else f;
      VisitsGrow(ad, fmt, g, path, listing[1..], views[1..]);
    }
  }

  // seedBaseline reads at most this much of the end of a file.
  const BASELINE_TAIL_BYTES: nat := 0x4_0000

  // The seed read at attach: the size it saw, and what reading gave.
  datatype Seed = NoSeed | Seed(size: nat, body: Body)

  function SeedOffset(size: nat): nat {
    if size > BASELINE_TAIL_BYTES then size - BASELINE_TAIL_BYTES else 0
  }

  // The records of the tail, or none when the read failed.
  function SeedRecords(ad: Adapter, size: nat, seed: Seed): seq<Values>
    requires size > 0
  {
    if seed.NoSeed? || !seed.body.Whole? then []
    else Consumed(ad, size, Drop(seed.body.bytes, SeedOffset(seed.size))).0
  }

  // The baseline after the seed records: the largest value of each counter.
  function SeedInto(base: Option<Values>, recs: seq<Values>): Option<Values>
    decreases |recs|
  {
    if recs == [] then base else
      var b := if base.Some? then base.value else NOTHING;
      var v := recs[0];
      SeedInto(Some(b.(output := if b.output < v.output then v.output else b.output,
                       thinking := if b.thinking < v.thinking then v.thinking else b.thinking,
                       input := if b.input < v.input then v.input else b.input)), recs[1..])
  }

  // A file found on disk at attach: everything up to its size is skipped.
  function Attached(f: FileState, size: nat, recs: seq<Values>): FileState {
    f.(offset := size, pre := true, tally := f.tally.(base := SeedInto(f.tally.base, recs)))
  }
}
