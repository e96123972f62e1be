// Whole runs of the tailer over one append-only transcript: polls that catch
// the file at any length, fail at any step, are skipped on an equal stamp, and
// forgetting passes in between. Whatever the schedule, the records counted are
// those of one batch read of what was written after attach.
module Runs {
  import opened Base
  import opened Counters
  import opened Lines
  import opened Zstd
  import opened Tallies
  import opened Tail

  // How far a read got: the length of the file when it reached the end, or
  // where it broke off.
  datatype Reach = Nowhere | BrokeAt(n: nat) | EndAt(n: nat)

  // One step in the life of a file whose bytes are a growing prefix of some
  // final content. A poll stats it, may open it for its header, may read it;
  // the file can grow before each of the three. Forget is a forgetIdle pass
  // whose listing leaves the file out.
  datatype Event =
    | Poll(mtime: int, stat: nat, header: Option<nat>, reach: Reach)
    | Missed
    | Forget

  // The file's length after the event, given it was n before.
  function Length(n: nat, e: Event): nat {
    if !e.Poll? then n else
      var m := if e.header.Some? then Max(e.stat, e.header.value) else e.stat;
      if e.reach.Nowhere? then m else Max(m, e.reach.n)
  }

  // The moments of one poll come in order, and no event shortens the file.
  predicate Grows(n: nat, e: Event) {
    e.Poll? ==>
      && n <= e.stat
      && (e.header.Some? ==> e.stat <= e.header.value)
      && (!e.reach.Nowhere? ==> e.stat <= e.reach.n && (e.header.Some? ==> e.header.value <= e.reach.n))
  }

  predicate AppendOnly(n: nat, events: seq<Event>, final: nat)
    decreases |events|
  {
    if events == [] then n <= final else
      Grows(n, events[0]) && AppendOnly(Length(n, events[0]), events[1..], final)
  }

  function BodyOf(content: Bytes, reach: Reach): Body
    requires !reach.Nowhere? ==> reach.n <= |content|
  {
    match reach
    case Nowhere => Unopened
    case BrokeAt(n) => Broken(content[..n])
    case EndAt(n) => Whole(content[..n])
  }

  function ViewOf(content: Bytes, e: Event): View
    requires Length(0, e) <= |content|
  {
    match e
    case Poll(mtime, stat, header, reach) =>
      Present(Stamp(mtime, stat), if header.Some? then Some(content[..header.value]) else None,
              BodyOf(content, reach))
    case _ => Missing
  }

  // The outcome of a run: the state, every record counted, the file's length.
  datatype Outcome = Outcome(file: FileState, counted: seq<Values>, length: nat)

  function After(ad: Adapter, fmt: Format, content: Bytes, s: Outcome, e: Event): Outcome
    requires Length(0, e) <= |content|
  {
    if e.Forget? then s.(file := Sift(ad, s.file, false))
    else
      var r := Step(ad, fmt, s.file, ViewOf(content, e));
      Outcome(r.0, s.counted + r.1, Length(s.length, e))
  }

  lemma {:induction false} FinalBounds(n: nat, events: seq<Event>, final: nat)
    requires AppendOnly(n, events, final)
    ensures n <= final && (events != [] ==> Length(0, events[0]) <= Length(n, events[0]) <= final)
    decreases |events|
  {
    if events != [] {
      FinalBounds(Length(n, events[0]), events[1..], final);
    }
  }

  function Run(ad: Adapter, fmt: Format, content: Bytes, s: Outcome, events: seq<Event>): Outcome
    requires AppendOnly(s.length, events, |content|)
    decreases |events|
  {
    if events == [] then s else
      FinalBounds(s.length, events, |content|);
      Run(ad, fmt, content, After(ad, fmt, content, s, events[0]), events[1..])
  }

  // Whenever forgetIdle passes without the file in its listing, it is spared.
  ghost predicate Spares(ad: Adapter, fmt: Format, content: Bytes, s: Outcome, events: seq<Event>)
    requires AppendOnly(s.length, events, |content|)
    decreases |events|
  {
    events == [] ||
    (FinalBounds(s.length, events, |content|);
     && (events[0].Forget? ==> Kept(ad, s.file, false))
     && Spares(ad, fmt, content, After(ad, fmt, content, s, events[0]), events[1..]))
  }

  // Every prefix of the content gives no verdict or this one.
  ghost predicate Verdicts(ad: Adapter, fmt: Format, content: Bytes, mine: bool) {
    && (ad.header.None? ==> mine)
    && forall k: nat :: k <= |content| ==> fmt.verdict(content[..k]) in {None, Some(mine)}
  }

  // What "everything before o is in counted" means is the format's business.
  type Account = (nat, seq<Values>) -> bool

  // Reading on from an accounted position reaches an accounted position.
  ghost predicate CarriesOn(fmt: Format, content: Bytes, acct: Account, o: nat, m: nat, counted: seq<Values>) {
    o <= m <= |content| && acct(o, counted) && fmt.read(content[o..m]).Some? ==>
      var (recs, k) := fmt.read(content[o..m]).value;
      o + k <= m && acct(o + k, counted + recs)
  }

  // Reading would count nothing and move nowhere.
  predicate Quiet(fmt: Format, src: Bytes) {
    var r := fmt.read(src);
    r.None? || r.value == ([], 0)
  }

  // A read that moves nowhere counts nothing, and one that saw everything
  // leaves nothing for the next.
  predicate Settles(fmt: Format, src: Bytes) {
    fmt.read(src).Some? ==>
      var (recs, k) := fmt.read(src).value;
      && k <= |src|
      && (k == 0 ==> recs == [])
      && (!fmt.capped || |src| <= TAIL_BYTES ==> Quiet(fmt, src[k..]))
  }

  // Two reads in a row pass a whole window, or nothing is left.
  predicate Strides(fmt: Format, src: Bytes) {
    fmt.read(src).Some? && fmt.read(src).value.1 <= |src| ==>
      Poised(fmt, src, fmt.read(src).value.1, TAIL_BYTES)
  }

  // At o nothing is left, or what is read next reaches past mark.
  predicate Poised(fmt: Format, content: Bytes, o: nat, mark: nat) {
    && o <= |content|
    && var r := fmt.read(content[o..]);
    r.None? || r.value == ([], 0) || o + r.value.1 > mark
  }

  // What the run theorems ask of a format and the content it reads.
  ghost predicate Reads(fmt: Format, content: Bytes, attach: nat, acct: Account) {
    && acct(attach, [])
    && (forall o, m, counted :: CarriesOn(fmt, content, acct, o, m, counted))
    && (forall src :: Settles(fmt, src) && Strides(fmt, src)) && Quiet(fmt, [])
  }

  // The invariant of a run on a file of ours.
  ghost predicate Inv(fmt: Format, content: Bytes, attach: nat, acct: Account, s: Outcome) {
    && attach <= s.file.offset <= s.length <= |content|
    && s.file.owner in {None, Some(true)}
    && acct(s.file.offset, s.counted)
    && s.file.stamp.size <= s.length
    && (s.file.stamp.size == s.length ==> Quiet(fmt, content[s.file.offset..s.length]))
    && (s.counted != [] ==> s.file.tally.seen.Some?)
  }

  function Start(attach: nat, pre: bool, base: Option<Values>): Outcome {
    Outcome(FileState(attach, UNSTAMPED, None, pre, UNTOUCHED.(base := base)), [], attach)
  }

  lemma StartInv(fmt: Format, content: Bytes, attach: nat, acct: Account, pre: bool, base: Option<Values>)
    requires attach <= |content| && Reads(fmt, content, attach, acct)
    ensures Inv(fmt, content, attach, acct, Start(attach, pre, base))
  {
    assert content[attach..attach] == [];
  }

  lemma ForgetInv(ad: Adapter, fmt: Format, content: Bytes, attach: nat, acct: Account, s: Outcome)
    requires Reads(fmt, content, attach, acct) && Inv(fmt, content, attach, acct, s)
    requires attach == 0 || Kept(ad, s.file, false)
    ensures Inv(fmt, content, attach, acct, After(ad, fmt, content, s, Forget))
  {
    assert content[0..0] == [];
  }

  // What a completed read leaves, given what it counted and where it stopped.
  // Where its stamp is set, nothing up to that length is left unread.
  lemma ReadLands(fmt: Format, content: Bytes, attach: nat, acct: Account, s: Outcome, g: FileState,
                  counted: seq<Values>, stamp: Stamp, length: nat, more: bool)
    requires Inv(fmt, content, attach, acct, s) && s.length <= stamp.size <= length <= |content|
    requires attach <= g.offset <= length && acct(g.offset, counted) && g.owner == s.file.owner
    requires g.stamp == if more then s.file.stamp else stamp
    requires (if more then s.file.stamp.size else stamp.size) == length ==>
               Quiet(fmt, content[g.offset..length])
    requires counted != [] ==> g.tally.seen.Some?
    ensures Inv(fmt, content, attach, acct, Outcome(g, counted, length))
  {
  }

  // The read of a poll past the owner check.
  lemma ReadInv(ad: Adapter, fmt: Format, content: Bytes, attach: nat, acct: Account, s: Outcome,
                stamp: Stamp, reach: Reach, length: nat)
    requires Reads(fmt, content, attach, acct) && Inv(fmt, content, attach, acct, s)
    requires s.length <= stamp.size <= length <= |content| && (!reach.Nowhere? ==> reach.n == length)
    ensures var r := ReadStep(ad, fmt, s.file, stamp, BodyOf(content, reach));
      Inv(fmt, content, attach, acct, Outcome(r.0, s.counted + r.1, length))
  {
    if !reach.Nowhere? && stamp.size != s.file.offset && ReadBody(fmt, BodyOf(content, reach), s.file.offset).Some? {
      DoneInv(ad, fmt, content, attach, acct, s, stamp, reach, length);
    } else {
      assert s.counted + [] == s.counted;
      assert content[s.file.offset..s.file.offset] == [];
    }
  }

  lemma DoneInv(ad: Adapter, fmt: Format, content: Bytes, attach: nat, acct: Account, s: Outcome,
                stamp: Stamp, reach: Reach, length: nat)
    requires Reads(fmt, content, attach, acct) && Inv(fmt, content, attach, acct, s)
    requires s.length <= stamp.size <= length <= |content| && !reach.Nowhere? && reach.n == length
    requires stamp.size != s.file.offset && ReadBody(fmt, BodyOf(content, reach), s.file.offset).Some?
    ensures var r := ReadStep(ad, fmt, s.file, stamp, BodyOf(content, reach));
      Inv(fmt, content, attach, acct, Outcome(r.0, s.counted + r.1, length))
  {
    var f, body, src := s.file, BodyOf(content, reach), content[s.file.offset..length];
    assert Drop(content[..length], f.offset) == src;
    var recs := fmt.read(src).value.0;
    CompletedRead(fmt, content, attach, acct, s, length);
    FoldGrows(ad.kind, f.pre, f.tally, recs);
    ReadLands(fmt, content, attach, acct, s, ReadStep(ad, fmt, f, stamp, body).0, s.counted + recs,
              stamp, length, PastWindow(fmt, stamp.size, f.offset));
  }

  lemma CompletedRead(fmt: Format, content: Bytes, attach: nat, acct: Account, s: Outcome, length: nat)
    requires Reads(fmt, content, attach, acct) && Inv(fmt, content, attach, acct, s)
    requires s.length <= length <= |content| && fmt.read(content[s.file.offset..length]).Some?
    ensures var o := s.file.offset;
      var (recs, k) := fmt.read(content[o..length]).value;
      && o + k <= length && acct(o + k, s.counted + recs)
      && ((s.file.stamp.size == length || !PastWindow(fmt, length, o)) ==> Quiet(fmt, content[o + k..length]))
  {
    var o, src := s.file.offset, content[s.file.offset..length];
    assert CarriesOn(fmt, content, acct, o, length, s.counted);
    assert Settles(fmt, src);
    DropSlice(content, o, length, fmt.read(src).value.1);
  }

  lemma DropSlice(content: Bytes, o: nat, n: nat, k: nat)
    requires o + k <= n <= |content|
    ensures content[o..n][k..] == content[o + k..n]
  {
  }

  lemma StepInv(ad: Adapter, fmt: Format, content: Bytes, attach: nat, acct: Account, s: Outcome, e: Event)
    requires Reads(fmt, content, attach, acct) && Verdicts(ad, fmt, content, true)
    requires Inv(fmt, content, attach, acct, s)
    requires Grows(s.length, e) && Length(0, e) <= |content|
    requires e.Forget? ==> attach == 0 || Kept(ad, s.file, false)
    ensures Length(s.length, e) <= |content|
    ensures Inv(fmt, content, attach, acct, After(ad, fmt, content, s, e))
  {
    match e
    case Forget =>
      ForgetInv(ad, fmt, content, attach, acct, s);
    case Missed =>
      assert s.counted + [] == s.counted;
    case Poll(mtime, stat, header, reach) =>
      assert s.counted + [] == s.counted;
      var verdict := Decide(ad, fmt, s.file.owner, ViewOf(content, e).header);
      assert verdict in {None, Some(true)};
      if s.file.stamp != Stamp(mtime, stat) && verdict.Some? {
        var g := if ad.header.Some? then s.file.(owner := verdict) else s.file;
        ReadInv(ad, fmt, content, attach, acct, s.(file := g), Stamp(mtime, stat), reach, Length(s.length, e));
      }
  }

  lemma {:induction false} RunInv(ad: Adapter, fmt: Format, content: Bytes, attach: nat, acct: Account,
                                  s: Outcome, events: seq<Event>)
    requires Reads(fmt, content, attach, acct) && Verdicts(ad, fmt, content, true)
    requires Inv(fmt, content, attach, acct, s)
    requires AppendOnly(s.length, events, |content|) && (attach == 0 || Spares(ad, fmt, content, s, events))
    ensures Inv(fmt, content, attach, acct, Run(ad, fmt, content, s, events))
    decreases |events|
  {
    if events != [] {
      FinalBounds(s.length, events, |content|);
      StepInv(ad, fmt, content, attach, acct, s, events[0]);
      RunInv(ad, fmt, content, attach, acct, After(ad, fmt, content, s, events[0]), events[1..]);
    }
  }

  // A poll of the finished file that nothing interferes with.
  predicate Complete(content: Bytes, e: Event) {
    e.Poll? && e.stat == |content| && e.header == Some(|content|) && e.reach == EndAt(|content|)
  }

  lemma WholeTail(content: Bytes, o: nat)
    requires o <= |content|
    ensures content[..|content|] == content && content[o..|content|] == content[o..]
  {
  }

  // After a complete poll the read is done, or the window was too small: then
  // the offset moved on, and what is read next reaches past that window.
  lemma CompletePoll(ad: Adapter, fmt: Format, content: Bytes, attach: nat, acct: Account, s: Outcome, e: Event)
    requires Reads(fmt, content, attach, acct) && Verdicts(ad, fmt, content, true)
    requires Inv(fmt, content, attach, acct, s) && Complete(content, e)
    requires fmt.verdict(content) == Some(true)
    ensures var o, t := s.file.offset, After(ad, fmt, content, s, e);
      && Inv(fmt, content, attach, acct, t) && t.length == |content|
      && (Quiet(fmt, content[t.file.offset..]) ||
          (fmt.capped && |content| - o > TAIL_BYTES && t.file.offset > o &&
           Poised(fmt, content, t.file.offset, o + TAIL_BYTES)))
  {
    var o, t := s.file.offset, After(ad, fmt, content, s, e);
    StepInv(ad, fmt, content, attach, acct, s, e);
    WholeTail(content, o);
    WholeTail(content, t.file.offset);
    if s.file.stamp != Stamp(e.mtime, e.stat) && o < |content| && fmt.read(content[o..]).Some? {
      assert Settles(fmt, content[o..]);
      assert CarriesOn(fmt, content, acct, o, |content|, s.counted);
      NextReach(fmt, content, o);
    } else {
      assert t.file.offset == o && Quiet(fmt, content[o..]);
    }
  }

  lemma NextReach(fmt: Format, content: Bytes, o: nat)
    requires o <= |content| && fmt.read(content[o..]).Some?
    requires Settles(fmt, content[o..]) && Strides(fmt, content[o..])
    ensures var k := fmt.read(content[o..]).value.1;
      && o + k <= |content|
      && content[o..][k..] == content[o + k..] == content[o + k..|content|]
      && Poised(fmt, content, o + k, o + TAIL_BYTES)
  {
    DropDrop(content, o, fmt.read(content[o..]).value.1);
  }

  // The verdict is no: nothing of the file is ever counted.
  ghost predicate Foreign(s: Outcome) {
    s.file.owner in {None, Some(false)} && s.counted == []
  }

  lemma {:induction false} ForeignCountsNothing(ad: Adapter, fmt: Format, content: Bytes, s: Outcome,
                                                events: seq<Event>)
    requires ad.header.Some? && Verdicts(ad, fmt, content, false)
    requires AppendOnly(s.length, events, |content|) && Foreign(s)
    ensures Foreign(Run(ad, fmt, content, s, events))
    decreases |events|
  {
    if events != [] {
      FinalBounds(s.length, events, |content|);
      var e := events[0];
      if e.Poll? {
        assert Decide(ad, fmt, s.file.owner, ViewOf(content, e).header) in {None, Some(false)};
        assert Decide(ad, fmt, None, ViewOf(content, e).header) in {None, Some(false)};
      }
      ForeignCountsNothing(ad, fmt, content, After(ad, fmt, content, s, e), events[1..]);
    }
  }

  // Reading where nothing is left: no record, no move.
  lemma QuietRead(ad: Adapter, fmt: Format, f: FileState, stamp: Stamp, content: Bytes, reach: Reach, length: nat)
    requires length <= |content| && (!reach.Nowhere? ==> reach.n == length)
    requires f.offset <= length && Quiet(fmt, content[f.offset..length])
    ensures var r := ReadStep(ad, fmt, f, stamp, BodyOf(content, reach));
      r.1 == [] && r.0.offset == f.offset && r.0.tally == f.tally
  {
    assert Drop(content[..length], f.offset) == content[f.offset..length];
  }

  // The idle-skip cache: when the stamp is unchanged, reading the file again
  // would have counted nothing and moved nothing.
  lemma SkipIsHarmless(ad: Adapter, fmt: Format, content: Bytes, attach: nat, acct: Account, s: Outcome,
                       e: Event, other: Stamp)
    requires Reads(fmt, content, attach, acct) && Verdicts(ad, fmt, content, true)
    requires Inv(fmt, content, attach, acct, s)
    requires e.Poll? && Grows(s.length, e) && Length(0, e) == e.stat <= |content|
    requires s.file.stamp == Stamp(e.mtime, e.stat) && other != s.file.stamp
    ensures var r := Step(ad, fmt, s.file.(stamp := other), ViewOf(content, e));
      r.1 == [] && r.0.offset == s.file.offset && r.0.tally == s.file.tally
  {
    var verdict := Decide(ad, fmt, s.file.owner, ViewOf(content, e).header);
    assert e.header.Some? ==> fmt.verdict(content[..e.header.value]) in {None, Some(true)};
    if verdict.Some? {
      var f := s.file.(stamp := other);
      var g := if ad.header.Some? then f.(owner := verdict) else f;
      QuietRead(ad, fmt, g, Stamp(e.mtime, e.stat), content, e.reach, s.length);
    }
  }

  // A file that has been read to its end, whatever comes: polls, failed ones,
  // and forgetting passes that spare it.
  lemma QuietStep(ad: Adapter, fmt: Format, content: Bytes, s: Outcome, e: Event)
    requires Verdicts(ad, fmt, content, true) && Grows(s.length, e) && Length(0, e) <= |content|
    requires s.file.offset <= s.length && Length(s.length, e) == |content|
    requires s.file.owner in {None, Some(true)} && Quiet(fmt, content[s.file.offset..])
    requires e.Forget? ==> Kept(ad, s.file, false)
    ensures var t := After(ad, fmt, content, s, e);
      && t.file.offset == s.file.offset && t.file.tally == s.file.tally && t.counted == s.counted
      && t.file.owner in {None, Some(true)} && t.length == |content|
  {
    assert s.counted + [] == s.counted;
    if e.Poll? {
      var verdict := Decide(ad, fmt, s.file.owner, ViewOf(content, e).header);
      assert e.header.Some? ==> fmt.verdict(content[..e.header.value]) in {None, Some(true)};
      assert content[s.file.offset..|content|] == content[s.file.offset..];
      if verdict.Some? {
        var g := if ad.header.Some? then s.file.(owner := verdict) else s.file;
        QuietRead(ad, fmt, g, Stamp(e.mtime, e.stat), content, e.reach, |content|);
      }
    }
  }

  lemma {:induction false} QuietStays(ad: Adapter, fmt: Format, content: Bytes, s: Outcome, events: seq<Event>)
    requires Verdicts(ad, fmt, content, true) && AppendOnly(s.length, events, |content|)
    requires s.file.offset <= s.length == |content|
    requires s.file.owner in {None, Some(true)} && Quiet(fmt, content[s.file.offset..])
    requires Spares(ad, fmt, content, s, events)
    ensures var t := Run(ad, fmt, content, s, events);
      t.file.offset == s.file.offset && t.file.tally == s.file.tally && t.counted == s.counted
    decreases |events|
  {
    if events != [] {
      FinalBounds(s.length, events, |content|);
      QuietStep(ad, fmt, content, s, events[0]);
      QuietStays(ad, fmt, content, After(ad, fmt, content, s, events[0]), events[1..]);
    }
  }

  lemma {:induction false} CompleteIsAppendOnly(content: Bytes, n: nat, polls: seq<Event>)
    requires n <= |content| && forall e :: e in polls ==> Complete(content, e)
    ensures AppendOnly(n, polls, |content|)
    decreases |polls|
  {
    if polls != [] {
      assert Complete(content, polls[0]);
      CompleteIsAppendOnly(content, Length(n, polls[0]), polls[1..]);
    }
  }

  // How many polls of an event sequence saw the finished file undisturbed.
  function Completes(content: Bytes, events: seq<Event>): nat {
    if events == [] then 0 else (if Complete(content, events[0]) then 1 else 0) + Completes(content, events[1..])
  }

  // More than this many of them read n bytes: one does without a limit, and for
  // what a window holds; past that, two in a row pass a window and a byte.
  function Rounds(fmt: Format, n: int): nat {
    if !fmt.capped || n <= TAIL_BYTES then 0 else 2 + Rounds(fmt, n - TAIL_BYTES - 1)
  }

  lemma {:induction false} RoundsAre(fmt: Format, n: nat)
    ensures Rounds(fmt, n) == if fmt.capped then 2 * (n / (TAIL_BYTES + 1)) else 0
  {
    if fmt.capped && n > TAIL_BYTES {
      RoundsAre(fmt, n - TAIL_BYTES - 1);
    }
  }

  // The polls that still have to come when the next read passes mark.
  function Toward(fmt: Format, content: Bytes, mark: nat): nat {
    if mark >= |content| then 0 else 2 + Rounds(fmt, |content| - mark - 1)
  }

  lemma {:induction false} RoundsFall(fmt: Format, m: int, n: int)
    requires m <= n
    ensures Rounds(fmt, m) <= Rounds(fmt, n)
    decreases n
  {
    if fmt.capped && m > TAIL_BYTES {
      RoundsFall(fmt, m - TAIL_BYTES - 1, n - TAIL_BYTES - 1);
    }
  }

  // need more complete polls read the file to its end.
  ghost predicate Ready(fmt: Format, content: Bytes, s: Outcome, need: nat) {
    && s.file.offset <= s.length <= |content|
    && (need > Rounds(fmt, |content| - s.file.offset) ||
        (s.length == |content| && exists mark :: Toward(fmt, content, mark) <= need &&
                                                 Poised(fmt, content, s.file.offset, mark)))
  }

  lemma ReadGrows(ad: Adapter, fmt: Format, f: FileState, stamp: Stamp, content: Bytes, reach: Reach)
    requires !reach.Nowhere? ==> f.offset <= reach.n <= |content|
    ensures var o, r := f.offset, ReadStep(ad, fmt, f, stamp, BodyOf(content, reach)).0;
      && o <= r.offset
      && ((!reach.Nowhere? ==> reach.n == |content|) && r.offset != o ==>
            var r' := fmt.read(content[o..]); r'.Some? && r.offset == o + r'.value.1)
  {
    if !reach.Nowhere? {
      assert Drop(content[..reach.n], f.offset) == content[f.offset..reach.n];
      assert reach.n == |content| ==> content[f.offset..reach.n] == content[f.offset..];
    }
  }

  // One event that does not take the offset back.
  lemma OffsetGrows(ad: Adapter, fmt: Format, content: Bytes, attach: nat, acct: Account, s: Outcome, e: Event)
    requires Reads(fmt, content, attach, acct) && Verdicts(ad, fmt, content, true)
    requires Inv(fmt, content, attach, acct, s) && Grows(s.length, e) && Length(0, e) <= |content|
    requires e.Forget? ==> Kept(ad, s.file, false)
    ensures var o, t := s.file.offset, After(ad, fmt, content, s, e);
      && o <= t.file.offset
      && (Length(s.length, e) == |content| && t.file.offset != o ==>
            var r := fmt.read(content[o..]); r.Some? && t.file.offset == o + r.value.1 && r.value.1 > 0)
  {
    if e.Poll? {
      var verdict := Decide(ad, fmt, s.file.owner, ViewOf(content, e).header);
      assert e.header.Some? ==> fmt.verdict(content[..e.header.value]) in {None, Some(true)};
      if verdict.Some? {
        var g := if ad.header.Some? then s.file.(owner := verdict) else s.file;
        ReadGrows(ad, fmt, g, Stamp(e.mtime, e.stat), content, e.reach);
      }
    }
  }

  // A read from a poised position leaves fewer rounds than it took.
  lemma PassesMark(fmt: Format, content: Bytes, o: nat, mark: nat, next: nat)
    requires Poised(fmt, content, o, mark) && o < next <= |content|
    requires var r := fmt.read(content[o..]); r.Some? && next == o + r.value.1
    ensures Rounds(fmt, |content| - next) + 2 <= Toward(fmt, content, mark)
  {
    RoundsFall(fmt, |content| - next, |content| - mark - 1);
  }

  lemma ReadyByPoll(ad: Adapter, fmt: Format, content: Bytes, attach: nat, acct: Account, s: Outcome, e: Event,
                    need: nat)
    requires Reads(fmt, content, attach, acct) && Verdicts(ad, fmt, content, true)
    requires Inv(fmt, content, attach, acct, s) && Complete(content, e) && fmt.verdict(content) == Some(true)
    requires need > 0 && Ready(fmt, content, s, need)
    ensures Ready(fmt, content, After(ad, fmt, content, s, e), need - 1)
  {
    var o, t := s.file.offset, After(ad, fmt, content, s, e);
    CompletePoll(ad, fmt, content, attach, acct, s, e);
    OffsetGrows(ad, fmt, content, attach, acct, s, e);
    ReadOnce(fmt, content, s, t, need);
  }

  lemma ReadOnce(fmt: Format, content: Bytes, s: Outcome, t: Outcome, need: nat)
    requires need > 0 && Ready(fmt, content, s, need)
    requires s.file.offset <= t.file.offset <= t.length == |content|
    requires t.file.offset != s.file.offset ==>
               var r := fmt.read(content[s.file.offset..]); r.Some? && t.file.offset == s.file.offset + r.value.1
    requires Quiet(fmt, content[t.file.offset..]) ||
             (fmt.capped && |content| - s.file.offset > TAIL_BYTES && t.file.offset > s.file.offset &&
              Poised(fmt, content, t.file.offset, s.file.offset + TAIL_BYTES))
    ensures Ready(fmt, content, t, need - 1)
  {
    var o := s.file.offset;
    if Quiet(fmt, content[t.file.offset..]) {
      assert Toward(fmt, content, |content|) == 0 && Poised(fmt, content, t.file.offset, |content|);
    } else if need > Rounds(fmt, |content| - o) {
      assert Toward(fmt, content, o + TAIL_BYTES) <= need - 1;
    } else {
      var mark :| Toward(fmt, content, mark) <= need && Poised(fmt, content, o, mark);
      PassesMark(fmt, content, o, mark, t.file.offset);
    }
  }

  lemma StaysReady(ad: Adapter, fmt: Format, content: Bytes, attach: nat, acct: Account, s: Outcome, e: Event,
                   need: nat)
    requires Reads(fmt, content, attach, acct) && Verdicts(ad, fmt, content, true)
    requires Inv(fmt, content, attach, acct, s) && Grows(s.length, e) && Length(0, e) <= |content|
    requires e.Forget? ==> Kept(ad, s.file, false)
    requires Ready(fmt, content, s, need)
    ensures Ready(fmt, content, After(ad, fmt, content, s, e), need)
  {
    StepInv(ad, fmt, content, attach, acct, s, e);
    OffsetGrows(ad, fmt, content, attach, acct, s, e);
    NotBack(fmt, content, s, After(ad, fmt, content, s, e), need);
  }

  lemma NotBack(fmt: Format, content: Bytes, s: Outcome, t: Outcome, need: nat)
    requires Ready(fmt, content, s, need)
    requires s.file.offset <= t.file.offset <= t.length <= |content| && s.length <= t.length
    requires t.length == |content| && t.file.offset != s.file.offset ==>
               var r := fmt.read(content[s.file.offset..]); r.Some? && t.file.offset == s.file.offset + r.value.1
    ensures Ready(fmt, content, t, need)
  {
    var o := s.file.offset;
    if need > Rounds(fmt, |content| - o) {
      RoundsFall(fmt, |content| - t.file.offset, |content| - o);
    } else {
      var mark :| Toward(fmt, content, mark) <= need && Poised(fmt, content, o, mark);
      if t.file.offset != o {
        PassesMark(fmt, content, o, mark, t.file.offset);
      }
    }
  }

  lemma NoneNeeded(fmt: Format, content: Bytes, s: Outcome)
    requires Ready(fmt, content, s, 0) && Settles(fmt, content[s.file.offset..])
    ensures Quiet(fmt, content[s.file.offset..]) && s.length == |content|
  {
  }

  // Enough complete polls drain any backlog, however small the window and
  // whatever comes between them, as long as nothing forgets the file.
  lemma {:induction false} Drains(ad: Adapter, fmt: Format, content: Bytes, attach: nat, acct: Account,
                                  s: Outcome, events: seq<Event>)
    requires Reads(fmt, content, attach, acct) && Verdicts(ad, fmt, content, true)
    requires Inv(fmt, content, attach, acct, s) && fmt.verdict(content) == Some(true)
    requires AppendOnly(s.length, events, |content|) && Spares(ad, fmt, content, s, events)
    requires Ready(fmt, content, s, Completes(content, events))
    ensures var t := Run(ad, fmt, content, s, events);
      && Inv(fmt, content, attach, acct, t) && Quiet(fmt, content[t.file.offset..]) && t.length == |content|
    decreases |events|
  {
    if events != [] {
      FinalBounds(s.length, events, |content|);
      var e := events[0];
      StepInv(ad, fmt, content, attach, acct, s, e);
      if Complete(content, e) {
        ReadyByPoll(ad, fmt, content, attach, acct, s, e, Completes(content, events));
      } else {
        StaysReady(ad, fmt, content, attach, acct, s, e, Completes(content, events));
      }
      Drains(ad, fmt, content, attach, acct, After(ad, fmt, content, s, e), events[1..]);
    } else {
      assert Settles(fmt, content[s.file.offset..]);
      NoneNeeded(fmt, content, s);
    }
  }

  // The state from which a run's last polls start.
  lemma RunKeepsInv(ad: Adapter, fmt: Format, content: Bytes, attach: nat, acct: Account,
                    pre: bool, base: Option<Values>, events: seq<Event>) returns (s: Outcome)
    requires attach <= |content| && Reads(fmt, content, attach, acct) && Verdicts(ad, fmt, content, true)
    requires AppendOnly(attach, events, |content|)
    requires attach == 0 || Spares(ad, fmt, content, Start(attach, pre, base), events)
    ensures s == Run(ad, fmt, content, Start(attach, pre, base), events)
    ensures Inv(fmt, content, attach, acct, s)
  {
    s := Run(ad, fmt, content, Start(attach, pre, base), events);
    StartInv(fmt, content, attach, acct, pre, base);
    RunInv(ad, fmt, content, attach, acct, Start(attach, pre, base), events);
  }

  // Everything a finished file holds has been read.
  ghost predicate Finished(fmt: Format, content: Bytes, acct: Account, t: Outcome) {
    t.file.offset <= |content| && acct(t.file.offset, t.counted) && Quiet(fmt, content[t.file.offset..])
  }

  // From any state of a run, a tail with enough complete polls finishes.
  lemma TailFinishes(ad: Adapter, fmt: Format, content: Bytes, attach: nat, acct: Account,
                     s: Outcome, tail: seq<Event>)
    requires Reads(fmt, content, attach, acct) && Verdicts(ad, fmt, content, true)
    requires Inv(fmt, content, attach, acct, s) && fmt.verdict(content) == Some(true)
    requires AppendOnly(s.length, tail, |content|) && Spares(ad, fmt, content, s, tail)
    requires Completes(content, tail) > Rounds(fmt, |content| - attach)
    ensures var t := Run(ad, fmt, content, s, tail);
      && Finished(fmt, content, acct, t) && Inv(fmt, content, attach, acct, t) && t.length == |content|
  {
    RoundsFall(fmt, |content| - s.file.offset, |content| - attach);
    Drains(ad, fmt, content, attach, acct, s, tail);
  }

  lemma {:induction false} RunAppend(ad: Adapter, fmt: Format, content: Bytes, s: Outcome, a: seq<Event>, b: seq<Event>)
    requires AppendOnly(s.length, a + b, |content|) && AppendOnly(s.length, a, |content|)
    ensures AppendOnly(Run(ad, fmt, content, s, a).length, b, |content|)
    ensures Run(ad, fmt, content, s, a + b) == Run(ad, fmt, content, Run(ad, fmt, content, s, a), b)
    decreases |a|
  {
    if a == [] {
      assert a + b == b;
    } else {
      TailOfAppend(a, b);
      FinalBounds(s.length, a, |content|);
      RunAppend(ad, fmt, content, After(ad, fmt, content, s, a[0]), a[1..], b);
    }
  }

  // No event takes a counted record back.
  lemma {:induction false} CountedGrows(ad: Adapter, fmt: Format, content: Bytes, s: Outcome, events: seq<Event>)
    requires AppendOnly(s.length, events, |content|)
    ensures s.counted <= Run(ad, fmt, content, s, events).counted
    decreases |events|
  {
    if events != [] {
      FinalBounds(s.length, events, |content|);
      CountedGrows(ad, fmt, content, After(ad, fmt, content, s, events[0]), events[1..]);
    }
  }

  // n undisturbed polls of the finished file.
  function Polls(content: Bytes, n: nat): (polls: seq<Event>)
    ensures forall e :: e in polls ==> Complete(content, e)
  {
    if n == 0 then [] else
      [Poll(0, |content|, Some(|content|), EndAt(|content|))] + Polls(content, n - 1)
  }

  lemma {:induction false} PollsComplete(content: Bytes, n: nat)
    ensures Completes(content, Polls(content, n)) == n
  {
    if n > 0 {
      PollsComplete(content, n - 1);
    }
  }

  lemma {:induction false} PollsSpare(ad: Adapter, fmt: Format, content: Bytes, s: Outcome, polls: seq<Event>)
    requires AppendOnly(s.length, polls, |content|) && forall e :: e in polls ==> !e.Forget?
    ensures Spares(ad, fmt, content, s, polls)
    decreases |polls|
  {
    if polls != [] {
      FinalBounds(s.length, polls, |content|);
      assert polls[0] in polls;
      PollsSpare(ad, fmt, content, After(ad, fmt, content, s, polls[0]), polls[1..]);
    }
  }

  // Any state of a run can still be finished, on top of what it has counted.
  lemma CanFinish(ad: Adapter, fmt: Format, content: Bytes, attach: nat, acct: Account, u: Outcome)
    returns (v: Outcome)
    requires Reads(fmt, content, attach, acct) && Verdicts(ad, fmt, content, true)
    requires Inv(fmt, content, attach, acct, u) && fmt.verdict(content) == Some(true)
    ensures Finished(fmt, content, acct, v) && u.counted <= v.counted
  {
    var n := Rounds(fmt, |content| - attach) + 1;
    var polls := Polls(content, n);
    CompleteIsAppendOnly(content, u.length, polls);
    PollsSpare(ad, fmt, content, u, polls);
    PollsComplete(content, n);
    TailFinishes(ad, fmt, content, attach, acct, u, polls);
    CountedGrows(ad, fmt, content, u, polls);
    v := Run(ad, fmt, content, u, polls);
  }

  // The offset lies within the file, so no later poll takes it for shrunk.
  lemma StepWithin(ad: Adapter, fmt: Format, content: Bytes, s: Outcome, e: Event)
    requires (forall src :: Settles(fmt, src)) && s.file.offset <= s.length
    requires Grows(s.length, e) && Length(0, e) <= |content|
    ensures var t := After(ad, fmt, content, s, e);
      && t.file.offset <= t.length
      && (s.file.owner == Some(true) && !e.Forget? ==> t.file.owner == Some(true))
  {
    if e.Poll? && !e.reach.Nowhere? {
      assert Settles(fmt, Drop(content[..e.reach.n], s.file.offset));
    }
  }

  // forgetIdle spares a file for good once it spares it: a file with counts,
  // one known to be ours, and, without session headers, one that predates the
  // watch. Any other file the next pass that misses it forgets.
  lemma {:induction false} KeptForGood(ad: Adapter, fmt: Format, content: Bytes, s: Outcome, events: seq<Event>)
    requires (forall src :: Settles(fmt, src)) && s.file.offset <= s.length
    requires AppendOnly(s.length, events, |content|) && Kept(ad, s.file, false)
    ensures Spares(ad, fmt, content, s, events) && Kept(ad, Run(ad, fmt, content, s, events).file, false)
    decreases |events|
  {
    if events != [] {
      FinalBounds(s.length, events, |content|);
      var e := events[0];
      StepWithin(ad, fmt, content, s, e);
      if !e.Forget? {
        StepTallies(ad, fmt, s.file, ViewOf(content, e));
        StepGrows(ad, fmt, s.file, ViewOf(content, e));
      }
      KeptForGood(ad, fmt, content, After(ad, fmt, content, s, e), events[1..]);
    }
  }

  // A stamped file has its verdict.
  predicate Sealed(ad: Adapter, s: Outcome) {
    && s.file.offset <= s.length
    && (ad.header.Some? && s.file.stamp != UNSTAMPED ==> s.file.owner.Some?)
  }

  lemma StepSeals(ad: Adapter, fmt: Format, content: Bytes, s: Outcome, e: Event)
    requires (forall src :: Settles(fmt, src)) && Sealed(ad, s)
    requires Grows(s.length, e) && Length(0, e) <= |content|
    ensures Sealed(ad, After(ad, fmt, content, s, e))
  {
    StepWithin(ad, fmt, content, s, e);
  }

  lemma {:induction false} RunSeals(ad: Adapter, fmt: Format, content: Bytes, s: Outcome, events: seq<Event>)
    requires (forall src :: Settles(fmt, src)) && Sealed(ad, s) && AppendOnly(s.length, events, |content|)
    ensures Sealed(ad, Run(ad, fmt, content, s, events))
    decreases |events|
  {
    if events != [] {
      FinalBounds(s.length, events, |content|);
      StepSeals(ad, fmt, content, s, events[0]);
      RunSeals(ad, fmt, content, After(ad, fmt, content, s, events[0]), events[1..]);
    }
  }

  // What a file needs besides a complete poll to be spared from then on.
  predicate Keepable(ad: Adapter, fmt: Format, f: FileState) {
    if ad.header.Some? then fmt.verdict([]) == None else f.pre
  }

  lemma CompletePollKeeps(ad: Adapter, fmt: Format, content: Bytes, s: Outcome, e: Event)
    requires Verdicts(ad, fmt, content, true) && fmt.verdict(content) == Some(true)
    requires Sealed(ad, s) && s.file.owner in {None, Some(true)} && s.length <= |content|
    requires Keepable(ad, fmt, s.file) && Complete(content, e)
    ensures Kept(ad, After(ad, fmt, content, s, e).file, false)
  {
    assert content[..|content|] == content;
    StepTallies(ad, fmt, s.file, ViewOf(content, e));
  }

  // After a tail that saw the finished file, forgetting is over.
  lemma {:induction false} TailKeeps(ad: Adapter, fmt: Format, content: Bytes, attach: nat, acct: Account,
                                     s: Outcome, tail: seq<Event>)
    requires Reads(fmt, content, attach, acct) && Verdicts(ad, fmt, content, true)
    requires Inv(fmt, content, attach, acct, s) && fmt.verdict(content) == Some(true) && Sealed(ad, s)
    requires AppendOnly(s.length, tail, |content|) && Spares(ad, fmt, content, s, tail)
    requires Keepable(ad, fmt, s.file) && Completes(content, tail) > 0
    ensures Kept(ad, Run(ad, fmt, content, s, tail).file, false)
    decreases |tail|
  {
    FinalBounds(s.length, tail, |content|);
    var e := tail[0];
    var t := After(ad, fmt, content, s, e);
    StepInv(ad, fmt, content, attach, acct, s, e);
    if Complete(content, e) {
      CompletePollKeeps(ad, fmt, content, s, e);
      KeptForGood(ad, fmt, content, t, tail[1..]);
    } else {
      StepSeals(ad, fmt, content, s, e);
      if !e.Forget? {
        StepTallies(ad, fmt, s.file, ViewOf(content, e));
      }
      TailKeeps(ad, fmt, content, attach, acct, t, tail[1..]);
    }
  }

  // A file as a watcher meets it that never heard of it, n bytes long.
  function Afresh(n: nat): Outcome {
    Outcome(UNKNOWN, [], n)
  }

  // Whatever was counted has left an entry in the counting maps.
  predicate Noted(s: Outcome) {
    s.counted != [] ==> s.file.tally.seen.Some?
  }

  lemma StepNotes(ad: Adapter, fmt: Format, content: Bytes, s: Outcome, e: Event)
    requires Length(0, e) <= |content| && Noted(s)
    ensures Noted(After(ad, fmt, content, s, e))
  {
    if !e.Forget? {
      StepTallies(ad, fmt, s.file, ViewOf(content, e));
      FoldGrows(ad.kind, s.file.pre, s.file.tally, Step(ad, fmt, s.file, ViewOf(content, e)).1);
    }
  }

  // A run that forgets the file ends as if watching had begun at that moment.
  lemma {:induction false} UnsparedRenews(ad: Adapter, fmt: Format, content: Bytes, s: Outcome, events: seq<Event>)
    returns (n: nat, rest: seq<Event>)
    requires AppendOnly(s.length, events, |content|) && Noted(s)
    requires !Spares(ad, fmt, content, s, events)
    ensures AppendOnly(n, rest, |content|)
    ensures Run(ad, fmt, content, s, events) == Run(ad, fmt, content, Afresh(n), rest)
    decreases |events|
  {
    FinalBounds(s.length, events, |content|);
    var t := After(ad, fmt, content, s, events[0]);
    if events[0].Forget? && !Kept(ad, s.file, false) {
      n, rest := s.length, events[1..];
    } else {
      StepNotes(ad, fmt, content, s, events[0]);
      n, rest := UnsparedRenews(ad, fmt, content, t, events[1..]);
    }
  }

  lemma AfreshInv(fmt: Format, content: Bytes, acct: Account, n: nat)
    requires n <= |content| && Reads(fmt, content, 0, acct)
    ensures Inv(fmt, content, 0, acct, Afresh(n))
  {
    assert content[0..0] == [];
  }

  // Refused: everything so far is passed over.
  predicate Refused(s: Outcome) {
    s.file.owner == Some(false) && s.file.offset <= s.length && s.file.tally.seen.None? && s.counted == []
  }

  // A refusal is final for as long as it is remembered.
  lemma {:induction false} RefusalLasts(ad: Adapter, fmt: Format, content: Bytes, s: Outcome, events: seq<Event>)
    requires ad.header.Some? && AppendOnly(s.length, events, |content|)
    requires Refused(s) && forall e :: e in events ==> !e.Forget?
    ensures Refused(Run(ad, fmt, content, s, events))
    decreases |events|
  {
    if events != [] {
      FinalBounds(s.length, events, |content|);
      assert events[0] in events;
      RefusalLasts(ad, fmt, content, After(ad, fmt, content, s, events[0]), events[1..]);
    }
  }

  // One forgetting pass drops it, and the offset with it.
  lemma RefusalForgotten(ad: Adapter, fmt: Format, content: Bytes, s: Outcome)
    requires ad.header.Some? && Refused(s)
    ensures After(ad, fmt, content, s, Forget) == Afresh(s.length)
  {
  }

  // The counts a run leaves are those of the records it counted: nothing is
  // lost between reading a record and reporting it, even across forgetting.
  ghost predicate Tallied(s: Outcome) {
    && (forall f :: Get(s.file.tally.Seen(), f) as int == Min(Total(s.counted, f), MAX_INT))
    && s.file.tally.total as int == LargestTotal(s.counted)
    && (s.file.tally.seen.None? ==> s.counted == [])
  }

  lemma {:induction false} TotalAppend(a: seq<Values>, b: seq<Values>, f: Field)
    ensures Total(a + b, f) == Total(a, f) + Total(b, f)
    ensures LargestTotal(a + b) == Max(LargestTotal(a), LargestTotal(b))
  {
    if a == [] {
      assert a + b == b;
    } else {
      TailOfAppend(a, b);
      TotalAppend(a[1..], b, f);
    }
  }

  lemma TallyStep(ad: Adapter, fmt: Format, content: Bytes, s: Outcome, e: Event)
    requires ad.kind == PerMessage && Length(0, e) <= |content| && Tallied(s)
    ensures Tallied(After(ad, fmt, content, s, e))
  {
    if !e.Forget? {
      var (g, recs) := Step(ad, fmt, s.file, ViewOf(content, e));
      StepTallies(ad, fmt, s.file, ViewOf(content, e));
      FoldGrows(ad.kind, s.file.pre, s.file.tally, recs);
      forall f
        ensures Get(g.tally.Seen(), f) as int == Min(Total(s.counted + recs, f), MAX_INT)
      {
        PerMessageSums(s.file.pre, s.file.tally, recs, f);
        TotalAppend(s.counted, recs, f);
      }
      assert g.tally.total as int == LargestTotal(s.counted + recs) by {
        PerMessageSums(s.file.pre, s.file.tally, recs, Output);
        TotalAppend(s.counted, recs, Output);
      }
    }
  }

  lemma {:induction false} RunTallied(ad: Adapter, fmt: Format, content: Bytes, s: Outcome, events: seq<Event>)
    requires ad.kind == PerMessage && Tallied(s) && AppendOnly(s.length, events, |content|)
    ensures Tallied(Run(ad, fmt, content, s, events))
    decreases |events|
  {
    if events != [] {
      FinalBounds(s.length, events, |content|);
      TallyStep(ad, fmt, content, s, events[0]);
      RunTallied(ad, fmt, content, After(ad, fmt, content, s, events[0]), events[1..]);
    }
  }
}
