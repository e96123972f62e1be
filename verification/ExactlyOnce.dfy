// The main results of the tailer: every schedule of polls counts what one batch
// read of the bytes after attach would, for line transcripts and for
// compressed ones.
module ExactlyOnce {
  import opened Base
  import opened Counters
  import opened Lines
  import opened Reader
  import opened Frames
  import opened Zstd
  import opened DshReader
  import opened Tail
  import opened Torn
  import opened Runs
  import Owner

  // For lines: the whole lines up to o, and perhaps an early fragment.
  ghost function LineAccount(ad: Adapter, size: Positive, content: Bytes, attach: nat): Account
    requires attach <= |content|
  {
    (o: nat, counted: seq<Values>) =>
      attach <= o <= |content| && Committed(ad, size, content[attach..o], counted)
  }

  // For frames: the walk from attach ends at o, and its text is counted.
  ghost function FrameAccount(ad: Adapter, fr: Framing, content: Bytes, attach: nat): Account {
    (o: nat, counted: seq<Values>) =>
      attach <= o <= |content| && Walked(ad, fr, content, attach, o, counted)
  }

  ghost predicate Walked(ad: Adapter, fr: Framing, content: Bytes, attach: nat, o: nat, counted: seq<Values>)
    requires attach <= o <= |content|
  {
    var w := Walk(fr, content[..o], attach);
    w.end == o && counted == TextRecords(ad, w.plain)
  }

  lemma LinesAdvance(ad: Adapter, size: Positive, content: Bytes, attach: nat, o: nat, m: nat, counted: seq<Values>)
    requires attach <= o <= m <= |content| && Orderly(ad, size, content[attach..])
    requires Committed(ad, size, content[attach..o], counted)
    ensures var r := Consumed(ad, size, content[o..m]);
      o + r.1 <= m && Committed(ad, size, content[attach..o + r.1], counted + r.0)
  {
    Advance(ad, size, content, attach, o, content[o..m], counted);
  }

  lemma LinesCarryOn(ad: Adapter, size: Positive, content: Bytes, attach: nat, o: nat, m: nat, counted: seq<Values>)
    requires attach <= |content| && Orderly(ad, size, content[attach..])
    ensures CarriesOn(PlainFormat(ad, size), content, LineAccount(ad, size, content, attach), o, m, counted)
  {
    var fmt, acct := PlainFormat(ad, size), LineAccount(ad, size, content, attach);
    if o <= m <= |content| && acct(o, counted) {
      LinesAdvance(ad, size, content, attach, o, m, counted);
      CarriesOnBy(fmt, content, acct, o, m, counted, fmt.read(content[o..m]));
    } else {
      NothingToCarry(fmt, content, acct, o, m, counted);
    }
  }

  lemma LinesSettle(ad: Adapter, size: Positive, src: Bytes)
    ensures Settles(PlainFormat(ad, size), src)
  {
    ReadTwice(ad, size, src);
    if Consumed(ad, size, src).1 == 0 {
      assert src[0..] == src;
    }
  }

  lemma LinesStride(ad: Adapter, size: Positive, src: Bytes)
    ensures Strides(PlainFormat(ad, size), src)
  {
    ReadTwice(ad, size, src);
  }

  lemma NothingCommitted(ad: Adapter, size: Positive)
    ensures Committed(ad, size, [], [])
  {
    NoNewline([]);
  }

  lemma LinesRead(ad: Adapter, size: Positive, content: Bytes, attach: nat)
    requires attach <= |content| && Orderly(ad, size, content[attach..])
    ensures Reads(PlainFormat(ad, size), content, attach, LineAccount(ad, size, content, attach))
  {
    var fmt, acct := PlainFormat(ad, size), LineAccount(ad, size, content, attach);
    assert acct(attach, []) by {
      assert content[attach..attach] == [];
      NothingCommitted(ad, size);
    }
    forall o: nat, m: nat, counted: seq<Values>
      ensures CarriesOn(fmt, content, acct, o, m, counted)
    {
      LinesCarryOn(ad, size, content, attach, o, m, counted);
    }
    forall src: Bytes
      ensures Settles(fmt, src) && Strides(fmt, src)
    {
      LinesSettle(ad, size, src);
      LinesStride(ad, size, src);
    }
    NothingInRest(ad, size, []);
  }

  // The walk up to o and the walk of a window from o make one walk.
  lemma WalksJoin(fr: Framing, cap: nat, content: Bytes, attach: nat, o: nat, win: Bytes)
    requires PrefixCode(fr, cap) && attach <= o && o + |win| <= |content| && win == content[o..o + |win|]
    requires Walk(fr, content[..o], attach).end == o
    ensures var w := Walk(fr, win, 0);
      Walk(fr, content[..o + w.end], attach) ==
        Frames.Walked(Walk(fr, content[..o], attach).plain + w.plain, o + w.end, false)
  {
    var k := Walk(fr, win, 0).end;
    WindowWithin(content, o, win, k);
    WalkOfConsumed(fr, cap, win, 0);
    WalkOfBoth(fr, cap, content[..o], content[..o + k], attach);
  }

  lemma WalkOfBoth(fr: Framing, cap: nat, before: Bytes, after: Bytes, attach: nat)
    requires PrefixCode(fr, cap) && before <= after && attach <= |before|
    requires Walk(fr, before, attach).end == |before|
    ensures var w := Walk(fr, after[|before|..], 0);
      Walk(fr, after, attach) ==
        Frames.Walked(Walk(fr, before, attach).plain + w.plain, |before| + w.end, w.failed)
  {
    WalkShift(fr, after, |before|, 0);
    WalkExtends(fr, cap, before, after, attach);
  }

  lemma WindowWithin(content: Bytes, o: nat, win: Bytes, k: nat)
    requires o + |win| <= |content| && win == content[o..o + |win|] && k <= |win|
    ensures content[..o + k][o..] == win[..k] && content[..o] <= content[..o + k]
  {
  }

  lemma FramesJoin(ad: Adapter, fr: Framing, cap: nat, content: Bytes, attach: nat, o: nat, win: Bytes,
                   counted: seq<Values>)
    requires PrefixCode(fr, cap) && attach <= o && o + |win| <= |content| && win == content[o..o + |win|]
    requires ClosedFrames(fr, content, attach) && Walked(ad, fr, content, attach, o, counted)
    ensures var w := Walk(fr, win, 0);
      Walked(ad, fr, content, attach, o + w.end, counted + TextRecords(ad, w.plain))
  {
    WalksJoin(fr, cap, content, attach, o, win);
    ClosedPrefix(fr, cap, content[..o], content, attach);
    ClosedWalk(fr, content[..o], attach);
    TextAppend(ad, Walk(fr, content[..o], attach).plain, Walk(fr, win, 0).plain);
  }

  lemma WindowSlice(content: Bytes, o: nat, m: nat)
    requires o <= m <= |content|
    ensures var win := Window(content[o..m]); o + |win| <= m && win == content[o..o + |win|]
  {
  }

  lemma FramesAdvance(ad: Adapter, fr: Framing, cap: nat, content: Bytes, attach: nat, o: nat, m: nat,
                      counted: seq<Values>)
    requires PrefixCode(fr, cap) && attach <= o <= m <= |content| && ClosedFrames(fr, content, attach)
    requires Walked(ad, fr, content, attach, o, counted)
    ensures var r := ConsumedFrames(ad, fr, content[o..m]);
      r.Some? ==> o + r.value.1 <= m && Walked(ad, fr, content, attach, o + r.value.1, counted + r.value.0)
  {
    WindowSlice(content, o, m);
    FramesJoin(ad, fr, cap, content, attach, o, Window(content[o..m]), counted);
  }

  // Reading frames on from an accounted position reaches an accounted one.
  ghost predicate FramesStep(ad: Adapter, fr: Framing, content: Bytes, acct: Account, o: nat, m: nat,
                             counted: seq<Values>)
  {
    o <= m <= |content| && acct(o, counted) ==>
      var r := ConsumedFrames(ad, fr, content[o..m]);
      r.Some? ==> o + r.value.1 <= m && acct(o + r.value.1, counted + r.value.0)
  }

  lemma AccountAdvances(ad: Adapter, fr: Framing, cap: nat, content: Bytes, attach: nat, o: nat, m: nat,
                        counted: seq<Values>)
    requires PrefixCode(fr, cap) && attach <= |content| && ClosedFrames(fr, content, attach)
    ensures FramesStep(ad, fr, content, FrameAccount(ad, fr, content, attach), o, m, counted)
  {
    if o <= m <= |content| && FrameAccount(ad, fr, content, attach)(o, counted) {
      FramesAdvance(ad, fr, cap, content, attach, o, m, counted);
    }
  }

  lemma StepCarriesOn(ad: Adapter, fmt: Format, fr: Framing, content: Bytes, acct: Account, o: nat, m: nat,
                      counted: seq<Values>)
    requires FramesStep(ad, fr, content, acct, o, m, counted)
    requires o <= m <= |content| ==> fmt.read(content[o..m]) == ConsumedFrames(ad, fr, content[o..m])
    ensures CarriesOn(fmt, content, acct, o, m, counted)
  {
  }

  lemma NothingToCarry(fmt: Format, content: Bytes, acct: Account, o: nat, m: nat, counted: seq<Values>)
    requires !(o <= m <= |content| && acct(o, counted))
    ensures CarriesOn(fmt, content, acct, o, m, counted)
  {
  }

  lemma CarriesOnBy(fmt: Format, content: Bytes, acct: Account, o: nat, m: nat, counted: seq<Values>,
                    r: Option<(seq<Values>, nat)>)
    requires o <= m <= |content| && fmt.read(content[o..m]) == r
    requires r.Some? ==> o + r.value.1 <= m && acct(o + r.value.1, counted + r.value.0)
    ensures CarriesOn(fmt, content, acct, o, m, counted)
  {
  }

  lemma FramesCarryOn(ad: Adapter, codec: Codec, content: Bytes, attach: nat, o: nat, m: nat, counted: seq<Values>)
    requires SelfContained(codec) && attach <= |content| && ClosedFrames(FramingOf(codec), content, attach)
    ensures CarriesOn(ZstdFormat(ad, codec), content, FrameAccount(ad, FramingOf(codec), content, attach),
                      o, m, counted)
  {
    var fr := FramingOf(codec);
    FramingIsPrefixCode(codec);
    AccountAdvances(ad, fr, MAX_FRAME_BYTES, content, attach, o, m, counted);
    StepCarriesOn(ad, ZstdFormat(ad, codec), fr, content, FrameAccount(ad, fr, content, attach), o, m, counted);
  }

  lemma NoText(ad: Adapter)
    ensures TextRecords(ad, []) == []
  {
    assert Pieces([]) == [[]];
    EmptyPiece(ad, []);
  }

  lemma FramesSettle(ad: Adapter, codec: Codec, src: Bytes)
    requires SelfContained(codec)
    ensures Settles(ZstdFormat(ad, codec), src)
  {
    NoText(ad);
    WalkSettles(FramingOf(codec), Window(src));
    WalkSettles(FramingOf(codec), src);
  }

  lemma WalkSettles(fr: Framing, src: Bytes)
    ensures var w := Walk(fr, src, 0);
      && (w.end == 0 ==> w.plain == [])
      && Walk(fr, src[w.end..], 0) == Frames.Walked([], 0, w.failed)
  {
    var w := Walk(fr, src, 0);
    WalkIsDone(fr, src, 0);
    WalkShift(fr, src, w.end, 0);
  }

  // A limited read stops at a frame its window does not hold, so the next one
  // reaches past that window, or finds no frame it can decode.
  lemma FramesStride(ad: Adapter, codec: Codec, src: Bytes)
    requires SelfContained(codec)
    ensures Strides(ZstdFormat(ad, codec), src)
  {
    var fr := FramingOf(codec);
    NoText(ad);
    FramingIsPrefixCode(codec);
    NextFrameIsBeyond(fr, src, Walk(fr, Window(src), 0).end);
  }

  lemma NextFrameIsBeyond(fr: Framing, src: Bytes, k: nat)
    requires PrefixCode(fr, MAX_FRAME_BYTES) && k == Walk(fr, Window(src), 0).end
    ensures var w := Walk(fr, Window(src[k..]), 0);
      (w.end == 0 && w.plain == []) || k + w.end > TAIL_BYTES
  {
    var win, next := Window(src), Window(src[k..]);
    WalkIsDone(fr, win, 0);
    SameFront(fr, src, k);
  }

  // A frame that fits the window is there already.
  lemma SameFront(fr: Framing, src: Bytes, k: nat)
    requires PrefixCode(fr, MAX_FRAME_BYTES) && k <= |Window(src)|
    ensures var win, next := Window(src), Window(src[k..]);
      var n := Front(fr, next, 0);
      n > 0 && k + n <= TAIL_BYTES ==> k + n <= |win| && Front(fr, win, k) == n && win[k..k + n] == next[0..n]
  {
    var win, next := Window(src), Window(src[k..]);
    var n := Front(fr, next, 0);
    if n > 0 && k + n <= TAIL_BYTES {
      assert FrameDecides(fr, MAX_FRAME_BYTES, next[0..], win[k..]);
      FrameInBoth(src, k, n);
    }
  }

  lemma FrameInBoth(src: Bytes, k: nat, n: nat)
    requires k <= |Window(src)| && k + n <= TAIL_BYTES && n <= |Window(src[k..])|
    ensures var win, next := Window(src), Window(src[k..]);
      && k + n <= |win| && Agree(next[0..], win[k..], n) && next[0..n] == win[k..k + n]
  {
  }

  lemma FramesRead(ad: Adapter, codec: Codec, content: Bytes, attach: nat)
    requires SelfContained(codec) && attach <= |content| && ClosedFrames(FramingOf(codec), content, attach)
    ensures Reads(ZstdFormat(ad, codec), content, attach, FrameAccount(ad, FramingOf(codec), content, attach))
  {
    var fr := FramingOf(codec);
    var fmt, acct := ZstdFormat(ad, codec), FrameAccount(ad, fr, content, attach);
    NoText(ad);
    assert acct(attach, []) by {
      FramingIsPrefixCode(codec);
      NothingAtEnd(fr, MAX_FRAME_BYTES, content[..attach]);
    }
    forall o: nat, m: nat, counted: seq<Values>
      ensures CarriesOn(fmt, content, acct, o, m, counted)
    {
      FramesCarryOn(ad, codec, content, attach, o, m, counted);
    }
    forall src: Bytes
      ensures Settles(fmt, src) && Strides(fmt, src)
    {
      FramesSettle(ad, codec, src);
      FramesStride(ad, codec, src);
    }
    FramingIsPrefixCode(codec);
    NothingAtEnd(fr, MAX_FRAME_BYTES, []);
  }

  lemma NothingAtEnd(fr: Framing, cap: nat, src: Bytes)
    requires PrefixCode(fr, cap)
    ensures Walk(fr, src, |src|) == Frames.Walked([], |src|, false)
  {
    assert FrameDecides(fr, cap, src[|src|..], src[|src|..]);
  }

  // A file of ours, polled on any schedule of which the last poll sees the
  // finished file, whose last line is newline-terminated: the records counted
  // are exactly those of one batch read of the bytes after attach. None is
  // lost, none doubled, torn and unterminated lines included.
  lemma LineTranscriptsCountOnce(ad: Adapter, size: Positive, content: Bytes, attach: nat,
                                 pre: bool, base: Option<Values>, events: seq<Event>, last: Event)
    requires attach <= |content| && Orderly(ad, size, content[attach..]) && Rest(content[attach..]) == []
    requires var fmt := PlainFormat(ad, size);
      && Verdicts(ad, fmt, content, true) && fmt.verdict(content) == Some(true)
      && AppendOnly(attach, events, |content|) && Complete(content, last)
      && (attach == 0 || Spares(ad, fmt, content, Start(attach, pre, base), events))
    ensures var fmt := PlainFormat(ad, size);
      var s := Run(ad, fmt, content, Start(attach, pre, base), events);
      After(ad, fmt, content, s, last).counted == Batch(ad, content[attach..])
  {
    var fmt, acct := PlainFormat(ad, size), LineAccount(ad, size, content, attach);
    LinesRead(ad, size, content, attach);
    var s := RunKeepsInv(ad, fmt, content, attach, acct, pre, base, events);
    CompletePoll(ad, fmt, content, attach, acct, s, last);
    FinishedLines(ad, size, content, attach, After(ad, fmt, content, s, last));
  }

  // And so it stays, whatever comes: more polls, failed ones, forgetting.
  lemma LinesStay(ad: Adapter, size: Positive, content: Bytes, attach: nat, t: Outcome, rest: seq<Event>)
    requires attach <= |content| && Orderly(ad, size, content[attach..]) && Rest(content[attach..]) == []
    requires var fmt, acct := PlainFormat(ad, size), LineAccount(ad, size, content, attach);
      && Verdicts(ad, fmt, content, true) && fmt.verdict(content) == Some(true)
      && Inv(fmt, content, attach, acct, t) && t.counted == Batch(ad, content[attach..])
      && AppendOnly(t.length, rest, |content|) && (attach == 0 || Spares(ad, fmt, content, t, rest))
    ensures Run(ad, PlainFormat(ad, size), content, t, rest).counted == Batch(ad, content[attach..])
  {
    var fmt, acct := PlainFormat(ad, size), LineAccount(ad, size, content, attach);
    LinesRead(ad, size, content, attach);
    RunInv(ad, fmt, content, attach, acct, t, rest);
    CountedGrows(ad, fmt, content, t, rest);
    var v := CanFinish(ad, fmt, content, attach, acct, Run(ad, fmt, content, t, rest));
    FinishedLines(ad, size, content, attach, v);
  }

  // Terminated content with nothing left to read has been read to its end.
  lemma TerminatedIsDone(ad: Adapter, size: Positive, content: Bytes, attach: nat, o: nat, counted: seq<Values>)
    requires attach <= o <= |content| && Rest(content[attach..]) == []
    requires Committed(ad, size, content[attach..o], counted)
    requires Consumed(ad, size, content[o..]) == ([], 0)
    ensures counted == Batch(ad, content[attach..])
  {
    if o < |content| {
      assert content[attach..][o - attach..] == content[o..];
      LastByteEndsLine(content[attach..], o - attach);
      assert false;
    }
    assert content[attach..o] == content[attach..];
  }

  lemma FinishedLines(ad: Adapter, size: Positive, content: Bytes, attach: nat, t: Outcome)
    requires attach <= |content| && Rest(content[attach..]) == []
    requires Finished(PlainFormat(ad, size), content, LineAccount(ad, size, content, attach), t)
    ensures t.counted == Batch(ad, content[attach..])
  {
    TerminatedIsDone(ad, size, content, attach, t.file.offset, t.counted);
  }

  lemma LastByteEndsLine(whole: Bytes, i: nat)
    requires Rest(whole) == [] && i < |whole|
    ensures Rest(whole[i..]) == []
  {
    var p, s := whole[..i], whole[i..];
    SplitAt(whole, i);
    SplitAppend(p, s);
    RestIsSuffix(p);
    EndsInNewline(Rest(p), s);
  }

  lemma EndsInNewline(r: Bytes, s: Bytes)
    requires NEWLINE !in r && s != [] && Rest(r + s) == []
    ensures Rest(s) == []
  {
    if NextNewline(s) < |s| {
      OpenLine(r, s);
    } else {
      NoNewline(r + s);
    }
  }

  lemma QuietFramesAreDone(ad: Adapter, codec: Codec, content: Bytes, o: nat)
    requires SelfContained(codec) && o <= |content|
    requires Quiet(ZstdFormat(ad, codec), content[o..])
    ensures var w := Walk(FramingOf(codec), content, o); w.end == o && w.plain == []
  {
    var fr := FramingOf(codec);
    FramingIsPrefixCode(codec);
    NoFrameInQuiet(ad, fr, content[o..]);
    assert content[o..][0..] == content[o..];
    WalkShift(fr, content, o, 0);
  }

  lemma NoFrameInQuiet(ad: Adapter, fr: Framing, src: Bytes)
    requires PrefixCode(fr, MAX_FRAME_BYTES)
    requires var r := ConsumedFrames(ad, fr, src); r.None? || r.value == ([], 0)
    ensures Walk(fr, src, 0).end == 0 && Walk(fr, src, 0).plain == []
  {
    if Front(fr, src, 0) > 0 {
      assert FrameDecides(fr, MAX_FRAME_BYTES, src[0..], Window(src)[0..]);
      WindowHoldsFrame(src, Front(fr, src, 0));
    }
  }

  lemma WindowHoldsFrame(src: Bytes, n: nat)
    requires n <= |src| && n <= TAIL_BYTES
    ensures n <= |Window(src)| && Agree(src[0..], Window(src)[0..], n) && src[0..n] == Window(src)[0..n]
  {
  }

  // Compressed logs: whatever the schedule, once enough polls have seen the
  // finished file, whatever came between them, the records counted are those of
  // one decode of all complete frames after attach. One poll is enough for what
  // a window holds, and two more for every further window.
  lemma CompressedLogsCountOnce(ad: Adapter, codec: Codec, content: Bytes, attach: nat,
                                pre: bool, base: Option<Values>, events: seq<Event>, tail: seq<Event>)
    requires SelfContained(codec) && attach <= |content| && ClosedFrames(FramingOf(codec), content, attach)
    requires var fmt := ZstdFormat(ad, codec);
      && Verdicts(ad, fmt, content, true) && fmt.verdict(content) == Some(true)
      && AppendOnly(attach, events, |content|)
      && (attach == 0 || Spares(ad, fmt, content, Start(attach, pre, base), events))
      && var s := Run(ad, fmt, content, Start(attach, pre, base), events);
      AppendOnly(s.length, tail, |content|) && Spares(ad, fmt, content, s, tail)
    requires Completes(content, tail) > Rounds(ZstdFormat(ad, codec), |content| - attach)
    ensures var fmt := ZstdFormat(ad, codec);
      var s := Run(ad, fmt, content, Start(attach, pre, base), events);
      Run(ad, fmt, content, s, tail).counted == TextRecords(ad, Walk(FramingOf(codec), content, attach).plain)
  {
    var fmt, acct := ZstdFormat(ad, codec), FrameAccount(ad, FramingOf(codec), content, attach);
    FramesRead(ad, codec, content, attach);
    var s := RunKeepsInv(ad, fmt, content, attach, acct, pre, base, events);
    FramesFinish(ad, codec, content, attach, s, tail);
  }

  lemma FramesFinish(ad: Adapter, codec: Codec, content: Bytes, attach: nat, s: Outcome, tail: seq<Event>)
    requires SelfContained(codec) && attach <= |content| && ClosedFrames(FramingOf(codec), content, attach)
    requires var fmt, acct := ZstdFormat(ad, codec), FrameAccount(ad, FramingOf(codec), content, attach);
      && Verdicts(ad, fmt, content, true) && fmt.verdict(content) == Some(true)
      && Inv(fmt, content, attach, acct, s)
      && AppendOnly(s.length, tail, |content|) && Spares(ad, fmt, content, s, tail)
      && Completes(content, tail) > Rounds(fmt, |content| - attach)
    ensures var fmt, acct := ZstdFormat(ad, codec), FrameAccount(ad, FramingOf(codec), content, attach);
      var t := Run(ad, fmt, content, s, tail);
      && Inv(fmt, content, attach, acct, t)
      && t.counted == TextRecords(ad, Walk(FramingOf(codec), content, attach).plain)
  {
    var fmt, acct := ZstdFormat(ad, codec), FrameAccount(ad, FramingOf(codec), content, attach);
    FramesRead(ad, codec, content, attach);
    TailFinishes(ad, fmt, content, attach, acct, s, tail);
    FinishedFrames(ad, codec, content, attach, Run(ad, fmt, content, s, tail));
  }

  lemma FramesStay(ad: Adapter, codec: Codec, content: Bytes, attach: nat, t: Outcome, rest: seq<Event>)
    requires SelfContained(codec) && attach <= |content| && ClosedFrames(FramingOf(codec), content, attach)
    requires var fmt, acct := ZstdFormat(ad, codec), FrameAccount(ad, FramingOf(codec), content, attach);
      && Verdicts(ad, fmt, content, true) && fmt.verdict(content) == Some(true)
      && Inv(fmt, content, attach, acct, t)
      && t.counted == TextRecords(ad, Walk(FramingOf(codec), content, attach).plain)
      && AppendOnly(t.length, rest, |content|) && (attach == 0 || Spares(ad, fmt, content, t, rest))
    ensures Run(ad, ZstdFormat(ad, codec), content, t, rest).counted ==
            TextRecords(ad, Walk(FramingOf(codec), content, attach).plain)
  {
    var fmt, acct := ZstdFormat(ad, codec), FrameAccount(ad, FramingOf(codec), content, attach);
    FramesRead(ad, codec, content, attach);
    RunInv(ad, fmt, content, attach, acct, t, rest);
    CountedGrows(ad, fmt, content, t, rest);
    var v := CanFinish(ad, fmt, content, attach, acct, Run(ad, fmt, content, t, rest));
    FinishedFrames(ad, codec, content, attach, v);
  }

  lemma FinishedFrames(ad: Adapter, codec: Codec, content: Bytes, attach: nat, t: Outcome)
    requires SelfContained(codec) && attach <= |content|
    requires Finished(ZstdFormat(ad, codec), content, FrameAccount(ad, FramingOf(codec), content, attach), t)
    ensures t.counted == TextRecords(ad, Walk(FramingOf(codec), content, attach).plain)
  {
    var fr, o := FramingOf(codec), t.file.offset;
    QuietFramesAreDone(ad, codec, content, o);
    FramingIsPrefixCode(codec);
    WalkExtends(fr, MAX_FRAME_BYTES, content[..o], content, attach);
    PlusNothing(Walk(fr, content[..o], attach).plain);
  }

  lemma PlusNothing<T>(s: seq<T>)
    ensures s + [] == s
  {
  }

  // Which verdicts a line transcript can give, from where its header stands.
  lemma HeaderSettlesLines(ad: Adapter, size: Positive, content: Bytes, h: nat)
    requires ad.header.Some? && h < 19
    requires Owner.HeaderAt(ad.header.value, Owner.RawLines(content), h)
    ensures var fmt, cwd := PlainFormat(ad, size), ad.header.value(DropReturn(Owner.RawLines(content)[h])).value;
      fmt.verdict(content) == Some(ad.sameDir(cwd)) && Verdicts(ad, fmt, content, ad.sameDir(cwd))
  {
    var fmt := PlainFormat(ad, size);
    forall k: nat | k <= |content|
      ensures fmt.verdict(content[..k]) in {None, fmt.verdict(content)}
    {
      Owner.VerdictIsStable(ad.header.value, ad.sameDir, content, h, k);
    }
    Owner.VerdictIsStable(ad.header.value, ad.sameDir, content, h, 0);
  }

  lemma HeaderSettlesFrames(ad: Adapter, codec: Codec, content: Bytes)
    requires SelfContained(codec) && ad.header.Some?
    requires OpensWithHeader(ad.header.value, FramingOf(codec), content)
    requires ZstdFormat(ad, codec).verdict(content).Some?
    ensures var fmt := ZstdFormat(ad, codec); Verdicts(ad, fmt, content, fmt.verdict(content).value)
  {
    var fmt := ZstdFormat(ad, codec);
    forall k: nat | k <= |content|
      ensures fmt.verdict(content[..k]) in {None, fmt.verdict(content)}
    {
      if fmt.verdict(content[..k]).Some? {
        ZstdVerdictIsStable(ad, ad.header.value, codec, content[..k], content);
      }
    }
  }

  // The idle-skip cache over whole runs: a poll that finds the stamp unchanged
  // and reads the file all the same counts nothing and moves nothing.
  lemma EqualStampsHideNoLines(ad: Adapter, size: Positive, content: Bytes, attach: nat, pre: bool,
                               base: Option<Values>,
                               events: seq<Event>, e: Event, other: Stamp)
    requires attach <= |content| && Orderly(ad, size, content[attach..])
    requires var fmt := PlainFormat(ad, size);
      && Verdicts(ad, fmt, content, true) && AppendOnly(attach, events, |content|)
      && (attach == 0 || Spares(ad, fmt, content, Start(attach, pre, base), events))
    requires var s := Run(ad, PlainFormat(ad, size), content, Start(attach, pre, base), events);
      && e.Poll? && Runs.Grows(s.length, e) && Length(0, e) == e.stat <= |content|
      && s.file.stamp == Stamp(e.mtime, e.stat) && other != s.file.stamp
    ensures var fmt := PlainFormat(ad, size);
      var s := Run(ad, fmt, content, Start(attach, pre, base), events);
      var r := Step(ad, fmt, s.file.(stamp := other), ViewOf(content, e));
      r.1 == [] && r.0.offset == s.file.offset && r.0.tally == s.file.tally
  {
    var fmt, acct := PlainFormat(ad, size), LineAccount(ad, size, content, attach);
    LinesRead(ad, size, content, attach);
    var s := RunKeepsInv(ad, fmt, content, attach, acct, pre, base, events);
    SkipIsHarmless(ad, fmt, content, attach, acct, s, e, other);
  }

  // The same for compressed logs: a stamp is never set over unread frames.
  lemma EqualStampsHideNoFrames(ad: Adapter, codec: Codec, content: Bytes, attach: nat, pre: bool, base: Option<Values>,
                                events: seq<Event>, e: Event, other: Stamp)
    requires SelfContained(codec) && attach <= |content| && ClosedFrames(FramingOf(codec), content, attach)
    requires var fmt := ZstdFormat(ad, codec);
      && Verdicts(ad, fmt, content, true) && AppendOnly(attach, events, |content|)
      && (attach == 0 || Spares(ad, fmt, content, Start(attach, pre, base), events))
    requires var s := Run(ad, ZstdFormat(ad, codec), content, Start(attach, pre, base), events);
      && e.Poll? && Runs.Grows(s.length, e) && Length(0, e) == e.stat <= |content|
      && s.file.stamp == Stamp(e.mtime, e.stat) && other != s.file.stamp
    ensures var fmt := ZstdFormat(ad, codec);
      var s := Run(ad, fmt, content, Start(attach, pre, base), events);
      var r := Step(ad, fmt, s.file.(stamp := other), ViewOf(content, e));
      r.1 == [] && r.0.offset == s.file.offset && r.0.tally == s.file.tally
  {
    var fmt, acct := ZstdFormat(ad, codec), FrameAccount(ad, FramingOf(codec), content, attach);
    FramesRead(ad, codec, content, attach);
    var s := RunKeepsInv(ad, fmt, content, attach, acct, pre, base, events);
    SkipIsHarmless(ad, fmt, content, attach, acct, s, e, other);
  }
}
