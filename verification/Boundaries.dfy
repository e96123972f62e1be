// Where the tailer's guarantees end: for each hypothesis of ExactlyOnce.dfy
// that the code needs, what happens on the other side of it.
module Boundaries {
  import opened Base
  import opened Counters
  import opened Lines
  import opened Reader
  import opened Tail
  import opened Torn
  import opened Runs
  import opened ExactlyOnce
  import opened Figures
  import Owner

  // A record caught before its newline arrives is counted at once; the newline
  // that follows adds nothing. Where the reader's buffer does not divide the
  // cap, this agrees with the batch exactly when the newline still fits: a
  // terminated line counts it, a fragment does not (watch.go:1021 against
  // watch.go:1045).
  lemma CapCountsTheNewlineOnce(ad: Adapter, size: Positive, record: Bytes)
    requires NEWLINE !in record && FragmentCounts(ad, size, record)
    requires Collect(ad, DropReturn(record)) == Collect(ad, record) && ad.parse([]) == None
    ensures
      var early := Consumed(ad, size, record).0 + Consumed(ad, size, [NEWLINE]).0;
      early == Batch(ad, record + [NEWLINE]) <==> |record| < MAX_LINE_BYTES || Collect(ad, record) == []
    ensures |record| == MAX_LINE_BYTES ==> MAX_LINE_BYTES % size != 0
  {
    NoNewline(record);
    OneLine(ad, record);
    OneLine(ad, []);
    assert [] + [NEWLINE] == [NEWLINE];
  }

  // The program's own buffer divides the cap, so a fragment of exactly that
  // length fills it and waits: early and batch counting always agree.
  lemma EarlyCountIsTheBatch(ad: Adapter, record: Bytes)
    requires NEWLINE !in record && FragmentCounts(ad, APPEND_READER_BYTES, record)
    requires Collect(ad, DropReturn(record)) == Collect(ad, record) && ad.parse([]) == None
    ensures |record| < MAX_LINE_BYTES
    ensures Consumed(ad, APPEND_READER_BYTES, record).0 + Consumed(ad, APPEND_READER_BYTES, [NEWLINE]).0 ==
            Batch(ad, record + [NEWLINE])
  {
    FragmentFits(ad, APPEND_READER_BYTES, record);
    CapCountsTheNewlineOnce(ad, APPEND_READER_BYTES, record);
  }

  // A fragment that exactly fills the reader's buffer is left for later, and
  // then counted as a whole line: late, never lost.
  lemma FullBufferFragmentWaits(ad: Adapter, size: Positive, record: Bytes)
    requires NEWLINE !in record && |record| % size == 0
    ensures Consumed(ad, size, record) == ([], 0)
    ensures Consumed(ad, size, record + [NEWLINE]).0 == LineRecords(ad, record)
  {
    NoNewline(record);
    OneLine(ad, record);
  }

  // The header may stand on line nineteen at most. On the twentieth, a
  // poll that catches its line half-written refuses a file that is ours.
  ghost predicate HidesOnTwentieth(header: Bytes -> Option<string>, sameDir: string -> bool,
                                   lines: seq<Bytes>, last: Bytes, torn: Bytes)
  {
    && |lines| == 19
    && (forall l :: l in lines ==> NEWLINE !in l && |l| < 0x40_0000 && header(DropReturn(l)) == None)
    && NEWLINE !in last && |last| < 0x40_0000 && torn != [] && torn < last
    && header(DropReturn(torn)) == None
    && header(DropReturn(last)).Some? && sameDir(header(DropReturn(last)).value)
  }

  lemma TwentiethLineIsTooLate(header: Bytes -> Option<string>, sameDir: string -> bool,
                               lines: seq<Bytes>, last: Bytes, torn: Bytes, tail: Bytes)
    requires HidesOnTwentieth(header, sameDir, lines, last, torn)
    ensures Owner.Verdict(header, sameDir, Unlines(lines) + torn) == Some(false)
    ensures Owner.Verdict(header, sameDir, Unlines(lines) + (last + [NEWLINE] + tail)) == Some(true)
  {
    assert forall b :: b in torn ==> b in last;
    TornTwentieth(header, sameDir, lines, torn);
    RawOf(lines, last + [NEWLINE] + tail);
    LineThen(last, tail);
    ScanPast(header, lines, Owner.RawLines(last + [NEWLINE] + tail), 0);
  }

  lemma TornTwentieth(header: Bytes -> Option<string>, sameDir: string -> bool, lines: seq<Bytes>, torn: Bytes)
    requires |lines| == Owner.OWNER_SCAN_LINES - 1
    requires forall l :: l in lines ==> NEWLINE !in l && |l| < Owner.MAX_TOKEN && header(DropReturn(l)) == None
    requires torn != [] && NEWLINE !in torn && |torn| < Owner.MAX_TOKEN && header(DropReturn(torn)) == None
    ensures Owner.Verdict(header, sameDir, Unlines(lines) + torn) == Some(false)
  {
    RawOf(lines, torn);
    NoNewline(torn);
    assert Owner.RawLines(torn) == [torn];
    ScanPast(header, lines, [torn], 0);
    LastLineRefuses(header, torn);
  }

  lemma LastLineRefuses(header: Bytes -> Option<string>, line: Bytes)
    requires |line| < Owner.MAX_TOKEN && header(DropReturn(line)) == None
    ensures Owner.ScanFrom(header, [line], Owner.OWNER_SCAN_LINES - 1) == Owner.Refused
  {
  }

  lemma RawOf(lines: seq<Bytes>, more: Bytes)
    requires forall l :: l in lines ==> NEWLINE !in l
    ensures Owner.RawLines(Unlines(lines) + more) == lines + Owner.RawLines(more)
  {
    SplitIsUnique(lines, []);
    assert Unlines(lines) + [] == Unlines(lines);
    Owner.RawLinesAppend(Unlines(lines), more);
    assert [] + more == more;
  }

  lemma {:induction false} ScanPast(header: Bytes -> Option<string>, lines: seq<Bytes>, more: seq<Bytes>, n: nat)
    requires n + |lines| < Owner.OWNER_SCAN_LINES
    requires forall l :: l in lines ==> |l| < Owner.MAX_TOKEN && header(DropReturn(l)) == None
    ensures Owner.ScanFrom(header, lines + more, n) == Owner.ScanFrom(header, more, n + |lines|)
  {
    if lines == [] {
      assert lines + more == more;
    } else {
      TailOfAppend(lines, more);
      ScanPast(header, lines[1..], more, n + 1);
    }
  }

  ghost predicate NeverMisjudged(header: Bytes -> Option<string>, sameDir: string -> bool, final: Bytes) {
    forall k: nat :: k <= |final| ==>
      Owner.Verdict(header, sameDir, final[..k]) in {None, Owner.Verdict(header, sameDir, final)}
  }

  // The whole of it: with honest lines, whatever moment a poll catches the file
  // at, it reaches no verdict or the final one, exactly unless the first header
  // is on line twenty, is ours, and can hide there.
  lemma MisjudgedOnlyOnTwentieth(header: Bytes -> Option<string>, sameDir: string -> bool, final: Bytes)
    requires Owner.HonestFrom(header, Owner.RawLines(final), 0)
    ensures var raw := Owner.RawLines(final);
      NeverMisjudged(header, sameDir, final) <==>
      !(Owner.HidesAtEnd(header, raw, 0) && sameDir(header(DropReturn(raw[Owner.OWNER_SCAN_LINES - 1])).value))
  {
    var raw := Owner.RawLines(final);
    if Owner.HidesAtEnd(header, raw, 0) {
      FoundOnTwentieth(header, raw);
      if sameDir(header(DropReturn(raw[Owner.OWNER_SCAN_LINES - 1])).value) {
        var k := MisjudgedAt(header, sameDir, final);
        assert final[..k] == final[..k];
      }
    }
    if !(Owner.HidesAtEnd(header, raw, 0) && sameDir(header(DropReturn(raw[Owner.OWNER_SCAN_LINES - 1])).value)) {
      forall k: nat | k <= |final|
        ensures Owner.Verdict(header, sameDir, final[..k]) in {None, Owner.Verdict(header, sameDir, final)}
      {
        SplitAt(final, k);
        Owner.ViewOfPrefix(final[..k], final[k..]);
        Owner.TornScanMisses(header, Owner.RawLines(final[..k]), raw, 0);
      }
    }
  }

  lemma FoundOnTwentieth(header: Bytes -> Option<string>, raw: seq<Bytes>)
    requires Owner.HonestFrom(header, raw, 0) && Owner.HidesAtEnd(header, raw, 0)
    ensures Owner.ScanFrom(header, raw, 0) == Owner.Found(header(DropReturn(raw[Owner.OWNER_SCAN_LINES - 1])).value)
  {
    var n := Owner.OWNER_SCAN_LINES - 1;
    SplitAt(raw, n);
    ScanPast(header, raw[..n], raw[n..], 0);
  }

  lemma MisjudgedAt(header: Bytes -> Option<string>, sameDir: string -> bool, final: Bytes) returns (k: nat)
    requires Owner.HonestFrom(header, Owner.RawLines(final), 0)
    requires Owner.HidesAtEnd(header, Owner.RawLines(final), 0)
    ensures k <= |final| && Owner.Verdict(header, sameDir, final[..k]) == Some(false)
  {
    var raw, n := Owner.RawLines(final), Owner.OWNER_SCAN_LINES - 1;
    var c :| 0 < c < |raw[n]| && header(DropReturn(raw[n][..c])) == None;
    var torn := raw[n][..c];
    RawPrefix(final, n);
    k := |Unlines(raw[..n]) + torn|;
    assert Unlines(raw[..n]) + raw[n] == (Unlines(raw[..n]) + torn) + raw[n][c..];
    assert final[..k] == Unlines(raw[..n]) + torn;
    TornTwentieth(header, sameDir, raw[..n], torn);
  }

  // The lines before one, and that line, begin the file.
  lemma RawPrefix(final: Bytes, n: nat)
    requires n < |Owner.RawLines(final)|
    ensures Unlines(Owner.RawLines(final)[..n]) + Owner.RawLines(final)[n] <= final
    ensures forall i :: 0 <= i < |Owner.RawLines(final)| ==> NEWLINE !in Owner.RawLines(final)[i]
  {
    var ls, raw := SplitLines(final), Owner.RawLines(final);
    SplitIsFaithful(final);
    LinesHoldNone(final);
    RestIsSuffix(final);
    if n < |ls| {
      CutAt(ls, n);
      assert raw[..n] == ls[..n] && raw[n] == ls[n];
      assert ls[..n] + [ls[n]] + ls[n + 1..] == ls[..n] + ([ls[n]] + ls[n + 1..]);
      UnlinesAppend(ls[..n], [ls[n]] + ls[n + 1..]);
      UnlinesCons(ls[n], ls[n + 1..], Rest(final));
      Rebuilt(Unlines(ls[..n]), ls[n], Unlines([ls[n]] + ls[n + 1..]), Unlines(ls[n + 1..]), Rest(final), final);
    } else {
      assert raw[..n] == ls;
    }
  }

  lemma Rebuilt(a: Bytes, l: Bytes, b: Bytes, c: Bytes, rest: Bytes, final: Bytes)
    requires final == a + b + rest && b + rest == l + [NEWLINE] + (c + rest)
    ensures a + l <= final
  {
    Associative(a, b, rest);
    assert final == (a + l) + ([NEWLINE] + (c + rest));
  }

  // A file not judged yet, and so not counted.
  predicate Unjudged(s: Outcome) {
    s.file.owner.None? && s.file.offset <= s.length && s.file.tally.seen.None? && s.counted == []
  }

  // How long that refusal lasts: through any polls, for as long as no
  // forgetting pass comes. After one, a poll of the finished file counts all of
  // it, what was written before attach included.
  lemma RefusedUntilForgotten(ad: Adapter, size: Positive, lines: seq<Bytes>, last: Bytes, torn: Bytes, tail: Bytes,
                              s: Outcome, e: Event, more: seq<Event>, end: Event)
    requires ad.header.Some? && HidesOnTwentieth(ad.header.value, ad.sameDir, lines, last, torn)
    requires var content := Unlines(lines) + (last + [NEWLINE] + tail);
      && Rest(content) == [] && Complete(content, end)
      && Unjudged(s) && e.Poll? && Runs.Grows(s.length, e) && s.file.stamp != Stamp(e.mtime, e.stat)
      && e.header == Some(|Unlines(lines) + torn|) && Length(0, e) <= |content|
      && AppendOnly(Length(s.length, e), more, |content|) && forall x :: x in more ==> !x.Forget?
    ensures var fmt, content := PlainFormat(ad, size), Unlines(lines) + (last + [NEWLINE] + tail);
      var t := Run(ad, fmt, content, After(ad, fmt, content, s, e), more);
      && Refused(t)
      && After(ad, fmt, content, After(ad, fmt, content, t, Forget), end).counted == Batch(ad, content)
  {
    var fmt, content := PlainFormat(ad, size), Unlines(lines) + (last + [NEWLINE] + tail);
    TwentiethLineIsTooLate(ad.header.value, ad.sameDir, lines, last, torn, tail);
    assert content[..|Unlines(lines) + torn|] == Unlines(lines) + torn by {
      TornIsPrefix(Unlines(lines), last, torn, tail);
    }
    RefusalLasts(ad, fmt, content, After(ad, fmt, content, s, e), more);
    var t := Run(ad, fmt, content, After(ad, fmt, content, s, e), more);
    RefusalForgotten(ad, fmt, content, t);
    FreshPoll(ad, size, content, t.length, end);
  }

  lemma TornIsPrefix(head: Bytes, last: Bytes, torn: Bytes, tail: Bytes)
    requires torn <= last
    ensures head + torn <= head + (last + [NEWLINE] + tail)
  {
  }

  // A file met for the first time when it is finished is counted whole.
  lemma FreshPoll(ad: Adapter, size: Positive, content: Bytes, n: nat, end: Event)
    requires content != [] && Rest(content) == [] && Complete(content, end)
    requires PlainFormat(ad, size).verdict(content) == Some(true)
    ensures After(ad, PlainFormat(ad, size), content, Afresh(n), end).counted == Batch(ad, content)
  {
    assert content[..|content|] == content && content[0..] == content;
    assert [] + Batch(ad, content) == Batch(ad, content);
  }

  // The exception forgetIdle makes: a file that was there at attach and goes
  // idle before its header gave a verdict is forgotten, offset and all. When it
  // comes back as ours it is read from the start. So, from a line boundary, a
  // run counts what was written after attach exactly when every forgetting pass
  // spared the file or its history held no records.
  lemma ForgottenHistoryIsCounted(ad: Adapter, size: Positive, content: Bytes, attach: nat,
                                  pre: bool, base: Option<Values>, events: seq<Event>, last: Event)
    requires attach <= |content| && Rest(content[..attach]) == []
    requires Orderly(ad, size, content) && Rest(content) == []
    requires var fmt := PlainFormat(ad, size);
      && Verdicts(ad, fmt, content, true) && fmt.verdict(content) == Some(true)
      && AppendOnly(attach, events, |content|) && Complete(content, last)
    ensures var fmt := PlainFormat(ad, size);
      var s := Run(ad, fmt, content, Start(attach, pre, base), events);
      After(ad, fmt, content, s, last).counted == Batch(ad, content[attach..]) <==>
        Spares(ad, fmt, content, Start(attach, pre, base), events) || Batch(ad, content[..attach]) == []
  {
    SplitAt(content, attach);
    if Spares(ad, PlainFormat(ad, size), content, Start(attach, pre, base), events) {
      OrderlyTail(ad, size, content[..attach], content[attach..]);
      LineTranscriptsCountOnce(ad, size, content, attach, pre, base, events, last);
    } else {
      ForgottenStartsOver(ad, size, content, attach, pre, base, events, last, []);
      HistoryMatters(ad, content[..attach], content[attach..]);
    }
  }

  lemma OrderlyTail(ad: Adapter, size: Positive, head: Bytes, tail: Bytes)
    requires Rest(head) == [] && Orderly(ad, size, head + tail)
    ensures Orderly(ad, size, tail) && Rest(tail) == Rest(head + tail)
  {
    SplitAppend(head, tail);
    assert Rest(head) + tail == tail;
  }

  lemma HistoryMatters(ad: Adapter, head: Bytes, tail: Bytes)
    ensures Rest(head) == [] ==> (Batch(ad, head + tail) == Batch(ad, tail) <==> Batch(ad, head) == [])
  {
    BatchAppend(ad, head, tail);
    if Rest(head) == [] {
      assert Rest(head) + tail == tail;
      assert |Batch(ad, head) + Batch(ad, tail)| == |Batch(ad, head)| + |Batch(ad, tail)|;
      assert [] + Batch(ad, tail) == Batch(ad, tail);
    }
  }
}
