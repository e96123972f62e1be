// Which records count: what the collect step of agentusage/watch.go adds for a
// line of a transcript, said of the bytes of the line, the parser and the
// directory the record names, and what that makes of whole files.
module Counting {
  import opened Base
  import opened Counters
  import opened Lines
  import opened Reader
  import opened DshReader
  import opened Frames
  import opened Zstd
  import opened Tallies
  import opened Tail
  import opened Torn
  import opened Runs
  import opened Figures

  // One more line, ended by its newline: its usage counts exactly when the line
  // fits the cap and, its carriage return dropped, parses to a record that names
  // no directory or the watcher's own.
  lemma {:induction false} LineCounts(ad: Adapter, size: Positive, before: Bytes, line: Bytes)
    requires Rest(before) == [] && NEWLINE !in line
    ensures var parsed := ad.parse(if line != [] && line[|line| - 1] == 13 then line[..|line| - 1] else line);
      Consumed(ad, size, before + (line + [10])) ==
      (Consumed(ad, size, before).0 +
       if |line| + 1 <= 0x80_0000 && parsed.Some? && (parsed.value.cwd == "" || ad.sameDir(parsed.value.cwd))
       then [parsed.value.usage] else [],
       |before| + |line| + 1)
  {
    LineCloses(ad, before, line);
    Whole(ad, size, before);
    Whole(ad, size, before + (line + [NEWLINE]));
    Counted(ad, line);
  }

  lemma {:induction false} Whole(ad: Adapter, size: Positive, src: Bytes)
    requires Rest(src) == []
    ensures Consumed(ad, size, src) == (Batch(ad, src), |src|)
  {
    Remainder(0, size, 0);
  }

  lemma Counted(ad: Adapter, line: Bytes)
    ensures var parsed := ad.parse(if line != [] && line[|line| - 1] == 13 then line[..|line| - 1] else line);
      LineRecords(ad, line) ==
      if |line| + 1 <= 0x80_0000 && parsed.Some? && (parsed.value.cwd == "" || ad.sameDir(parsed.value.cwd))
      then [parsed.value.usage] else []
  {
  }

  // A trailing fragment is done with exactly when it parses, fits the cap and
  // leaves the reader's buffer short; its usage counts under the same condition.
  lemma {:induction false} FragmentCountsToo(ad: Adapter, size: Positive, before: Bytes, rest: Bytes)
    requires Rest(before) == [] && NEWLINE !in rest
    ensures var parsed := ad.parse(rest);
      Consumed(ad, size, before + rest) ==
      if |rest| <= 0x80_0000 && |rest| % size != 0 && parsed.Some?
      then (Consumed(ad, size, before).0 +
            if parsed.value.cwd == "" || ad.sameDir(parsed.value.cwd) then [parsed.value.usage] else [],
            |before| + |rest|)
      else (Consumed(ad, size, before).0, |before|)
  {
    FragmentIsRest(ad, before, rest);
    Whole(ad, size, before);
  }

  // The usage of a record that is ours or names no directory.
  function Own(ad: Adapter, text: Bytes): Option<Values> {
    var parsed := ad.parse(text);
    if parsed.Some? && (parsed.value.cwd == "" || ad.sameDir(parsed.value.cwd)) then Some(parsed.value.usage)
    else None
  }

  function OwnLine(ad: Adapter, line: Bytes): Option<Values> {
    if |line| + 1 > 0x80_0000 then None
    else Own(ad, if line != [] && line[|line| - 1] == 13 then line[..|line| - 1] else line)
  }

  function OwnPiece(ad: Adapter, piece: Bytes): Option<Values> {
    if piece == [] then None else Own(ad, piece)
  }

  // recs are the usages of lines, in their order: at lists the lines that have one,
  // every one of them and no other.
  ghost predicate Picks(lines: seq<Bytes>, usage: Bytes -> Option<Values>, recs: seq<Values>, at: seq<nat>) {
    && |at| == |recs|
    && (forall k, l :: 0 <= k < l < |at| ==> at[k] < at[l])
    && (forall k :: 0 <= k < |at| ==> at[k] < |lines| && usage(lines[at[k]]) == Some(recs[k]))
    && (forall i: nat :: i < |lines| && usage(lines[i]).Some? ==> i in at)
  }

  ghost predicate InFileOrder(lines: seq<Bytes>, usage: Bytes -> Option<Values>, recs: seq<Values>) {
    exists at :: Picks(lines, usage, recs, at)
  }

  lemma {:induction false} PickNext(lines: seq<Bytes>, usage: Bytes -> Option<Values>, recs: seq<Values>,
                                    more: seq<Values>)
    requires lines != [] && InFileOrder(lines[1..], usage, more)
    requires recs == (if usage(lines[0]).Some? then [usage(lines[0]).value] else []) + more
    ensures InFileOrder(lines, usage, recs)
  {
    var at :| Picks(lines[1..], usage, more, at);
    var all := Moved(at);
    PickLater(lines, usage, more, at);
    if usage(lines[0]).Some? {
      PickFirst(lines, usage, more, all);
    } else {
      assert recs == more;
      assert Picks(lines, usage, recs, all);
    }
  }

  // The same lines, counted from one line earlier.
  function Moved(at: seq<nat>): (r: seq<nat>)
    ensures |r| == |at| && forall k :: 0 <= k < |at| ==> r[k] == at[k] + 1
  {
    seq(|at|, k requires 0 <= k < |at| => at[k] + 1)
  }

  // Picks but for the first line.
  ghost predicate PicksAfter(lines: seq<Bytes>, usage: Bytes -> Option<Values>, recs: seq<Values>, at: seq<nat>) {
    && |at| == |recs|
    && (forall k, l :: 0 <= k < l < |at| ==> at[k] < at[l])
    && (forall k :: 0 <= k < |at| ==> 0 < at[k] < |lines| && usage(lines[at[k]]) == Some(recs[k]))
    && (forall i: nat :: 0 < i < |lines| && usage(lines[i]).Some? ==> i in at)
  }

  lemma {:induction false} PickLater(lines: seq<Bytes>, usage: Bytes -> Option<Values>, recs: seq<Values>, at: seq<nat>)
    requires lines != [] && Picks(lines[1..], usage, recs, at)
    ensures PicksAfter(lines, usage, recs, Moved(at))
  {
    var moved := Moved(at);
    forall k | 0 <= k < |at|
      ensures 0 < moved[k] < |lines| && usage(lines[moved[k]]) == Some(recs[k])
    {
      assert lines[1..][at[k]] == lines[moved[k]];
    }
    forall i: nat | 0 < i < |lines| && usage(lines[i]).Some?
      ensures i in moved
    {
      assert lines[1..][i - 1] == lines[i];
      MovedHolds(at, i);
    }
  }

  lemma MovedHolds(at: seq<nat>, i: Positive)
    requires i - 1 in at
    ensures i in Moved(at)
  {
    var k :| 0 <= k < |at| && at[k] == i - 1;
    assert Moved(at)[k] == i;
  }

  lemma {:induction false} PickFirst(lines: seq<Bytes>, usage: Bytes -> Option<Values>, more: seq<Values>, at: seq<nat>)
    requires lines != [] && PicksAfter(lines, usage, more, at) && usage(lines[0]).Some?
    ensures InFileOrder(lines, usage, [usage(lines[0]).value] + more)
  {
    var all := [0] + at;
    assert forall i :: i in all <==> i == 0 || i in at;
    assert Picks(lines, usage, [usage(lines[0]).value] + more, all);
  }

  lemma {:induction false} LinesInOrder(ad: Adapter, lines: seq<Bytes>)
    ensures InFileOrder(lines, (l: Bytes) => OwnLine(ad, l), RecordsOf(ad, lines))
  {
    var usage := (l: Bytes) => OwnLine(ad, l);
    if lines == [] {
      assert Picks(lines, usage, [], []);
    } else {
      LinesInOrder(ad, lines[1..]);
      PickNext(lines, usage, RecordsOf(ad, lines), RecordsOf(ad, lines[1..]));
    }
  }

  lemma {:induction false} PiecesInOrder(ad: Adapter, pieces: seq<Bytes>)
    ensures InFileOrder(pieces, (p: Bytes) => OwnPiece(ad, p), PieceRecords(ad, pieces))
  {
    var usage := (p: Bytes) => OwnPiece(ad, p);
    if pieces == [] {
      assert Picks(pieces, usage, [], []);
    } else {
      PiecesInOrder(ad, pieces[1..]);
      PickNext(pieces, usage, PieceRecords(ad, pieces), PieceRecords(ad, pieces[1..]));
    }
  }

  // A whole file: the usages of its own records, in file order.
  lemma BatchInFileOrder(ad: Adapter, content: Bytes)
    ensures InFileOrder(SplitLines(content), (l: Bytes) => OwnLine(ad, l), Batch(ad, content))
  {
    LinesInOrder(ad, SplitLines(content));
  }

  lemma PickIsLine(lines: seq<Bytes>, usage: Bytes -> Option<Values>, recs: seq<Values>, at: seq<nat>, k: nat)
    requires Picks(lines, usage, recs, at) && k < |recs|
    ensures exists l :: l in lines && usage(l).Some?
  {
    assert lines[at[k]] in lines;
  }

  // A file of nothing but records of other directories, and lines that are no
  // records, counts nothing.
  lemma NothingOwn(lines: seq<Bytes>, usage: Bytes -> Option<Values>, recs: seq<Values>)
    requires InFileOrder(lines, usage, recs) && forall l :: l in lines ==> usage(l).None?
    ensures recs == []
  {
    var at :| Picks(lines, usage, recs, at);
    if recs != [] {
      PickIsLine(lines, usage, recs, at, 0);
    }
  }

  // And one where every line is a record of its own counts them all.
  lemma AllOwn(lines: seq<Bytes>, usage: Bytes -> Option<Values>, recs: seq<Values>)
    requires InFileOrder(lines, usage, recs) && forall l :: l in lines ==> usage(l).Some?
    ensures |recs| == |lines| && forall i :: 0 <= i < |lines| ==> recs[i] == usage(lines[i]).value
  {
    var at :| Picks(lines, usage, recs, at);
    Identity(at, |lines|, 0);
  }

  // Rising numbers below n that miss none are 0, 1, ..., n - 1.
  lemma {:induction false} Identity(at: seq<nat>, n: nat, k: nat)
    requires k <= n && k <= |at|
    requires forall i, j :: 0 <= i < j < |at| ==> at[i] < at[j]
    requires forall i :: 0 <= i < |at| ==> at[i] < n
    requires forall i: nat :: i < n ==> i in at
    requires forall i :: 0 <= i < k ==> at[i] == i
    ensures |at| == n && forall i :: 0 <= i < n ==> at[i] == i
    decreases n - k
  {
    assert k > 0 && k < |at| ==> at[k - 1] < at[k];
    assert k < |at| ==> at[k] < n;
    if k < n {
      assert k in at;
      var i :| 0 <= i < |at| && at[i] == k;
      assert at[k] <= at[i];
      Identity(at, n, k + 1);
    }
  }

  // Over every schedule: a transcript followed to its end has counted the
  // usages of its own records, in file order. One that holds only records of
  // other directories counts nothing and shows nothing.
  lemma TranscriptsCountTheirOwn(ad: Adapter, size: Positive, content: Bytes, attach: nat, pre: bool,
                                 base: Option<Values>, events: seq<Event>, last: Event, rest: seq<Event>)
    requires attach <= |content| && Orderly(ad, size, content[attach..]) && Rest(content[attach..]) == []
    requires var fmt := PlainFormat(ad, size);
      && Verdicts(ad, fmt, content, true) && fmt.verdict(content) == Some(true)
      && AppendOnly(attach, events, |content|) && Harmless(ad, fmt, content, attach, pre, base, events)
      && Complete(content, last) && AppendOnly(|content|, rest, |content|)
    ensures var fmt, lines := PlainFormat(ad, size), SplitLines(content[attach..]);
      var s := After(ad, fmt, content, Run(ad, fmt, content, Start(attach, pre, base), events), last);
      var t := Run(ad, fmt, content, s, rest);
      && InFileOrder(lines, (l: Bytes) => OwnLine(ad, l), t.counted)
      && ((forall l :: l in lines ==> OwnLine(ad, l).None?) ==>
            t.counted == [] && t.file.tally == Tally(base, None, 0))
      && ((forall l :: l in lines ==> OwnLine(ad, l).Some?) ==>
            |t.counted| == |lines| && forall i :: 0 <= i < |lines| ==> t.counted[i] == OwnLine(ad, lines[i]).value)
  {
    LineTranscriptsReportOnce(ad, size, content, attach, pre, base, events, last, rest);
    BatchInFileOrder(ad, content[attach..]);
    Extremes(SplitLines(content[attach..]), (l: Bytes) => OwnLine(ad, l), Batch(ad, content[attach..]));
  }

  lemma Extremes(lines: seq<Bytes>, usage: Bytes -> Option<Values>, recs: seq<Values>)
    requires InFileOrder(lines, usage, recs)
    ensures (forall l :: l in lines ==> usage(l).None?) ==> recs == []
    ensures (forall l :: l in lines ==> usage(l).Some?) ==>
              |recs| == |lines| && forall i :: 0 <= i < |lines| ==> recs[i] == usage(lines[i]).value
  {
    if forall l :: l in lines ==> usage(l).None? {
      NothingOwn(lines, usage, recs);
    }
    if forall l :: l in lines ==> usage(l).Some? {
      AllOwn(lines, usage, recs);
    }
  }

  // The same for compressed logs, of the text their frames hold.
  lemma LogsCountTheirOwn(ad: Adapter, codec: Codec, content: Bytes, attach: nat, pre: bool,
                          base: Option<Values>, events: seq<Event>, tail: seq<Event>, rest: seq<Event>)
    requires SelfContained(codec) && attach <= |content| && ClosedFrames(FramingOf(codec), content, attach)
    requires var fmt := ZstdFormat(ad, codec);
      && Verdicts(ad, fmt, content, true) && fmt.verdict(content) == Some(true)
      && AppendOnly(attach, events, |content|) && Harmless(ad, fmt, content, attach, pre, base, events)
      && var s := Run(ad, fmt, content, Start(attach, pre, base), events);
      && AppendOnly(s.length, tail, |content|) && Spares(ad, fmt, content, s, tail)
      && AppendOnly(Run(ad, fmt, content, s, tail).length, rest, |content|)
    requires Completes(content, tail) > Rounds(ZstdFormat(ad, codec), |content| - attach)
    ensures var fmt := ZstdFormat(ad, codec);
      var pieces := Pieces(Walk(FramingOf(codec), content, attach).plain);
      var s := Run(ad, fmt, content, Run(ad, fmt, content, Start(attach, pre, base), events), tail);
      var t := Run(ad, fmt, content, s, rest);
      && InFileOrder(pieces, (p: Bytes) => OwnPiece(ad, p), t.counted)
      && ((forall p :: p in pieces ==> OwnPiece(ad, p).None?) ==>
            t.counted == [] && t.file.tally == Tally(base, None, 0))
  {
    CompressedLogsReportOnce(ad, codec, content, attach, pre, base, events, tail, rest);
    var pieces := Pieces(Walk(FramingOf(codec), content, attach).plain);
    PiecesInOrder(ad, pieces);
    Extremes(pieces, (p: Bytes) => OwnPiece(ad, p), PieceRecords(ad, pieces));
  }
}
