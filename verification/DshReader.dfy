// consumeZstd and ownsZstd of agentusage/dsh.go: the records of a capped read
// of compressed frames, and the ownership verdict of the opening frame.
module DshReader {
  import opened Base
  import opened Counters
  import opened Lines
  import opened Frames
  import opened Zstd

  const DSH_HEADER_BYTES: nat := 0x1_0000

  function Pieces(plain: Bytes): seq<Bytes> {
    SplitLines(plain) + [Rest(plain)]
  }

  // A non-empty piece between newlines is offered to the parser.
  function OnePiece(ad: Adapter, piece: Bytes): seq<Values> {
    if piece == [] then [] else Collect(ad, piece)
  }

  function PieceRecords(ad: Adapter, pieces: seq<Bytes>): seq<Values> {
    if pieces == [] then [] else OnePiece(ad, pieces[0]) + PieceRecords(ad, pieces[1..])
  }

  function TextRecords(ad: Adapter, plain: Bytes): seq<Values> {
    PieceRecords(ad, Pieces(plain))
  }

  function Window(src: Bytes): (w: Bytes)
    ensures w <= src
  {
    if |src| <= TAIL_BYTES then src else src[..TAIL_BYTES]
  }

  // The specification of one capped read: None is a read that must be retried,
  // otherwise the records and the bytes they came from.
  function ConsumedFrames(ad: Adapter, fr: Framing, src: Bytes): (r: Option<(seq<Values>, nat)>)
    ensures r.Some? ==> r.value.1 <= |src|
  {
    var w := Walk(fr, Window(src), 0);
    if w.failed && w.end == 0 then None else Some((TextRecords(ad, w.plain), w.end))
  }

  function ConsumedZstd(ad: Adapter, c: Codec, src: Bytes): Option<(seq<Values>, nat)> {
    ConsumedFrames(ad, FramingOf(c), src)
  }

  lemma NextPiece(ad: Adapter, recs: seq<Values>, pieces: seq<Bytes>, k: nat)
    requires k < |pieces|
    ensures recs + PieceRecords(ad, pieces[k..]) ==
            recs + OnePiece(ad, pieces[k]) + PieceRecords(ad, pieces[k + 1..])
  {
    DropDrop(pieces, k, 1);
    Associative(recs, OnePiece(ad, pieces[k]), PieceRecords(ad, pieces[k + 1..]));
  }

  method CollectPieces(ad: Adapter, pieces: seq<Bytes>) returns (recs: seq<Values>)
    ensures recs == PieceRecords(ad, pieces)
  {
    recs := [];
    var k := 0;
    while k < |pieces|
      invariant k <= |pieces|
      invariant PieceRecords(ad, pieces) == recs + PieceRecords(ad, pieces[k..])
    {
      NextPiece(ad, recs, pieces, k);
      recs := recs + OnePiece(ad, pieces[k]);
      k := k + 1;
    }
  }

  method ConsumeZstd(ad: Adapter, c: Codec, src: Bytes, off: nat)
    returns (recs: seq<Values>, complete: nat, ok: bool)
    requires SelfContained(c)
    ensures ok == ConsumedZstd(ad, c, src).Some?
    ensures ok ==> recs == ConsumedZstd(ad, c, src).value.0
    ensures ok ==> complete == off + ConsumedZstd(ad, c, src).value.1
  {
    var plain, n, failed := DecodeZstdPrefix(c, Window(src));
    if failed && n == 0 {
      return [], 0, false;
    }
    recs := CollectPieces(ad, Pieces(plain));
    return recs, off + n, true;
  }

  lemma {:induction false} PieceRecordsAppend(ad: Adapter, a: seq<Bytes>, b: seq<Bytes>)
    ensures PieceRecords(ad, a + b) == PieceRecords(ad, a) + PieceRecords(ad, b)
  {
    if a == [] {
      assert a + b == b;
    } else {
      PieceRecordsAppend(ad, a[1..], b);
      TailOfAppend(a, b);
      Associative(OnePiece(ad, a[0]), PieceRecords(ad, a[1..]), PieceRecords(ad, b));
    }
  }

  // Text that ends with its newline (or is empty) shares no line with what
  // follows, so its records are its own.
  lemma TextAppend(ad: Adapter, p: Bytes, q: Bytes)
    requires Rest(p) == []
    ensures TextRecords(ad, p + q) == TextRecords(ad, p) + TextRecords(ad, q)
    ensures Pieces(p + q) == SplitLines(p) + Pieces(q)
  {
    PiecesAppend(p, q);
    PieceRecordsAppend(ad, SplitLines(p), Pieces(q));
    EmptyPiece(ad, SplitLines(p));
  }

  lemma EmptyPiece(ad: Adapter, ls: seq<Bytes>)
    ensures PieceRecords(ad, ls + [[]]) == PieceRecords(ad, ls)
  {
    PieceRecordsAppend(ad, ls, [[]]);
    assert PieceRecords(ad, [[]]) == [] + PieceRecords(ad, []);
  }

  lemma PiecesAppend(p: Bytes, q: Bytes)
    requires Rest(p) == []
    ensures Pieces(p + q) == SplitLines(p) + Pieces(q)
    ensures Rest(p + q) == Rest(q)
  {
    SplitAppend(p, q);
    assert Rest(p) + q == q;
  }

  // Every frame the walk from off decodes ends with its newline.
  ghost predicate ClosedFrames(fr: Framing, src: Bytes, off: nat)
    requires off <= |src|
    decreases |src| - off
  {
    var n := Front(fr, src, off);
    n == 0 || fr.decode(src[off..off + n]).None? ||
    (Rest(fr.decode(src[off..off + n]).value) == [] && ClosedFrames(fr, src, off + n))
  }

  lemma {:induction false} ClosedWalk(fr: Framing, src: Bytes, off: nat)
    requires off <= |src| && ClosedFrames(fr, src, off)
    ensures Rest(Walk(fr, src, off).plain) == []
    decreases |src| - off
  {
    var n := Front(fr, src, off);
    if n > 0 && fr.decode(src[off..off + n]).Some? {
      ClosedWalk(fr, src, off + n);
      PiecesAppend(fr.decode(src[off..off + n]).value, Walk(fr, src, off + n).plain);
    }
  }

  // The same frames, seen in fewer bytes, are closed too.
  lemma {:induction false} ClosedPrefix(fr: Framing, cap: nat, src: Bytes, t: Bytes, off: nat)
    requires PrefixCode(fr, cap) && src <= t && off <= |src| && ClosedFrames(fr, t, off)
    ensures ClosedFrames(fr, src, off)
    decreases |src| - off
  {
    var n := Front(fr, src, off);
    if n > 0 {
      FrontExtends(fr, cap, src, t, off);
      if fr.decode(src[off..off + n]).Some? {
        ClosedPrefix(fr, cap, src, t, off + n);
      }
    }
  }

  // A complete frame within the cap is always consumed, whatever follows it.
  lemma CappedReadProgresses(ad: Adapter, c: Codec, src: Bytes)
    requires SelfContained(c) && FrameLen(c, src).Some?
    requires c.decode(src[..FrameLen(c, src).value]).Some?
    ensures ConsumedZstd(ad, c, src).Some? && ConsumedZstd(ad, c, src).value.1 >= FrameLen(c, src).value > 0
  {
    FrameLenIsPrefixCode(c, src);
    var n := FrameLen(c, src).value;
    var w := Window(src);
    assert w[..n] == src[..n] == w[0..n];
    assert w[0..] == w;
    FrameLenExtends(c, src, w);
  }

  function FirstHeader(header: Bytes -> Option<string>, pieces: seq<Bytes>): Option<string> {
    if pieces == [] then None
    else if header(pieces[0]).Some? then header(pieces[0])
    else FirstHeader(header, pieces[1..])
  }

  // ownsZstd reads the opening bytes only.
  function Opening(content: Bytes): Bytes {
    if |content| <= DSH_HEADER_BYTES then content else content[..DSH_HEADER_BYTES]
  }

  // ownsZstd: None is undecided, Some(mine) is a verdict that gets cached.
  function ZstdVerdict(ad: Adapter, header: Bytes -> Option<string>, c: Codec, content: Bytes): Option<bool> {
    var w := Walk(FramingOf(c), Opening(content), 0);
    if w.end == 0 then None else
      match FirstHeader(header, Pieces(w.plain))
      case Some(cwd) => Some(ad.sameDir(cwd))
      case None => Some(false)
  }

  method OwnsZstd(ad: Adapter, header: Bytes -> Option<string>, c: Codec, content: Bytes)
    returns (mine: bool, decided: bool)
    requires SelfContained(c)
    ensures decided == ZstdVerdict(ad, header, c, content).Some?
    ensures decided ==> mine == ZstdVerdict(ad, header, c, content).value
    ensures !decided ==> !mine
  {
    var head := Opening(content);
    if |head| == 0 {
      return false, false;
    }
    var plain, consumed, _ := DecodeZstdPrefix(c, head);
    if consumed == 0 {
      return false, false;
    }
    var pieces := Pieces(plain);
    var k := 0;
    while k < |pieces|
      invariant k <= |pieces|
      invariant FirstHeader(header, pieces) == FirstHeader(header, pieces[k..])
    {
      var cwd := header(pieces[k]);
      if cwd.Some? {
        return ad.sameDir(cwd.value), true;
      }
      DropDrop(pieces, k, 1);
      k := k + 1;
    }
    return false, true;
  }

  // The opening frame of content is complete, ends with its newline, and its
  // text carries the header.
  ghost predicate OpensWithHeader(header: Bytes -> Option<string>, fr: Framing, content: Bytes) {
    var n := Front(fr, content, 0);
    && n > 0
    && fr.decode(content[0..n]).Some?
    && Rest(fr.decode(content[0..n]).value) == []
    && FirstHeader(header, SplitLines(fr.decode(content[0..n]).value)).Some?
  }

  lemma {:induction false} FirstHeaderAppend(header: Bytes -> Option<string>, a: seq<Bytes>, b: seq<Bytes>)
    requires FirstHeader(header, a).Some?
    ensures FirstHeader(header, a + b) == FirstHeader(header, a)
  {
    TailOfAppend(a, b);
    if header(a[0]).None? {
      FirstHeaderAppend(header, a[1..], b);
    }
  }

  // Whatever prefix of the log a poll catches, a verdict it reaches is the
  // verdict on the whole log.
  lemma ZstdVerdictIsStable(ad: Adapter, header: Bytes -> Option<string>, c: Codec, seen: Bytes, final: Bytes)
    requires SelfContained(c) && seen <= final && OpensWithHeader(header, FramingOf(c), final)
    requires ZstdVerdict(ad, header, c, seen).Some?
    ensures ZstdVerdict(ad, header, c, final) == ZstdVerdict(ad, header, c, seen)
  {
    var fr := FramingOf(c);
    FramingIsPrefixCode(c);
    OpeningsNest(seen, final);
    assert Front(fr, Opening(seen), 0) > 0;
    FrontExtends(fr, MAX_FRAME_BYTES, Opening(seen), Opening(final), 0);
    VerdictFromOpening(header, fr, MAX_FRAME_BYTES, Opening(seen), final);
    VerdictFromOpening(header, fr, MAX_FRAME_BYTES, Opening(final), final);
  }

  lemma OpeningsNest(seen: Bytes, final: Bytes)
    requires seen <= final
    ensures Opening(seen) <= Opening(final) <= final
  {
  }

  lemma VerdictFromOpening(header: Bytes -> Option<string>, fr: Framing, cap: nat, head: Bytes, final: Bytes)
    requires PrefixCode(fr, cap) && head <= final && OpensWithHeader(header, fr, final)
    requires Front(fr, head, 0) > 0
    ensures Walk(fr, head, 0).end > 0
    ensures FirstHeader(header, Pieces(Walk(fr, head, 0).plain)) ==
            FirstHeader(header, SplitLines(fr.decode(final[0..Front(fr, final, 0)]).value))
  {
    FrontExtends(fr, cap, head, final, 0);
    var n := Front(fr, head, 0);
    var text := fr.decode(head[0..n]).value;
    var more := Walk(fr, head, n).plain;
    PiecesAppend(text, more);
    FirstHeaderAppend(header, SplitLines(text), Pieces(more));
  }

  // The verdict in full: once the first frame is there, within the 64 KiB read
  // for it, the first of its lines to carry a header says whose log it is.
  lemma LogVerdictIs(ad: Adapter, header: Bytes -> Option<string>, c: Codec, content: Bytes, text: Bytes, i: nat)
    requires SelfContained(c) && FrameLen(c, content).Some? && FrameLen(c, content).value <= 0x1_0000
    requires c.decode(content[..FrameLen(c, content).value]) == Some(text) && Rest(text) == []
    requires i < |SplitLines(text)| && header(SplitLines(text)[i]).Some?
    requires forall j :: 0 <= j < i ==> header(SplitLines(text)[j]) == None
    ensures ZstdVerdict(ad, header, c, content) == Some(ad.sameDir(header(SplitLines(text)[i]).value))
  {
    var fr, head, n := FramingOf(c), Opening(content), FrameLen(c, content).value;
    FrameLenIsPrefixCode(c, content);
    FramingIsPrefixCode(c);
    FirstHeaderAt(header, SplitLines(text), i);
    assert content[0..] == content && content[0..n] == content[..n] && head[0..] == head;
    assert head[..n] == content[..n];
    FrameLenExtends(c, content, head);
    VerdictFromOpening(header, fr, MAX_FRAME_BYTES, head, content);
  }

  lemma {:induction false} FirstHeaderAt(header: Bytes -> Option<string>, lines: seq<Bytes>, i: nat)
    requires i < |lines| && header(lines[i]).Some? && forall j :: 0 <= j < i ==> header(lines[j]) == None
    ensures FirstHeader(header, lines) == header(lines[i])
    decreases i
  {
    if i > 0 {
      FirstHeaderAt(header, lines[1..], i - 1);
    }
  }
}
