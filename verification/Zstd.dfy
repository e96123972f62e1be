// The frame walk of agentusage/dsh.go over concatenated Zstandard frames
// (RFC 8878, sections 3.1.1 and 3.1.2): where a frame ends, which frames at
// the front of a buffer are complete, and what a capped read may commit.
module Zstd {
  import opened Base
  import opened Frames

  const BLOCK_HEADER_LEN: nat := 3
  const CHECKSUM_LEN: nat := 4
  const MAX_FRAME_BYTES: nat := 0x80_0000
  // The most appended bytes one poll reads; equal to the frame cap.
  const TAIL_BYTES: nat := MAX_FRAME_BYTES

  datatype FrameHeader = FrameHeader(size: nat, hasChecksum: bool, skippable: bool, skippableSize: nat)

  // The foreign decoder: header parsing and decompression of one frame.
  datatype Codec = Codec(header: Bytes -> Option<FrameHeader>, decode: Bytes -> Option<Bytes>)

  predicate HeaderDecides(c: Codec, src: Bytes, t: Bytes) {
    match c.header(src)
    case None => true
    case Some(h) => 0 < h.size <= |src| && (Agree(src, t, h.size) ==> c.header(t) == c.header(src))
  }

  // A header is decided by its own bytes alone.
  ghost predicate SelfContained(c: Codec) {
    forall src, t :: HeaderDecides(c, src, t)
  }

  // Little-endian Block_Header, RFC 8878 section 3.1.1.2.
  function BlockHeader(src: Bytes, off: nat): nat
    requires off + BLOCK_HEADER_LEN <= |src|
  {
    src[off] as int + 0x100 * src[off + 1] as int + 0x1_0000 * src[off + 2] as int
  }

  datatype Block = Block(last: bool, reserved: bool, body: nat)

  // An RLE block stores one byte whatever its size field says.
  function DecodeBlock(bh: nat): Block {
    var kind, size := (bh / 2) % 4, bh / 8;
    Block(bh % 2 != 0, kind == 3, if kind == 1 then 1 else size)
  }

  // The end of the frame whose next block header stands at off.
  function FrameEnd(src: Bytes, off: nat, checksum: bool): (r: Option<nat>)
    ensures r.Some? ==> off < r.value <= MAX_FRAME_BYTES && r.value <= |src|
    decreases |src| - off
  {
    if off + BLOCK_HEADER_LEN > |src| then None else
      var b := DecodeBlock(BlockHeader(src, off));
      var next := off + BLOCK_HEADER_LEN + b.body;
      if b.reserved || next > MAX_FRAME_BYTES then None
      else if !b.last then FrameEnd(src, next, checksum)
      else
        var end := if checksum then next + CHECKSUM_LEN else next;
        if end > MAX_FRAME_BYTES || |src| < end then None else Some(end)
  }

  // The size of the first complete frame, or None.
  function FrameLen(c: Codec, src: Bytes): (r: Option<nat>)
    ensures r.Some? ==> r.value <= |src|
  {
    match c.header(src)
    case None => None
    case Some(h) =>
      if h.skippable then
        var n := h.size + h.skippableSize;
        if n > MAX_FRAME_BYTES || |src| < n then None else Some(n)
      else FrameEnd(src, h.size, h.hasChecksum)
  }

  // The framing a codec defines, as the frame walk sees it.
  function FramingOf(c: Codec): Framing {
    Framing((src: Bytes) => FrameLen(c, src), c.decode)
  }

  method ZstdFrameLen(c: Codec, src: Bytes) returns (n: nat, ok: bool)
    ensures FramingOf(c).len(src) == if ok then Some(n) else None
  {
    var decoded := c.header(src);
    if decoded.None? {
      return 0, false;
    }
    var h := decoded.value;
    if h.skippable {
      n := h.size + h.skippableSize;
      if n < h.size || n > MAX_FRAME_BYTES || |src| < n {
        return 0, false;
      }
      return n, true;
    }
    var off := h.size;
    while true
      invariant off >= h.size
      invariant FrameLen(c, src) == FrameEnd(src, off, h.hasChecksum)
      decreases |src| - off
    {
      if off + BLOCK_HEADER_LEN > |src| {
        return 0, false;
      }
      var b := DecodeBlock(BlockHeader(src, off));
      if b.reserved {
        return 0, false;
      }
      off := off + BLOCK_HEADER_LEN + b.body;
      if off < h.size || off > MAX_FRAME_BYTES {
        return 0, false;
      }
      if b.last {
        break;
      }
    }
    if h.hasChecksum {
      off := off + CHECKSUM_LEN;
    }
    if off > MAX_FRAME_BYTES || |src| < off {
      return 0, false;
    }
    return off, true;
  }

  lemma {:induction false} FrameEndExtends(src: Bytes, t: Bytes, off: nat, checksum: bool)
    requires FrameEnd(src, off, checksum).Some?
    requires Agree(src, t, FrameEnd(src, off, checksum).value)
    ensures FrameEnd(t, off, checksum) == FrameEnd(src, off, checksum)
    decreases |src| - off
  {
    var n := FrameEnd(src, off, checksum).value;
    var b := DecodeBlock(BlockHeader(src, off));
    var next := off + BLOCK_HEADER_LEN + b.body;
    assert next <= n by {
      if !b.last {
        assert FrameEnd(src, next, checksum).Some?;
      }
    }
    assert BlockHeader(t, off) == BlockHeader(src, off) by {
      assert src[..n][off] == t[..n][off] && src[..n][off + 1] == t[..n][off + 1]
             && src[..n][off + 2] == t[..n][off + 2];
    }
    if !b.last {
      FrameEndExtends(src, t, next, checksum);
    }
  }

  // What follows a complete frame never changes where it ends.
  lemma FrameLenExtends(c: Codec, src: Bytes, t: Bytes)
    requires SelfContained(c) && FrameLen(c, src).Some?
    requires Agree(src, t, FrameLen(c, src).value)
    ensures FrameLen(c, t) == FrameLen(c, src)
  {
    assert HeaderDecides(c, src, t);
    var n := FrameLen(c, src).value;
    var h := c.header(src).value;
    assert h.size <= n;
    assert Agree(src, t, h.size) by {
      assert src[..h.size] == src[..n][..h.size];
      assert t[..h.size] == t[..n][..h.size];
    }
    if !h.skippable {
      FrameEndExtends(src, t, h.size, h.hasChecksum);
    }
  }

  // zstdFrameLen is a prefix code: a frame is within the cap and the input, is
  // recognised whatever follows it, and no strict prefix of it is a frame.
  lemma FrameLenIsPrefixCode(c: Codec, src: Bytes)
    requires SelfContained(c) && FrameLen(c, src).Some?
    ensures var n := FrameLen(c, src).value;
      && 0 < n <= MAX_FRAME_BYTES && n <= |src|
      && (forall x: Bytes :: FrameLen(c, src[..n] + x) == Some(n))
      && (forall k :: 0 <= k < n ==> FrameLen(c, src[..k]) == None)
  {
    assert HeaderDecides(c, src, src);
    var n := FrameLen(c, src).value;
    forall x: Bytes
      ensures FrameLen(c, src[..n] + x) == Some(n)
    {
      assert (src[..n] + x)[..n] == src[..n];
      FrameLenExtends(c, src, src[..n] + x);
    }
    forall k | 0 <= k < n
      ensures FrameLen(c, src[..k]) == None
    {
      var t := src[..k];
      if FrameLen(c, t).Some? {
        var m := FrameLen(c, t).value;
        assert m <= |t|;
        assert t[..m] == src[..m];
        FrameLenExtends(c, t, src);
        assert false;
      }
    }
  }

  lemma FramingIsPrefixCode(c: Codec)
    requires SelfContained(c)
    ensures PrefixCode(FramingOf(c), MAX_FRAME_BYTES)
  {
    forall src: Bytes, t: Bytes
      ensures FrameDecides(FramingOf(c), MAX_FRAME_BYTES, src, t)
    {
      if FrameLen(c, src).Some? {
        FrameLenIsPrefixCode(c, src);
        if Agree(src, t, FrameLen(c, src).value) {
          FrameLenExtends(c, src, t);
        }
      }
    }
  }

  method DecodeZstdPrefix(c: Codec, src: Bytes) returns (plain: Bytes, consumed: nat, failed: bool)
    requires SelfContained(c)
    ensures Walked(plain, consumed, failed) == Walk(FramingOf(c), src, 0)
  {
    AheadWalks(FramingOf(c), src);
    PrependNothing(Walk(FramingOf(c), src, 0));
    plain, consumed, failed := WalkFrames(c, src, Ahead(FramingOf(c), src), Walk(FramingOf(c), src, 0));
  }

  // Its loop.
  method WalkFrames(c: Codec, src: Bytes, ghost ahead: nat -> Walked, ghost goal: Walked)
    returns (plain: Bytes, consumed: nat, failed: bool)
    requires SelfContained(c) && Walks(FramingOf(c), src, ahead) && Tracks(ahead, [], 0, goal)
    ensures Walked(plain, consumed, failed) == goal
  {
    var off := 0;
    plain := [];
    ghost var fr := FramingOf(c);
    while off < |src|
      invariant off <= |src| && Tracks(ahead, plain, off, goal)
    {
      var n, out := NextFrame(c, src, off);
      TrackStops(fr, src, ahead, plain, off, goal, n);
      if n == 0 {
        return plain, off, false;
      }
      if out.None? {
        return plain, off, true;
      }
      TrackFrame(fr, src, ahead, plain, off, goal, n, out.value);
      plain := plain + out.value;
      off := off + n;
    }
    FramingIsPrefixCode(c);
    FrameFits(fr, MAX_FRAME_BYTES, src[off..]);
    TrackStops(fr, src, ahead, plain, off, goal, 0);
    return plain, off, false;
  }

  // The frame at off, decoded; no bytes when there is no complete one.
  method NextFrame(c: Codec, src: Bytes, off: nat) returns (n: nat, out: Option<Bytes>)
    requires SelfContained(c) && off <= |src|
    ensures off + n <= |src| && FramingOf(c).len(src[off..]) == if n > 0 then Some(n) else None
    ensures n > 0 ==> out == FramingOf(c).decode(src[off..off + n])
  {
    var ok;
    n, ok := ZstdFrameLen(c, src[off..]);
    FramingIsPrefixCode(c);
    FrameFits(FramingOf(c), MAX_FRAME_BYTES, src[off..]);
    if !ok {
      return 0, None;
    }
    out := c.decode(src[off..off + n]);
  }
}
