// Frames as RFC 8878, section 3.1.1, lays them out: a header, blocks of which
// the last is marked, and perhaps a checksum. The frame walk of
// agentusage/dsh.go finds the end of every frame written so.
module Layout {
  import opened Base
  import opened Zstd

  // Block_Type 0 is raw, 1 a byte repeated, 2 compressed and 3 reserved. The
  // size is what Block_Size says, the payload the bytes that follow: as many, or
  // the one to repeat.
  datatype Content = Content(kind: nat, size: nat, payload: Bytes)

  type Written = b: Content |
    b.kind < 4 && b.size < 0x20_0000 && |b.payload| == if b.kind == 1 then 1 else b.size
    witness Content(0, 0, [])

  // The 24 bits of a block header: the last mark in bit 0, the type in bits 1
  // and 2, the size in the rest.
  function Bits(last: bool, b: Written): (n: nat)
    ensures n < 0x100_0000
  {
    (if last then 1 else 0) + 2 * b.kind + 8 * b.size
  }

  // Three bytes, in little-endian order.
  function ThreeBytes(n: nat): (s: Bytes)
    requires n < 0x100_0000
    ensures |s| == 3
  {
    var low: Byte, mid: Byte, high: Byte := n % 0x100, n / 0x100 % 0x100, n / 0x1_0000;
    [low, mid, high]
  }

  function BlockBytes(last: bool, b: Written): Bytes
  {
    ThreeBytes(Bits(last, b)) + b.payload
  }

  // The blocks one after the other, then the checksum.
  function Laid(blocks: seq<Written>, checksum: Bytes): Bytes {
    if blocks == [] then checksum else BlockBytes(|blocks| == 1, blocks[0]) + Laid(blocks[1..], checksum)
  }

  lemma BytesReadBack(src: Bytes, off: nat, n: nat, more: Bytes)
    requires n < 0x100_0000 && off <= |src| && src[off..] == ThreeBytes(n) + more
    ensures off + 3 <= |src| && off + BLOCK_HEADER_LEN <= |src| && BlockHeader(src, off) == n
    ensures src[off + 3..] == more
  {
    var s := src[off..];
    assert s[0] == src[off] && s[1] == src[off + 1] && s[2] == src[off + 2];
    DropDrop(src, off, 3);
  }

  lemma BitsReadBack(last: bool, b: Written)
    ensures DecodeBlock(Bits(last, b)) == Block(last, b.kind == 3, |b.payload|)
  {
  }

  // What follows a block, and what the walk takes it for.
  lemma BlockReadsBack(src: Bytes, off: nat, last: bool, b: Written, more: Bytes)
    requires off <= |src| && src[off..] == BlockBytes(last, b) + more
    ensures off + BLOCK_HEADER_LEN <= |src|
    ensures DecodeBlock(BlockHeader(src, off)) == Block(last, b.kind == 3, |b.payload|)
    ensures off + 3 + |b.payload| <= |src| && src[off + 3 + |b.payload|..] == more
    ensures BLOCK_HEADER_LEN == 3
  {
    Associative(ThreeBytes(Bits(last, b)), b.payload, more);
    BytesReadBack(src, off, Bits(last, b), b.payload + more);
    BitsReadBack(last, b);
    DropDrop(src, off + 3, |b.payload|);
  }

  // ends is where the frame walk stops, by where its next block stands.
  ghost predicate WalkEnds(ends: nat -> Option<nat>, src: Bytes, checksum: bool) {
    forall off: nat :: StopsAt(ends, src, checksum, off)
  }

  predicate StopsAt(ends: nat -> Option<nat>, src: Bytes, checksum: bool, off: nat) {
    ends(off) == FrameEnd(src, off, checksum)
  }

  lemma EveryStop(ends: nat -> Option<nat>, src: Bytes, checksum: bool)
    requires ends == ((off: nat) => FrameEnd(src, off, checksum))
    ensures WalkEnds(ends, src, checksum)
  {
  }

  // One turn of the walk.
  lemma MoreBlocks(ends: nat -> Option<nat>, src: Bytes, off: nat, b: Written, more: Bytes, checksum: bool)
    requires WalkEnds(ends, src, checksum) && off <= |src| && src[off..] == BlockBytes(false, b) + more
    ensures var next := off + 3 + |b.payload|;
      && next <= |src| && src[next..] == more
      && ends(off) == if b.kind == 3 || next > 0x80_0000 then None else ends(next)
  {
    BlockReadsBack(src, off, false, b, more);
    assert StopsAt(ends, src, checksum, off) && StopsAt(ends, src, checksum, off + 3 + |b.payload|);
  }

  lemma LastBlock(ends: nat -> Option<nat>, src: Bytes, off: nat, b: Written, checksum: Bytes, more: Bytes)
    requires off <= |src| && src[off..] == BlockBytes(true, b) + (checksum + more)
    requires |checksum| in {0, 4} && WalkEnds(ends, src, checksum != [])
    ensures var end := off + 3 + |b.payload| + |checksum|;
      ends(off) == if b.kind == 3 || end > 0x80_0000 then None else Some(end)
  {
    BlockReadsBack(src, off, true, b, checksum + more);
    assert StopsAt(ends, src, checksum != [], off);
  }

  predicate NoneReserved(blocks: seq<Written>) {
    forall b :: b in blocks ==> b.kind != 3
  }

  lemma FirstBlock(blocks: seq<Written>, checksum: Bytes, more: Bytes)
    requires blocks != []
    ensures Laid(blocks, checksum) + more == BlockBytes(|blocks| == 1, blocks[0]) + (Laid(blocks[1..], checksum) + more)
    ensures |Laid(blocks, checksum)| == 3 + |blocks[0].payload| + |Laid(blocks[1..], checksum)|
    ensures NoneReserved(blocks) <==> blocks[0].kind != 3 && NoneReserved(blocks[1..])
  {
    Associative(BlockBytes(|blocks| == 1, blocks[0]), Laid(blocks[1..], checksum), more);
    assert blocks == [blocks[0]] + blocks[1..];
  }

  // The walk over laid-out blocks stops at their end, and the checksum's, unless
  // a type is reserved or the frame passes 8 MiB.
  lemma {:induction false} BlocksEnd(ends: nat -> Option<nat>, src: Bytes, off: nat, blocks: seq<Written>,
                                     checksum: Bytes, more: Bytes)
    requires blocks != [] && off <= |src| && |checksum| in {0, 4} && WalkEnds(ends, src, checksum != [])
    requires src[off..] == Laid(blocks, checksum) + more
    ensures var end := off + |Laid(blocks, checksum)|;
      ends(off) == if end <= 0x80_0000 && NoneReserved(blocks) then Some(end) else None
    decreases |blocks|
  {
    FirstBlock(blocks, checksum, more);
    if |blocks| > 1 {
      MoreBlocks(ends, src, off, blocks[0], Laid(blocks[1..], checksum) + more, checksum != []);
      BlocksEnd(ends, src, off + 3 + |blocks[0].payload|, blocks[1..], checksum, more);
    } else {
      LastBlock(ends, src, off, blocks[0], checksum, more);
    }
  }

  // A frame written by the standard is found whole, whatever follows it: the
  // length comes out as the number of bytes written. A reserved block type or
  // more than 8 MiB gives none.
  lemma WrittenFrameIsFound(c: Codec, header: Bytes, blocks: seq<Written>, checksum: Bytes, more: Bytes)
    requires blocks != [] && |checksum| in {0, 4}
    requires c.header(header + (Laid(blocks, checksum) + more)) ==
             Some(FrameHeader(|header|, checksum != [], false, 0))
    ensures var frame := header + Laid(blocks, checksum);
      FramingOf(c).len(frame + more) ==
      if |frame| <= 0x80_0000 && NoneReserved(blocks) then Some(|frame|) else None
  {
    var src := header + (Laid(blocks, checksum) + more);
    Associative(header, Laid(blocks, checksum), more);
    TailOf(header, Laid(blocks, checksum) + more);
    var ends := (off: nat) => FrameEnd(src, off, checksum != []);
    EveryStop(ends, src, checksum != []);
    BlocksEnd(ends, src, |header|, blocks, checksum, more);
  }

  lemma TailOf(a: Bytes, b: Bytes)
    ensures (a + b)[|a|..] == b
  {
  }
}
