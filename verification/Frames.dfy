// Walking concatenated frames: what any self-delimiting code guarantees a
// reader that resumes where it stopped. Zstd.dfy supplies the code.
module Frames {
  import opened Base

  // len is the size of the first complete frame; decode its text.
  datatype Framing = Framing(len: Bytes -> Option<nat>, decode: Bytes -> Option<Bytes>)

  predicate Agree(a: Bytes, b: Bytes, n: nat) {
    n <= |a| && n <= |b| && a[..n] == b[..n]
  }

  predicate FrameDecides(fr: Framing, cap: nat, src: Bytes, t: Bytes) {
    match fr.len(src)
    case None => true
    case Some(n) => 0 < n <= |src| && n <= cap && (Agree(src, t, n) ==> fr.len(t) == Some(n))
  }

  // A frame is non-empty, within the cap, and recognised by its own bytes.
  ghost predicate PrefixCode(fr: Framing, cap: nat) {
    forall src, t :: FrameDecides(fr, cap, src, t)
  }

  // The text of the complete frames from some offset on, where they end, and
  // whether the walk stopped at a frame that does not decompress.
  datatype Walked = Walked(plain: Bytes, end: nat, failed: bool)

  // The size of the frame at off, 0 for none. (A prefix code has no empty
  // frame and none beyond the input.)
  function Front(fr: Framing, src: Bytes, off: nat): (n: nat)
    requires off <= |src|
    ensures off + n <= |src|
  {
    var n := fr.len(src[off..]);
    if n.Some? && off + n.value <= |src| then n.value else 0
  }

  function Walk(fr: Framing, src: Bytes, off: nat): (w: Walked)
    requires off <= |src|
    ensures off <= w.end <= |src|
    decreases |src| - off
  {
    var n := Front(fr, src, off);
    if n == 0 then Walked([], off, false) else
      var out := fr.decode(src[off..off + n]);
      if out.None? then Walked([], off, true)
      else Prepend(out.value, Walk(fr, src, off + n))
  }

  function Prepend(plain: Bytes, w: Walked): Walked {
    w.(plain := plain + w.plain)
  }

  lemma PrependTwice(p: Bytes, q: Bytes, w: Walked)
    ensures Prepend(p, Prepend(q, w)) == Prepend(p + q, w)
  {
  }

  lemma PrependNothing(w: Walked)
    ensures Prepend([], w) == w
  {
  }

  // The walk from every offset, as a value.
  ghost function Ahead(fr: Framing, src: Bytes): nat -> Walked {
    (off: nat) => if off <= |src| then Walk(fr, src, off) else Walked([], off, false)
  }

  // From off the walk goes one frame on, or stops.
  ghost predicate GoesOn(fr: Framing, src: Bytes, ahead: nat -> Walked, off: nat) {
    off <= |src| ==>
      var n := Front(fr, src, off);
      ahead(off) ==
        if n == 0 then Walked([], off, false)
        else if fr.decode(src[off..off + n]).None? then Walked([], off, true)
        else Prepend(fr.decode(src[off..off + n]).value, ahead(off + n))
  }

  ghost predicate Walks(fr: Framing, src: Bytes, ahead: nat -> Walked) {
    forall off: nat :: GoesOn(fr, src, ahead, off)
  }

  lemma AheadWalks(fr: Framing, src: Bytes)
    ensures Walks(fr, src, Ahead(fr, src))
  {
  }

  // Where a loop over the frames stands: plain is the text before off.
  ghost predicate Tracks(ahead: nat -> Walked, plain: Bytes, off: nat, goal: Walked) {
    goal == Prepend(plain, ahead(off))
  }

  lemma TrackFrame(fr: Framing, src: Bytes, ahead: nat -> Walked, plain: Bytes, off: nat, goal: Walked,
                   n: nat, out: Bytes)
    requires Walks(fr, src, ahead) && Tracks(ahead, plain, off, goal) && 0 < n && off + n <= |src|
    requires fr.len(src[off..]) == Some(n) && fr.decode(src[off..off + n]) == Some(out)
    ensures Tracks(ahead, plain + out, off + n, goal)
  {
    assert GoesOn(fr, src, ahead, off);
    PrependTwice(plain, out, ahead(off + n));
  }

  lemma TrackStops(fr: Framing, src: Bytes, ahead: nat -> Walked, plain: Bytes, off: nat, goal: Walked, n: nat)
    requires Walks(fr, src, ahead) && Tracks(ahead, plain, off, goal) && off <= |src|
    ensures fr.len(src[off..]) == None ==> goal == Walked(plain, off, false)
    ensures 0 < n && off + n <= |src| && fr.len(src[off..]) == Some(n) && fr.decode(src[off..off + n]) == None ==>
      goal == Walked(plain, off, true)
  {
    assert GoesOn(fr, src, ahead, off);
    assert plain + [] == plain;
  }

  lemma FrameFits(fr: Framing, cap: nat, src: Bytes)
    requires PrefixCode(fr, cap)
    ensures src == [] ==> fr.len(src) == None
    ensures fr.len(src).Some? ==> 0 < fr.len(src).value <= |src|
  {
    assert FrameDecides(fr, cap, src, src);
  }

  // The frame at off stays the frame at off when bytes are appended.
  lemma FrontExtends(fr: Framing, cap: nat, src: Bytes, t: Bytes, off: nat)
    requires PrefixCode(fr, cap) && src <= t && off <= |src| && Front(fr, src, off) > 0
    ensures var n := Front(fr, src, off);
      Front(fr, t, off) == n && n <= cap && t[off..off + n] == src[off..off + n]
  {
    assert FrameDecides(fr, cap, src[off..], t[off..]);
    SlicesAgree(src, t, off, Front(fr, src, off));
  }

  lemma SlicesAgree(src: Bytes, t: Bytes, off: nat, n: nat)
    requires src <= t && off + n <= |src|
    ensures Agree(src[off..], t[off..], n) && t[off..off + n] == src[off..off + n]
  {
    assert src[off..][..n] == src[off..off + n];
    assert t[off..][..n] == t[off..off + n];
  }

  // Walking more bytes repeats the shorter walk and resumes where it stopped.
  lemma {:induction false} WalkExtends(fr: Framing, cap: nat, src: Bytes, t: Bytes, off: nat)
    requires PrefixCode(fr, cap) && src <= t && off <= |src|
    ensures var w := Walk(fr, src, off); Walk(fr, t, off) == Prepend(w.plain, Walk(fr, t, w.end))
    decreases |src| - off
  {
    var n := Front(fr, src, off);
    PrependNothing(Walk(fr, t, off));
    if n > 0 {
      FrontExtends(fr, cap, src, t, off);
      var out := fr.decode(src[off..off + n]);
      if out.Some? {
        var w := Walk(fr, src, off + n);
        WalkExtends(fr, cap, src, t, off + n);
        PrependTwice(out.value, w.plain, Walk(fr, t, w.end));
      }
    }
  }

  // A walk resumed at its own end finds nothing more.
  lemma {:induction false} WalkIsDone(fr: Framing, src: Bytes, off: nat)
    requires off <= |src|
    ensures var w := Walk(fr, src, off); Walk(fr, src, w.end) == Walked([], w.end, w.failed)
    decreases |src| - off
  {
    var n := Front(fr, src, off);
    if n > 0 && fr.decode(src[off..off + n]).Some? {
      WalkIsDone(fr, src, off + n);
    }
  }

  // Decoding exactly the consumed bytes gives the same text and length.
  lemma {:induction false} WalkOfConsumed(fr: Framing, cap: nat, src: Bytes, off: nat)
    requires PrefixCode(fr, cap) && off <= |src|
    ensures var w := Walk(fr, src, off); Walk(fr, src[..w.end], off) == Walked(w.plain, w.end, false)
    decreases |src| - off
  {
    var w := Walk(fr, src, off);
    var n := Front(fr, src, off);
    var head := src[..w.end];
    if n > 0 && fr.decode(src[off..off + n]).Some? {
      SlicesAgree(head, src, off, n);
      assert FrameDecides(fr, cap, src[off..], head[off..]);
      WalkOfConsumed(fr, cap, src, off + n);
    } else {
      assert FrameDecides(fr, cap, head[off..], head[off..]);
    }
  }

  // A walk of the bytes from o on is the walk of the whole from o.
  lemma {:induction false} WalkShift(fr: Framing, src: Bytes, o: nat, off: nat)
    requires o + off <= |src|
    ensures var w := Walk(fr, src[o..], off); Walk(fr, src, o + off) == w.(end := o + w.end)
    decreases |src| - off
  {
    var tail := src[o..];
    DropDrop(src, o, off);
    var n := Front(fr, tail, off);
    if n > 0 {
      SliceOfDrop(src, o, off, n);
      if fr.decode(tail[off..off + n]).Some? {
        WalkShift(fr, src, o, off + n);
      }
    }
  }

  lemma SliceOfDrop(src: Bytes, o: nat, off: nat, n: nat)
    requires o + off + n <= |src|
    ensures src[o..][off..off + n] == src[o + off..o + off + n]
  {
  }

  ghost predicate WholeFrames(fr: Framing, frames: seq<Bytes>) {
    forall f :: f in frames ==> fr.len(f) == Some(|f|)
  }

  function Concat(parts: seq<Bytes>): Bytes {
    if parts == [] then [] else parts[0] + Concat(parts[1..])
  }

  // Two ways of cutting the same bytes into whole frames are one way.
  lemma {:induction false} FrameSplitIsUnique(fr: Framing, cap: nat, a: seq<Bytes>, b: seq<Bytes>)
    requires PrefixCode(fr, cap) && WholeFrames(fr, a) && WholeFrames(fr, b)
    requires Concat(a) == Concat(b)
    ensures a == b
  {
    if a == [] || b == [] {
      NoEmptyFrames(fr, cap, a);
      NoEmptyFrames(fr, cap, b);
    } else {
      var s := Concat(a);
      AppendAgrees(a[0], Concat(a[1..]));
      AppendAgrees(b[0], Concat(b[1..]));
      assert FrameDecides(fr, cap, a[0], s) && FrameDecides(fr, cap, b[0], s);
      FrameSplitIsUnique(fr, cap, a[1..], b[1..]);
    }
  }

  lemma NoEmptyFrames(fr: Framing, cap: nat, a: seq<Bytes>)
    requires PrefixCode(fr, cap) && WholeFrames(fr, a)
    ensures Concat(a) == [] ==> a == []
  {
    if a != [] {
      assert FrameDecides(fr, cap, a[0], a[0]);
      assert |Concat(a)| == |a[0]| + |Concat(a[1..])|;
    }
  }

  lemma AppendAgrees(a: Bytes, b: Bytes)
    ensures Agree(a, a + b, |a|) && (a + b)[|a|..] == b
  {
  }
}
