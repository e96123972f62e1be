// Why reading a growing file in pieces counts each line once: the torn-tail
// rule of consumeAppend (agentusage/watch.go), one read after another.
module Torn {
  import opened Base
  import opened Counters
  import opened Lines
  import opened Reader

  // What the early commit of a trailing fragment relies on. When a prefix of a
  // line that can count as a fragment parses, the line carries the same record,
  // and what is left of it parses to nothing. One JSON object with white space
  // around it is such a line; so is a record past the cap, which nothing of
  // fragment length can be cut from.
  ghost predicate Tearable(ad: Adapter, size: Positive, line: Bytes) {
    forall c: nat :: Early(ad, size, line, c) ==>
      LineRecords(ad, line) == Collect(ad, line[..c]) && Inert(ad, size, line, c)
  }

  // No piece of the line from c on that could count parses.
  ghost predicate Inert(ad: Adapter, size: Positive, line: Bytes, c: nat) {
    forall i, j :: c <= i <= j <= |line| && j - i <= LongestFragment(size) ==> ad.parse(line[i..j]) == None
  }

  ghost predicate Orderly(ad: Adapter, size: Positive, content: Bytes) {
    Tearable(ad, size, Rest(content)) && forall l :: l in SplitLines(content) ==> Tearable(ad, size, l)
  }

  // The first c bytes of the line r can be counted as a fragment.
  predicate Early(ad: Adapter, size: Positive, r: Bytes, c: nat) {
    0 < c <= |r| && c <= LongestFragment(size) && ad.parse(r[..c]).Some?
  }

  // done has been read and acc counted from it: every whole line, and at most
  // one fragment, early, of the line still open.
  ghost predicate Committed(ad: Adapter, size: Positive, done: Bytes, acc: seq<Values>) {
    var r := Rest(done);
    if r == [] then acc == Batch(ad, done)
    else exists c: nat :: Early(ad, size, r, c) && acc == Batch(ad, done) + Collect(ad, r[..c])
  }

  // Dropping the unfinished line loses no record.
  lemma WholeLines(ad: Adapter, x: Bytes)
    ensures var y := x[..|x| - |Rest(x)|]; Rest(y) == [] && Batch(ad, y) == Batch(ad, x)
  {
    var ls := SplitLines(x);
    SplitIsFaithful(x);
    LinesHoldNone(x);
    TakeFront(Unlines(ls), Rest(x));
    SplitIsUnique(ls, []);
    assert Unlines(ls) + [] == Unlines(ls);
  }

  lemma TakeFront<T>(a: seq<T>, b: seq<T>)
    ensures (a + b)[..|a + b| - |b|] == a
  {
  }

  // What one read leaves behind, when what it counted agrees with the batch.
  lemma ReadLeaves(ad: Adapter, size: Positive, done: Bytes, src: Bytes, acc: seq<Values>)
    requires acc + Batch(ad, src) == Batch(ad, done + src) && Rest(done + src) == Rest(src)
    ensures var r := Consumed(ad, size, src); Committed(ad, size, done + src[..r.1], acc + r.0)
  {
    var q, r := Rest(src), Consumed(ad, size, src);
    if FragmentCounts(ad, size, q) {
      WholeTake(src);
      WholeTake(q);
      FragmentFits(ad, size, q);
      assert r.0 == Batch(ad, src) + Collect(ad, q) && src[..r.1] == src;
      FragmentCommitted(ad, size, done + src, q, acc, Batch(ad, src));
    } else {
      assert r.0 == Batch(ad, src) && r.1 == |src| - |q|;
      LinesLeft(ad, size, done, src, acc + r.0);
    }
  }

  lemma WholeTake<T>(s: seq<T>)
    ensures s[..|s|] == s
  {
  }

  lemma LinesLeft(ad: Adapter, size: Positive, done: Bytes, src: Bytes, acc: seq<Values>)
    requires acc == Batch(ad, done + src) && Rest(done + src) == Rest(src)
    ensures Committed(ad, size, done + src[..|src| - |Rest(src)|], acc)
  {
    WholeLines(ad, done + src);
    TakeShorter(done, src, |Rest(src)|);
    LinesCommitted(ad, size, done + src[..|src| - |Rest(src)|], acc);
  }

  lemma FragmentCommitted(ad: Adapter, size: Positive, done: Bytes, q: Bytes, acc: seq<Values>, recs: seq<Values>)
    requires Rest(done) == q && Early(ad, size, q, |q|) && acc + recs == Batch(ad, done)
    ensures Committed(ad, size, done, acc + (recs + Collect(ad, q)))
  {
    assert q[..|q|] == q;
    Associative(acc, recs, Collect(ad, q));
  }

  lemma LinesCommitted(ad: Adapter, size: Positive, done: Bytes, acc: seq<Values>)
    requires Rest(done) == [] && acc == Batch(ad, done)
    ensures Committed(ad, size, done, acc)
  {
  }

  lemma TakeShorter<T>(a: seq<T>, b: seq<T>, n: nat)
    requires n <= |b|
    ensures (a + b)[..|a + b| - n] == a + b[..|b| - n]
  {
  }

  // Reading on from a line boundary.
  lemma AdvanceAligned(ad: Adapter, size: Positive, done: Bytes, src: Bytes, acc: seq<Values>)
    requires Committed(ad, size, done, acc) && Rest(done) == []
    ensures var r := Consumed(ad, size, src); Committed(ad, size, done + src[..r.1], acc + r.0)
  {
    BatchAppend(ad, done, src);
    assert Rest(done) + src == src;
    ReadLeaves(ad, size, done, src, acc);
  }

  // The line a position falls in, whole.
  function LineAt(r: Bytes, more: Bytes): Bytes {
    r + more[..NextNewline(more)]
  }

  lemma LineAtIsALine(done: Bytes, more: Bytes)
    ensures LineAt(Rest(done), more) in SplitLines(done + more) || LineAt(Rest(done), more) == Rest(done + more)
  {
    var r, i := Rest(done), NextNewline(more);
    SplitAppend(done, more);
    RestIsSuffix(done);
    if i < |more| {
      CutAt(more, i);
      OpenLine(r, more);
    } else {
      assert more[..i] == more;
      assert NEWLINE !in more;
      NoNewline(r + more);
    }
  }

  // A newline in more closes the open line r.
  lemma OpenLine(r: Bytes, more: Bytes)
    requires NEWLINE !in r && NextNewline(more) < |more|
    ensures var i := NextNewline(more);
      && SplitLines(r + more) == [r + more[..i]] + SplitLines(more[i + 1..])
      && Rest(r + more) == Rest(more[i + 1..])
      && SplitLines(more) == [more[..i]] + SplitLines(more[i + 1..])
      && Rest(more) == Rest(more[i + 1..])
  {
    var i := NextNewline(more);
    CutAt(more, i);
    assert r + more == (r + more[..i]) + [NEWLINE] + more[i + 1..];
    assert NEWLINE !in more[..i];
    LineThen(r + more[..i], more[i + 1..]);
  }

  lemma BatchCons(ad: Adapter, l: Bytes, ls: seq<Bytes>)
    ensures RecordsOf(ad, [l] + ls) == LineRecords(ad, l) + RecordsOf(ad, ls)
  {
    TailOfAppend([l], ls);
  }

  // Reading on inside a line whose fragment was counted early.
  lemma AdvanceTorn(ad: Adapter, size: Positive, done: Bytes, src: Bytes, acc: seq<Values>, line: Bytes, c: nat)
    requires var r := Rest(done); Early(ad, size, r, c) && acc == Batch(ad, done) + Collect(ad, r[..c])
    requires LineAt(Rest(done), src) <= line && Tearable(ad, size, line)
    requires NextNewline(src) < |src| ==> line == LineAt(Rest(done), src)
    ensures var k := Consumed(ad, size, src); Committed(ad, size, done + src[..k.1], acc + k.0)
  {
    assert Rest(done)[..c] == line[..c];
    assert Inert(ad, size, line, c);
    if NextNewline(src) == |src| {
      StillOpen(ad, size, done, src, acc, line, c);
    } else {
      assert src[..NextNewline(src)] == line[|Rest(done)|..];
      InertLine(ad, size, line, c, |Rest(done)|);
      Closes(ad, done, src, acc, Collect(ad, Rest(done)[..c]));
      ReadLeaves(ad, size, done, src, acc);
    }
  }

  lemma StillOpen(ad: Adapter, size: Positive, done: Bytes, src: Bytes, acc: seq<Values>, line: Bytes, c: nat)
    requires Committed(ad, size, done, acc) && NextNewline(src) == |src|
    requires Rest(done) + src <= line && c <= |Rest(done)| && Inert(ad, size, line, c)
    ensures var k := Consumed(ad, size, src); Committed(ad, size, done + src[..k.1], acc + k.0)
  {
    DeadFragment(ad, size, line, c, |Rest(done)|, src);
    NextNewlineNone(src);
    NothingInRest(ad, size, src);
    assert done + src[..0] == done && acc + [] == acc;
  }

  lemma NextNewlineNone(src: Bytes)
    requires NextNewline(src) == |src|
    ensures NEWLINE !in src
  {
    assert src[..|src|] == src;
  }

  // No piece of the inert part of a line counts as a fragment.
  lemma DeadFragment(ad: Adapter, size: Positive, line: Bytes, c: nat, i: nat, src: Bytes)
    requires Inert(ad, size, line, c) && c <= i && i + |src| <= |line| && line[..i] + src <= line
    ensures !FragmentCounts(ad, size, src)
  {
    assert (line[..i] + src)[i..] == src == line[i..i + |src|];
    if FragmentCounts(ad, size, src) {
      FragmentFits(ad, size, src);
    }
  }

  // The line that was open ends in src, carrying what was counted of it, and
  // its remainder carries nothing.
  lemma Closes(ad: Adapter, done: Bytes, src: Bytes, acc: seq<Values>, early: seq<Values>)
    requires NextNewline(src) < |src| && acc == Batch(ad, done) + early
    requires LineRecords(ad, LineAt(Rest(done), src)) == early && LineRecords(ad, src[..NextNewline(src)]) == []
    ensures acc + Batch(ad, src) == Batch(ad, done + src) && Rest(done + src) == Rest(src)
  {
    var i := NextNewline(src);
    RestIsSuffix(done);
    OpenLine(Rest(done), src);
    SplitAppend(done, src);
    BatchAppend(ad, done, src);
    var ls := SplitLines(src[i + 1..]);
    BatchCons(ad, LineAt(Rest(done), src), ls);
    BatchCons(ad, src[..i], ls);
    Regroup(Batch(ad, done), early, RecordsOf(ad, ls));
  }

  // The remainder of a torn line contributes nothing when it is read as a line.
  lemma InertLine(ad: Adapter, size: Positive, line: Bytes, c: nat, i: nat)
    requires Inert(ad, size, line, c) && c <= i <= |line|
    ensures LineRecords(ad, line[i..]) == []
  {
    var l := line[i..];
    assert l == line[i..|line|];
    if l != [] {
      assert l[..|l| - 1] == line[i..|line| - 1];
    }
  }

  lemma Regroup<T>(a: seq<T>, x: seq<T>, t: seq<T>)
    ensures (a + x) + ([] + t) == a + (x + t)
  {
  }

  // One more read, from wherever the last one stopped to wherever the file had
  // grown: the commitment carries over. The file counts from a on.
  lemma Advance(ad: Adapter, size: Positive, content: Bytes, a: nat, o: nat, src: Bytes, acc: seq<Values>)
    requires a <= o && o + |src| <= |content| && src == content[o..o + |src|]
    requires Orderly(ad, size, content[a..]) && Committed(ad, size, content[a..o], acc)
    ensures var k := Consumed(ad, size, src); Committed(ad, size, content[a..o + k.1], acc + k.0)
  {
    SliceThenTake(content, a, o, src, Consumed(ad, size, src).1);
    AdvanceFrom(ad, size, content[a..], content[a..o], src, content[o..], acc);
  }

  lemma AdvanceFrom(ad: Adapter, size: Positive, content: Bytes, done: Bytes, src: Bytes, more: Bytes, acc: seq<Values>)
    requires content == done + more && src <= more && Orderly(ad, size, content) && Committed(ad, size, done, acc)
    ensures var k := Consumed(ad, size, src); Committed(ad, size, done + src[..k.1], acc + k.0)
  {
    if Rest(done) == [] {
      AdvanceAligned(ad, size, done, src, acc);
    } else {
      AdvanceOpen(ad, size, content, done, src, more, acc);
    }
  }

  lemma SliceThenTake(content: Bytes, a: nat, o: nat, src: Bytes, k: nat)
    requires a <= o && o + |src| <= |content| && src == content[o..o + |src|] && k <= |src|
    ensures content[a..o + k] == content[a..o] + src[..k]
    ensures content[a..] == content[a..o] + content[o..] && src <= content[o..]
  {
  }

  lemma AdvanceOpen(ad: Adapter, size: Positive, content: Bytes, done: Bytes, src: Bytes, more: Bytes, acc: seq<Values>)
    requires content == done + more && src <= more && Rest(done) != []
    requires Orderly(ad, size, content) && Committed(ad, size, done, acc)
    ensures var k := Consumed(ad, size, src); Committed(ad, size, done + src[..k.1], acc + k.0)
  {
    var c: nat :| Early(ad, size, Rest(done), c) && acc == Batch(ad, done) + Collect(ad, Rest(done)[..c]);
    OpenLineIsTearable(ad, size, content, done, more);
    LineGrows(Rest(done), src, more);
    AdvanceTorn(ad, size, done, src, acc, LineAt(Rest(done), more), c);
  }

  lemma OpenLineIsTearable(ad: Adapter, size: Positive, content: Bytes, done: Bytes, more: Bytes)
    requires content == done + more && Orderly(ad, size, content)
    ensures Tearable(ad, size, LineAt(Rest(done), more))
  {
    LineAtIsALine(done, more);
  }

  lemma LineGrows(r: Bytes, src: Bytes, more: Bytes)
    requires src <= more
    ensures LineAt(r, src) <= LineAt(r, more)
    ensures NextNewline(src) < |src| ==> LineAt(r, more) == LineAt(r, src)
  {
    if NextNewline(src) < |src| {
      NextNewlineIs(more, NextNewline(src));
    } else {
      assert forall k :: 0 <= k < |src| ==> more[k] == src[k];
    }
  }

  // A read right after a read of the same bytes does nothing.
  lemma ReadTwice(ad: Adapter, size: Positive, src: Bytes)
    ensures var k := Consumed(ad, size, src).1; Consumed(ad, size, src[k..]) == ([], 0)
  {
    var q := Rest(src);
    RestIsSuffix(src);
    if FragmentCounts(ad, size, q) {
      assert src[|src|..] == [];
      NothingInRest(ad, size, []);
    } else {
      NothingInRest(ad, size, q);
    }
  }

  lemma NothingInRest(ad: Adapter, size: Positive, q: Bytes)
    requires NEWLINE !in q && !FragmentCounts(ad, size, q)
    ensures Consumed(ad, size, q) == ([], 0)
  {
    NoNewline(q);
  }
}
