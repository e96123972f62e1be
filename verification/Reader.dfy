// consumeAppend of agentusage/watch.go over Go's buffered ReadSlice: records
// are assembled chunk by chunk, yet come out as a plain line split would give.
module Reader {
  import opened Base
  import opened Counters
  import opened Lines

  // agentusage/watch.go gives bufio 64 KiB; the proofs hold for any size.
  const APPEND_READER_BYTES: nat := 0x1_0000

  // How ReadSlice returned: with the newline, with a full buffer that holds
  // none, at end of file, or on an I/O error.
  datatype Status = Newline | BufferFull | EndOfFile | Failed

  // Exactly one newline, at the end.
  predicate EndsLine(chunk: Bytes) {
    chunk != [] && NEWLINE !in chunk[..|chunk| - 1] && chunk[|chunk| - 1] == NEWLINE
  }

  // bufio.Reader over an open file: data is everything readable from the
  // seek position, broken says the file then fails instead of ending.
  class SliceReader {
    const data: Bytes
    const broken: bool
    const size: nat
    var pos: nat

    constructor (data: Bytes, broken: bool, size: nat)
      requires size > 0
      ensures this.data == data && this.broken == broken && this.size == size && pos == 0
    {
      this.data, this.broken, this.size, pos := data, broken, size, 0;
    }

    ghost predicate Valid()
      reads this
    {
      pos <= |data| && size > 0
    }

    method ReadSlice() returns (chunk: Bytes, status: Status)
      requires Valid()
      modifies this
      ensures Valid() && pos == old(pos) + |chunk| && chunk == data[old(pos)..pos]
      ensures status == Newline ==> EndsLine(chunk) && |chunk| <= size
      ensures status != Newline ==> NEWLINE !in chunk
      ensures status == BufferFull ==> |chunk| == size
      ensures status == EndOfFile || status == Failed ==> pos == |data| && |chunk| < size
      ensures status == EndOfFile ==> !broken
      ensures status == Failed ==> broken
    {
      var left := data[pos..];
      var i := NextNewline(left);
      if i < |left| && i < size {
        chunk, status := left[..i + 1], Newline;
      } else if |left| >= size {
        chunk, status := left[..size], BufferFull;
      } else {
        chunk, status := left, if broken then Failed else EndOfFile;
      }
      pos := pos + |chunk|;
    }
  }

  // A trailing fragment counts when it parses in full. Its last chunk must not
  // be empty, so a fragment that exactly fills the buffer waits for more.
  predicate FragmentCounts(ad: Adapter, size: nat, rest: Bytes)
    requires size > 0
  {
    |rest| <= MAX_LINE_BYTES && |rest| % size != 0 && ad.parse(rest).Some?
  }

  // The longest fragment that can count: at the cap only when the buffer does
  // not divide it.
  function LongestFragment(size: nat): (n: nat)
    requires size > 0
    ensures MAX_LINE_BYTES - 1 <= n <= MAX_LINE_BYTES
  {
    if MAX_LINE_BYTES % size == 0 then MAX_LINE_BYTES - 1 else MAX_LINE_BYTES
  }

  lemma FragmentFits(ad: Adapter, size: nat, rest: Bytes)
    requires size > 0 && FragmentCounts(ad, size, rest)
    ensures |rest| <= LongestFragment(size)
  {
  }

  // The specification: which records src yields and how many bytes are done.
  function Consumed(ad: Adapter, size: nat, src: Bytes): (r: (seq<Values>, nat))
    requires size > 0
    ensures r.1 <= |src|
  {
    var rest := Rest(src);
    if FragmentCounts(ad, size, rest)
    then (Batch(ad, src) + Collect(ad, rest), |src|)
    else (Batch(ad, src), |src| - |rest|)
  }

  // Where the loop stands: done holds whole lines, all collected; current is
  // the line being assembled, and line holds it unless the cap was passed.
  ghost predicate Reading(ad: Adapter, size: nat, done: Bytes, current: Bytes,
                          line: Bytes, discard: bool, recs: seq<Values>)
  {
    && Rest(done) == []
    && recs == Batch(ad, done)
    && NEWLINE !in current
    && size > 0 && |current| % size == 0
    && (discard <==> |current| > MAX_LINE_BYTES)
    && (!discard ==> line == current)
  }

  lemma Remainder(q: nat, size: nat, c: nat)
    requires c < size
    ensures (q * size + c) / size == q && (q * size + c) % size == c
  {
    var n := q * size + c;
    var d := n / size - q;
    assert n == (n / size) * size + n % size;
    assert d * size == c - n % size;
    assert d > 0 ==> d * size >= size;
    assert d < 0 ==> d * size + size <= 0;
  }

  // One more full buffer, or a last partial one.
  lemma ChunkRemainder(k: nat, size: nat, c: nat)
    requires size > 0 && k % size == 0 && c < size
    ensures (k + size) % size == 0 && (k + c) % size == c
  {
    var q := k / size;
    Remainder(q, size, c);
    Remainder(q + 1, size, 0);
    assert (q + 1) * size == q * size + size;
  }

  // A newline closes the current line: the batch over the longer prefix gains
  // exactly that line's records.
  lemma LineCloses(ad: Adapter, done: Bytes, l: Bytes)
    requires Rest(done) == [] && NEWLINE !in l
    ensures Rest(done + (l + [NEWLINE])) == []
    ensures Batch(ad, done + (l + [NEWLINE])) == Batch(ad, done) + LineRecords(ad, l)
  {
    BatchAppend(ad, done, l + [NEWLINE]);
    assert Rest(done) + (l + [NEWLINE]) == l + [NEWLINE];
    OneLine(ad, l);
  }

  lemma OneLine(ad: Adapter, l: Bytes)
    requires NEWLINE !in l
    ensures Rest(l + [NEWLINE]) == [] && SplitLines(l + [NEWLINE]) == [l]
    ensures Batch(ad, l + [NEWLINE]) == LineRecords(ad, l)
  {
    assert l + [NEWLINE] + [] == l + [NEWLINE];
    LineThen(l, []);
    assert RecordsOf(ad, [l]) == LineRecords(ad, l) + RecordsOf(ad, []);
  }

  // At end of file the current line is the fragment, and the batch is done.
  lemma FragmentIsRest(ad: Adapter, done: Bytes, r: Bytes)
    requires Rest(done) == [] && NEWLINE !in r
    ensures Rest(done + r) == r
    ensures Batch(ad, done + r) == Batch(ad, done)
  {
    BatchAppend(ad, done, r);
    assert Rest(done) + r == r;
    NoNewline(r);
  }

  // A full buffer without a newline: the line grows, or passes the cap.
  lemma Assembles(ad: Adapter, size: nat, done: Bytes, current: Bytes, line: Bytes, discard: bool,
                  recs: seq<Values>, chunk: Bytes, line': Bytes, discard': bool)
    requires Reading(ad, size, done, current, line, discard, recs)
    requires NEWLINE !in chunk && |chunk| == size
    requires discard ==> discard'
    requires !discard ==> discard' == (|line + chunk| > MAX_LINE_BYTES)
    requires !discard && !discard' ==> line' == line + chunk
    ensures Reading(ad, size, done, current + chunk, line', discard', recs)
  {
    ChunkRemainder(|current|, size, 0);
  }

  lemma Closes(ad: Adapter, size: nat, done: Bytes, current: Bytes, line: Bytes, discard: bool,
               recs: seq<Values>, chunk: Bytes, recs': seq<Values>)
    requires Reading(ad, size, done, current, line, discard, recs)
    requires EndsLine(chunk)
    requires recs' == recs + if discard || |line + chunk| > MAX_LINE_BYTES then []
                             else Collect(ad, DropReturn((line + chunk)[..|line + chunk| - 1]))
    ensures Reading(ad, size, done + (current + chunk), [], [], false, recs')
  {
    var l := current + chunk[..|chunk| - 1];
    assert current + chunk == l + [NEWLINE];
    assert !discard ==> (line + chunk)[..|line + chunk| - 1] == l;
    LineCloses(ad, done, l);
  }

  lemma Ends(ad: Adapter, size: nat, done: Bytes, current: Bytes, line: Bytes, discard: bool,
             recs: seq<Values>, chunk: Bytes)
    requires Reading(ad, size, done, current, line, discard, recs)
    requires NEWLINE !in chunk && |chunk| < size
    ensures
      var counts := !discard && chunk != [] && |line + chunk| <= MAX_LINE_BYTES && ad.parse(line + chunk).Some?;
      && (counts ==> Consumed(ad, size, done + (current + chunk)) ==
                     (recs + Collect(ad, line + chunk), |done| + |current| + |chunk|))
      && (!counts ==> Consumed(ad, size, done + (current + chunk)) == (recs, |done|))
  {
    FragmentIsRest(ad, done, current + chunk);
    ChunkRemainder(|current|, size, |chunk|);
  }

  lemma Advances(data: Bytes, from: nat, to: nat, done: Bytes, current: Bytes, chunk: Bytes)
    requires from <= to <= |data| && data[..from] == done + current && data[from..to] == chunk
    ensures data[..to] == done + (current + chunk) == done + (current + chunk) + []
    ensures to == |data| ==> data == done + (current + chunk)
    ensures to == |done| + |current| + |chunk|
  {
    assert data[..to] == data[..from] + data[from..to];
  }

  method ConsumeAppend(ad: Adapter, br: SliceReader, off: nat)
    returns (recs: seq<Values>, complete: nat, ok: bool)
    requires br.Valid() && br.pos == 0
    modifies br
    ensures ok == !br.broken
    ensures ok ==> recs == Consumed(ad, br.size, br.data).0
    ensures ok ==> complete == off + Consumed(ad, br.size, br.data).1
  {
    var line: Bytes, discard, pos := [], false, off;
    recs, complete := [], off;
    ghost var done: Bytes, current: Bytes := [], [];
    while true
      invariant br.Valid() && pos == off + br.pos && complete == off + |done|
      invariant br.data[..br.pos] == done + current
      invariant Reading(ad, br.size, done, current, line, discard, recs)
      decreases |br.data| - br.pos
    {
      ghost var from, line0, discard0, recs0 := br.pos, line, discard, recs;
      var chunk, status := br.ReadSlice();
      pos := pos + |chunk|;
      Advances(br.data, from, br.pos, done, current, chunk);
      if status == BufferFull {
        if !discard {
          line := line + chunk;
          if |line| > MAX_LINE_BYTES {
            discard := true;
            line := [];
          }
        }
        Assembles(ad, br.size, done, current, line0, discard0, recs, chunk, line, discard);
        current := current + chunk;
        continue;
      }
      if status == Newline {
        if !discard {
          line := line + chunk;
          if |line| > MAX_LINE_BYTES {
            discard := true;
          } else {
            recs := recs + Collect(ad, DropReturn(line[..|line| - 1]));
          }
        }
        Closes(ad, br.size, done, current, line0, discard0, recs0, chunk, recs);
        discard := false;
        line := [];
        complete := pos;
        done, current := done + (current + chunk), [];
        continue;
      }
      if status == EndOfFile {
        Ends(ad, br.size, done, current, line, discard, recs, chunk);
        if !discard && |chunk| > 0 {
          line := line + chunk;
          if |line| <= MAX_LINE_BYTES {
            if ad.parse(line).Some? {
              recs := recs + Collect(ad, line);
              complete := pos;
            }
          }
        }
        return recs, complete, true;
      }
      return [], 0, false;
    }
  }
}
