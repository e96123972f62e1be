// Attaching to a session whose counters are cumulative: the baseline read from
// the end of the file (seedBaseline, agentusage/watch.go) never lets a watcher
// claim tokens spent before it attached.
module Baseline {
  import opened Base
  import opened Counters
  import opened Lines
  import opened Reader
  import opened Tallies
  import opened Tail
  import opened Torn
  import opened Runs
  import opened ExactlyOnce
  import opened Figures

  // No piece of a line that could count carries a record of its own: it parses
  // to what the whole line carries, or to nothing. A JSON object is such a line.
  ghost predicate Solid(ad: Adapter, size: Positive, line: Bytes) {
    forall i, j :: 0 <= i <= j <= |line| && j - i <= LongestFragment(size) ==>
      Collect(ad, line[i..j]) == [] || Collect(ad, line[i..j]) == LineRecords(ad, line)
  }

  ghost predicate SolidLines(ad: Adapter, size: Positive, content: Bytes) {
    forall l :: l in SplitLines(content) ==> Solid(ad, size, l)
  }

  // Counters that only grow from record to record.
  ghost predicate Rising(recs: seq<Values>, f: Field) {
    forall i, j :: 0 <= i <= j < |recs| ==> Get(recs[i], f) <= Get(recs[j], f)
  }

  lemma PieceOfSolid(ad: Adapter, size: Positive, line: Bytes, i: nat)
    requires Solid(ad, size, line) && i <= |line|
    ensures LineRecords(ad, line[i..]) == [] || LineRecords(ad, line[i..]) == LineRecords(ad, line)
  {
    var l := line[i..];
    assert l == line[i..|line|];
    if l != [] {
      assert l[..|l| - 1] == line[i..|line| - 1];
    }
  }

  // The line a position falls in, when it is a complete one.
  lemma LineIsSolid(ad: Adapter, size: Positive, head: Bytes, tail: Bytes)
    requires SolidLines(ad, size, head + tail) && NextNewline(tail) < |tail|
    ensures Solid(ad, size, LineAt(Rest(head), tail))
  {
    SplitAppend(head, tail);
    RestIsSuffix(head);
    OpenLine(Rest(head), tail);
    assert SplitLines(head + tail)[|SplitLines(head)|] == LineAt(Rest(head), tail);
  }

  // The records after a position inside a complete line: those of the line's
  // remainder, then those of the lines after it.
  lemma RecordsAcross(ad: Adapter, head: Bytes, tail: Bytes) returns (rest: seq<Values>)
    requires NextNewline(tail) < |tail|
    ensures var i := NextNewline(tail);
      && Batch(ad, head + tail) == Batch(ad, head) + (LineRecords(ad, LineAt(Rest(head), tail)) + rest)
      && Batch(ad, tail) == LineRecords(ad, tail[..i]) + rest
  {
    var i := NextNewline(tail);
    rest := RecordsOf(ad, SplitLines(tail[i + 1..]));
    BatchAppend(ad, head, tail);
    RestIsSuffix(head);
    OpenLine(Rest(head), tail);
    BatchCons(ad, LineAt(Rest(head), tail), SplitLines(tail[i + 1..]));
    BatchCons(ad, tail[..i], SplitLines(tail[i + 1..]));
  }

  lemma NoLineAcross(ad: Adapter, head: Bytes, tail: Bytes)
    requires NextNewline(tail) == |tail|
    ensures Batch(ad, tail) == [] && Batch(ad, head + tail) == Batch(ad, head)
  {
    assert tail == tail[..|tail|];
    BatchAppend(ad, head, tail);
    RestIsSuffix(head);
    NoNewline(Rest(head) + tail);
    NoNewline(tail);
  }

  lemma RemainderRecords(ad: Adapter, size: Positive, r: Bytes, tail: Bytes)
    requires Solid(ad, size, LineAt(r, tail))
    ensures var piece := LineRecords(ad, tail[..NextNewline(tail)]);
      piece == [] || piece == LineRecords(ad, LineAt(r, tail))
  {
    assert LineAt(r, tail)[|r|..] == tail[..NextNewline(tail)];
    PieceOfSolid(ad, size, LineAt(r, tail), |r|);
  }

  // Reading from any position yields a tail of the whole file's records, and
  // at most one record more is missing than those of the lines before it.
  lemma TailOfBatch(ad: Adapter, size: Positive, head: Bytes, tail: Bytes) returns (n: nat)
    requires SolidLines(ad, size, head + tail)
    ensures |Batch(ad, head)| <= n <= |Batch(ad, head)| + 1
    ensures n <= |Batch(ad, head + tail)|
    ensures Batch(ad, tail) == Batch(ad, head + tail)[n..]
    ensures Batch(ad, head) <= Batch(ad, head + tail)
    ensures Rest(head) == [] ==> n == |Batch(ad, head)|
  {
    var before := Batch(ad, head);
    if NextNewline(tail) == |tail| {
      NoLineAcross(ad, head, tail);
      n := |before|;
    } else {
      LineIsSolid(ad, size, head, tail);
      RemainderRecords(ad, size, Rest(head), tail);
      assert [] + tail[..NextNewline(tail)] == tail[..NextNewline(tail)];
      var rest := RecordsAcross(ad, head, tail);
      n := DropTo(before, LineRecords(ad, LineAt(Rest(head), tail)),
                  LineRecords(ad, tail[..NextNewline(tail)]), rest);
    }
  }

  lemma DropTo<T>(a: seq<T>, b: seq<T>, piece: seq<T>, c: seq<T>) returns (n: nat)
    requires |b| <= 1 && (piece == [] || piece == b)
    ensures |a| <= n <= |a| + 1 && n <= |a + (b + c)| && (piece == b ==> n == |a|)
    ensures piece + c == (a + (b + c))[n..] && a <= a + (b + c)
  {
    n := if piece == b then |a| else |a| + 1;
  }

  // Batch counts of a prefix never exceed those of the whole.
  lemma BatchOfPrefix(ad: Adapter, content: Bytes, a: nat)
    requires a <= |content|
    ensures Batch(ad, content[..a]) <= Batch(ad, content)
  {
    SplitAt(content, a);
    BatchAppend(ad, content[..a], content[a..]);
  }

  // What seedBaseline reads, a tail of a prefix of the file, is a stretch of
  // the file's records that reaches at least to the end of that prefix.
  lemma SeedIsAStretch(ad: Adapter, size: Positive, content: Bytes, t: nat, e: nat) returns (n: nat, m: nat)
    requires t <= e <= |content| && SolidLines(ad, size, content) && Rest(content) == []
    ensures n <= m <= |Batch(ad, content)| && |Batch(ad, content[..e])| <= m
    ensures Consumed(ad, size, content[..e][t..]).0 == Batch(ad, content)[n..m]
    ensures Rest(content[..e]) == [] ==> m == |Batch(ad, content[..e])|
  {
    SplitAt(content, e);
    var q := Rest(content[..e][t..]);
    if FragmentCounts(ad, size, q) {
      FragmentFits(ad, size, q);
    }
    n, m := SeedStretch(ad, size, content[..e], content[e..], t, FragmentCounts(ad, size, q));
  }

  lemma SeedStretch(ad: Adapter, size: Positive, head: Bytes, tail: Bytes, t: nat, counts: bool)
    returns (n: nat, m: nat)
    requires t <= |head| && SolidLines(ad, size, head + tail) && Rest(head + tail) == []
    requires counts ==> Rest(head[t..]) != [] && |Rest(head[t..])| <= LongestFragment(size)
    ensures n <= m <= |Batch(ad, head + tail)| && |Batch(ad, head)| <= m
    ensures Batch(ad, head[t..]) + (if counts then Collect(ad, Rest(head[t..])) else []) == Batch(ad, head + tail)[n..m]
    ensures Rest(head) == [] ==> m == |Batch(ad, head)|
  {
    n := LinesAreAStretch(ad, size, head, tail, t);
    m := |Batch(ad, head)|;
    RestOfTail(head, t);
    if counts {
      var more := FragmentIsNext(ad, size, head, tail, Rest(head[t..]));
      JoinStretch(Batch(ad, head + tail), n, m, more, Batch(ad, head[t..]), Collect(ad, Rest(head[t..])));
      m := m + more;
    } else {
      assert Batch(ad, head[t..]) + [] == Batch(ad, head[t..]);
    }
  }

  lemma LinesAreAStretch(ad: Adapter, size: Positive, head: Bytes, tail: Bytes, t: nat) returns (n: nat)
    requires t <= |head| && SolidLines(ad, size, head + tail)
    ensures n <= |Batch(ad, head)| <= |Batch(ad, head + tail)|
    ensures Batch(ad, head[t..]) == Batch(ad, head + tail)[n..|Batch(ad, head)|]
  {
    SolidPrefix(ad, size, head, tail);
    SplitAt(head, t);
    n := TailOfBatch(ad, size, head[..t], head[t..]);
    BatchAppend(ad, head, tail);
    StretchOf(Batch(ad, head), Batch(ad, head + tail), n);
  }

  lemma SolidPrefix(ad: Adapter, size: Positive, head: Bytes, tail: Bytes)
    requires SolidLines(ad, size, head + tail)
    ensures SolidLines(ad, size, head)
  {
    SplitAppend(head, tail);
    assert SplitLines(head) <= SplitLines(head + tail);
  }

  lemma StretchOf<T>(a: seq<T>, b: seq<T>, n: nat)
    requires a <= b && n <= |a|
    ensures a[n..] == b[n..|a|]
  {
  }

  lemma JoinStretch<T>(s: seq<T>, n: nat, m: nat, more: nat, a: seq<T>, b: seq<T>)
    requires n <= m && m + more <= |s| && a == s[n..m] && b == s[m..m + more]
    ensures a + b == s[n..m + more]
  {
  }

  // The unfinished line of a tail ends the unfinished line of the whole.
  lemma RestOfTail(head: Bytes, t: nat)
    requires t <= |head|
    ensures var q, r := Rest(head[t..]), Rest(head); |q| <= |r| && q == r[|r| - |q|..]
  {
    var p, src := head[..t], head[t..];
    SplitAt(head, t);
    SplitAppend(p, src);
    RestIsSuffix(p);
    if NextNewline(src) < |src| {
      OpenLine(Rest(p), src);
    } else {
      assert src == src[..|src|];
      NoNewline(Rest(p) + src);
      NoNewline(src);
    }
  }

  // A fragment that counts is, if it carries anything, the file's next record.
  lemma FragmentIsNext(ad: Adapter, size: Positive, head: Bytes, tail: Bytes, q: Bytes) returns (more: nat)
    requires SolidLines(ad, size, head + tail) && Rest(head + tail) == []
    requires q != [] && |q| <= LongestFragment(size)
    requires var r := Rest(head); |q| <= |r| && q == r[|r| - |q|..]
    ensures var p := |Batch(ad, head)|;
      p + more <= |Batch(ad, head + tail)| && Collect(ad, q) == Batch(ad, head + tail)[p..p + more]
  {
    var r := Rest(head);
    if NextNewline(tail) == |tail| {
      SplitAppend(head, tail);
      RestIsSuffix(head);
      assert tail == tail[..|tail|];
      NoNewline(r + tail);
      assert false;
    }
    LineIsSolid(ad, size, head, tail);
    var rest := RecordsAcross(ad, head, tail);
    var line := LineAt(r, tail);
    assert line[|r| - |q|..|r|] == q;
    more := |Collect(ad, q)|;
    NextStretch(Batch(ad, head), LineRecords(ad, line), rest, Collect(ad, q));
  }

  lemma NextStretch<T>(a: seq<T>, b: seq<T>, c: seq<T>, x: seq<T>)
    requires x == [] || x == b
    ensures |a| + |x| <= |a + (b + c)| && x == (a + (b + c))[|a|..|a| + |x|]
  {
  }

  // The baseline is the largest seed record; with none it stays unset.
  lemma {:induction false} SeedIsLargest(base: Option<Values>, recs: seq<Values>, f: Field)
    ensures recs == [] ==> SeedInto(base, recs) == base
    ensures recs != [] || base.Some? ==> SeedInto(base, recs).Some?
    ensures recs != [] ==> Get(SeedInto(base, recs).value, f) as int ==
                           Max(if base.Some? then Get(base.value, f) else 0, Largest(recs, f))
    decreases |recs|
  {
    if recs != [] {
      var b, v := if base.Some? then base.value else NOTHING, recs[0];
      var next := b.(output := if b.output < v.output then v.output else b.output,
                     thinking := if b.thinking < v.thinking then v.thinking else b.thinking,
                     input := if b.input < v.input then v.input else b.input);
      SeedIsLargest(Some(next), recs[1..], f);
    }
  }

  lemma {:induction false} LargestOfRising(recs: seq<Values>, f: Field)
    requires Rising(recs, f) && recs != []
    ensures Largest(recs, f) == Get(recs[|recs| - 1], f)
  {
    if |recs| > 1 {
      LargestOfRising(recs[1..], f);
    }
  }

  lemma LargestOfStretch(recs: seq<Values>, n: nat, m: nat, f: Field)
    requires Rising(recs, f) && n <= m <= |recs|
    ensures n == m ==> Largest(recs[n..m], f) == 0
    ensures n < m ==> Largest(recs[n..m], f) == Get(recs[m - 1], f)
  {
    if n < m {
      LargestOfRising(recs[n..m], f);
    }
  }

  // The heart of the matter, on records alone. All is every record of the
  // file, the first p of them written before attach; the seed saw a stretch
  // reaching past p - 1 or nothing, and the watcher counts from k >= p on. What
  // it shows is what was spent since, exactly when the baseline is the value at
  // attach or nothing was spent.
  lemma NoOvercredit(all: seq<Values>, p: nat, n: nat, m: nat, k: nat, f: Field)
    requires Rising(all, f) && n <= m <= |all| && p <= m && p <= k <= |all|
    ensures var base := SeedInto(None, all[n..m]);
      var shown := Get(Shown(Cumulative, true, base, all[k..]).Seen(), f);
      var before, final := Largest(all[..p], f), Largest(all, f);
      && shown as int <= final - before
      && (shown as int == final - before <==>
            final == before || (k < |all| && Origin(true, base, all[k..], f) as int == before))
      && (m == p && n < m && k == p ==> shown as int == final - before)
  {
    var base := SeedInto(None, all[n..m]);
    OriginAfter(all, p, n, m, k, f);
    LargestOfTail(all, p, k, f);
    ShownFigures(Cumulative, true, base, all[k..], f);
  }

  // The baseline is never below what the counter had reached at attach.
  lemma OriginAfter(all: seq<Values>, p: nat, n: nat, m: nat, k: nat, f: Field)
    requires Rising(all, f) && n <= m <= |all| && p <= m && p <= k <= |all|
    ensures var origin := Origin(true, SeedInto(None, all[n..m]), all[k..], f);
      && (n < m || k < |all| ==> origin as int >= Largest(all[..p], f))
      && (n < m == p ==> origin as int == Largest(all[..p], f))
  {
    LargestOfStretch(all, n, m, f);
    LargestOfPrefix(all, p, f);
    SeedIsLargest(None, all[n..m], f);
  }

  lemma LargestOfPrefix(all: seq<Values>, p: nat, f: Field)
    requires Rising(all, f) && p <= |all|
    ensures Largest(all[..p], f) == if p == 0 then 0 else Get(all[p - 1], f)
  {
    assert all[0..p] == all[..p];
    LargestOfStretch(all, 0, p, f);
  }

  lemma LargestOfTail(all: seq<Values>, p: nat, k: nat, f: Field)
    requires Rising(all, f) && p <= k <= |all|
    ensures Largest(all[..p], f) <= Largest(all, f)
    ensures p == |all| ==> Largest(all[..p], f) == Largest(all, f)
    ensures Largest(all[k..], f) == if k < |all| then Largest(all, f) else 0
  {
    assert all[k..|all|] == all[k..] && all[..|all|] == all;
    LargestOfPrefix(all, p, f);
    LargestOfPrefix(all, |all|, f);
    LargestOfStretch(all, k, |all|, f);
  }

  // What a seed read at or after the attach stat can have seen: the file as it
  // then stood, or nothing, when opening or reading it failed.
  predicate SeedSaw(content: Bytes, attach: nat, seed: Seed) {
    seed.Seed? && seed.body.Whole? ==>
      attach <= seed.size <= |seed.body.bytes| && seed.body.bytes <= content
  }

  // The baseline attach leaves for such a seed.
  function Seeded(ad: Adapter, size: Positive, seed: Seed): Option<Values> {
    SeedInto(None, SeedRecords(ad, size, seed))
  }

  // It is what attach records, and holds the largest value of each counter in
  // the tail the seed read; a seed that read no record leaves none.
  lemma SeededIs(ad: Adapter, size: Positive, n: nat, seed: Seed, f: Field)
    ensures Attached(UNKNOWN, n, SeedRecords(ad, size, seed)).tally.base == Seeded(ad, size, seed)
    ensures seed.Seed? && seed.body.Whole? && seed.size == |seed.body.bytes| ==>
              SeedRecords(ad, size, seed) == Consumed(ad, size, seed.body.bytes[Max(seed.size - 0x4_0000, 0)..]).0
    ensures Seeded(ad, size, seed).Some? <==> SeedRecords(ad, size, seed) != []
    ensures Seeded(ad, size, seed).Some? ==>
              Get(Seeded(ad, size, seed).value, f) == Largest(SeedRecords(ad, size, seed), f)
  {
    SeedIsLargest(None, SeedRecords(ad, size, seed), f);
  }

  // A session already running at attach, its counters only growing, whatever
  // became of its seed read: on any schedule the reported contribution never
  // exceeds what was spent after attach. It equals it when the seed saw the
  // file as it was at attach, newline-terminated, and found a record in it.
  lemma CumulativeNeverOvercredits(ad: Adapter, size: Positive, content: Bytes, attach: nat, seed: Seed,
                                   events: seq<Event>, last: Event, rest: seq<Event>, f: Field)
    requires ad.kind == Cumulative && attach <= |content| && SeedSaw(content, attach, seed)
    requires Orderly(ad, size, content[attach..]) && SolidLines(ad, size, content) && Rest(content) == []
    requires Rising(Batch(ad, content), f)
    requires var fmt := PlainFormat(ad, size);
      && Verdicts(ad, fmt, content, true) && fmt.verdict(content) == Some(true)
      && AppendOnly(attach, events, |content|) && Complete(content, last)
      && AppendOnly(|content|, rest, |content|)
      && Spares(ad, fmt, content, Start(attach, true, Seeded(ad, size, seed)), events)
    ensures var fmt, base := PlainFormat(ad, size), Seeded(ad, size, seed);
      var s := After(ad, fmt, content, Run(ad, fmt, content, Start(attach, true, base), events), last);
      var t := Run(ad, fmt, content, s, rest);
      var before, final := Largest(Batch(ad, content[..attach]), f), Largest(Batch(ad, content), f);
      var reported := Get(t.file.tally.Seen(), f);
      && reported as int <= final - before
      && (reported as int == final - before <==>
            final == before || (t.counted != [] && Origin(true, base, t.counted, f) as int == before))
      && (seed.Seed? && seed.body == Whole(content[..attach]) && Rest(content[..attach]) == [] && base.Some? ==>
            reported as int == final - before)
  {
    var all, p := Batch(ad, content), |Batch(ad, content[..attach])|;
    TerminatedTail(content, attach);
    LineTranscriptsReportOnce(ad, size, content, attach, true, Seeded(ad, size, seed), events, last, rest);
    var n, m := SeedSeen(ad, size, content, attach, seed);
    var k := CountedIsATail(ad, size, content, attach);
    NoOvercredit(all, p, n, m, k, f);
  }

  // A file the run forgets shows its whole counter: too much exactly when some
  // of it was spent before attach.
  lemma ForgottenOvercredits(ad: Adapter, size: Positive, content: Bytes, attach: nat, seed: Seed,
                             events: seq<Event>, last: Event, rest: seq<Event>, f: Field)
    requires ad.kind == Cumulative && attach <= |content|
    requires Orderly(ad, size, content) && Rest(content) == []
    requires var fmt := PlainFormat(ad, size);
      && Verdicts(ad, fmt, content, true) && fmt.verdict(content) == Some(true)
      && AppendOnly(attach, events, |content|) && Complete(content, last)
      && AppendOnly(|content|, rest, |content|)
      && !Spares(ad, fmt, content, Start(attach, true, Seeded(ad, size, seed)), events)
    ensures var fmt, base := PlainFormat(ad, size), Seeded(ad, size, seed);
      var s := After(ad, fmt, content, Run(ad, fmt, content, Start(attach, true, base), events), last);
      var t := Run(ad, fmt, content, s, rest);
      var before, final := Largest(Batch(ad, content[..attach]), f), Largest(Batch(ad, content), f);
      var reported := Get(t.file.tally.Seen(), f);
      && reported as int == final
      && (reported as int <= final - before <==> before == 0)
      && (attach == 0 ==> before == 0)
  {
    ForgottenStartsOver(ad, size, content, attach, true, Seeded(ad, size, seed), events, last, rest);
    ShownFromNothing(Batch(ad, content), f);
    NothingBefore(ad, content, f);
  }

  lemma ShownFromNothing(recs: seq<Values>, f: Field)
    ensures Get(Shown(Cumulative, false, None, recs).Seen(), f) == Largest(recs, f)
  {
    ShownFigures(Cumulative, false, None, recs, f);
  }

  lemma NothingBefore(ad: Adapter, content: Bytes, f: Field)
    ensures Largest(Batch(ad, content[..0]), f) == 0
  {
    NoNewline([]);
    assert content[..0] == [];
  }

  // What the seed read, a stretch of the records; nothing, taken at attach, when
  // it failed.
  lemma SeedSeen(ad: Adapter, size: Positive, content: Bytes, attach: nat, seed: Seed) returns (n: nat, m: nat)
    requires attach <= |content| && SeedSaw(content, attach, seed)
    requires SolidLines(ad, size, content) && Rest(content) == []
    ensures n <= m <= |Batch(ad, content)| && |Batch(ad, content[..attach])| <= m
    ensures SeedRecords(ad, size, seed) == Batch(ad, content)[n..m]
    ensures seed.Seed? && seed.body == Whole(content[..attach]) && Rest(content[..attach]) == [] ==>
              m == |Batch(ad, content[..attach])|
  {
    if seed.Seed? && seed.body.Whole? {
      var e := |seed.body.bytes|;
      assert seed.body.bytes == content[..e];
      PrefixOfBatch(ad, content, attach, e);
      n, m := SeedIsAStretch(ad, size, content, SeedOffset(seed.size), e);
    } else {
      BatchOfPrefix(ad, content, attach);
      n, m := |Batch(ad, content[..attach])|, |Batch(ad, content[..attach])|;
    }
  }

  lemma TerminatedTail(content: Bytes, attach: nat)
    requires attach <= |content| && Rest(content) == []
    ensures Rest(content[attach..]) == []
  {
    if attach < |content| {
      LastByteEndsLine(content, attach);
    } else {
      NoNewline([]);
      assert content[attach..] == [];
    }
  }

  lemma CountedIsATail(ad: Adapter, size: Positive, content: Bytes, attach: nat) returns (k: nat)
    requires attach <= |content| && SolidLines(ad, size, content)
    ensures var p := |Batch(ad, content[..attach])|;
      && p <= k <= |Batch(ad, content)|
      && Batch(ad, content[attach..]) == Batch(ad, content)[k..]
      && Batch(ad, content[..attach]) == Batch(ad, content)[..p]
      && (Rest(content[..attach]) == [] ==> k == p)
  {
    SplitAt(content, attach);
    k := TailOfBatch(ad, size, content[..attach], content[attach..]);
  }

  lemma PrefixOfBatch(ad: Adapter, content: Bytes, a: nat, e: nat)
    requires a <= e <= |content|
    ensures |Batch(ad, content[..a])| <= |Batch(ad, content[..e])|
  {
    assert content[..e][..a] == content[..a];
    BatchOfPrefix(ad, content[..e], a);
  }
}
