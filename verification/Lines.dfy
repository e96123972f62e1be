// What a batch read of a transcript means: the bytes split at newlines, and
// the usage records those lines carry. Everything the incremental reader does
// is measured against these definitions.
module Lines {
  import opened Base
  import opened Counters

  // agentusage/watch.go bounds one record at 8 MiB, its newline included.
  const MAX_LINE_BYTES: nat := 0x80_0000

  // What a line parser extracts: usage, and the working directory the record
  // names ("" when it names none).
  datatype Record = Record(usage: Values, cwd: string)

  datatype Kind = PerMessage | Cumulative

  // One agent's transcript format. The parsers are foreign code: any function
  // of the line's bytes. A format with a session header keeps the directory
  // there; the others name it on every record.
  datatype Adapter = Adapter(
    kind: Kind,
    parse: Bytes -> Option<Record>,
    header: Option<Bytes -> Option<string>>,
    sameDir: string -> bool)

  // The index of the first newline from i on, or |s| when there is none.
  function FindNewline(s: Bytes, i: nat): (n: nat)
    requires i <= |s|
    ensures i <= n <= |s|
    ensures forall k :: i <= k < n ==> s[k] != NEWLINE
    ensures n < |s| ==> s[n] == NEWLINE
    decreases |s| - i
  {
    if i == |s| || s[i] == NEWLINE then i else FindNewline(s, i + 1)
  }

  function NextNewline(s: Bytes): (n: nat)
    ensures n <= |s|
  {
    FindNewline(s, 0)
  }

  // The newline-terminated lines, newlines dropped.
  function SplitLines(s: Bytes): (ls: seq<Bytes>) {
    var i := NextNewline(s);
    if i == |s| then [] else [s[..i]] + SplitLines(s[i + 1..])
  }

  // What follows the last newline.
  function Rest(s: Bytes): (r: Bytes)
    ensures |r| <= |s|
  {
    var i := NextNewline(s);
    if i == |s| then s else Rest(s[i + 1..])
  }

  function DropReturn(line: Bytes): Bytes {
    if line != [] && line[|line| - 1] == RETURN then line[..|line| - 1] else line
  }

  // The records one complete line contributes: none when it does not parse, or
  // names a directory other than the watcher's.
  function Collect(ad: Adapter, line: Bytes): (recs: seq<Values>) {
    match ad.parse(line)
    case None => []
    case Some(rec) => if rec.cwd != "" && !ad.sameDir(rec.cwd) then [] else [rec.usage]
  }

  // The records of a terminated line: dropped whole when it exceeds the cap.
  function LineRecords(ad: Adapter, line: Bytes): seq<Values> {
    if |line| + 1 <= MAX_LINE_BYTES then Collect(ad, DropReturn(line)) else []
  }

  function RecordsOf(ad: Adapter, lines: seq<Bytes>): seq<Values> {
    if lines == [] then [] else LineRecords(ad, lines[0]) + RecordsOf(ad, lines[1..])
  }

  // One batch read of s: the reference every incremental schedule must match.
  function Batch(ad: Adapter, s: Bytes): seq<Values> {
    RecordsOf(ad, SplitLines(s))
  }

  function Unlines(ls: seq<Bytes>): Bytes {
    if ls == [] then [] else ls[0] + [NEWLINE] + Unlines(ls[1..])
  }

  lemma NextNewlineIs(s: Bytes, i: nat)
    requires i <= |s| && (forall k :: 0 <= k < i ==> s[k] != NEWLINE) && (i < |s| ==> s[i] == NEWLINE)
    ensures NextNewline(s) == i
  {
  }

  // One line and its newline in front of s.
  lemma LineThen(l: Bytes, s: Bytes)
    requires NEWLINE !in l
    ensures SplitLines(l + [NEWLINE] + s) == [l] + SplitLines(s)
    ensures Rest(l + [NEWLINE] + s) == Rest(s)
  {
    var t := l + [NEWLINE] + s;
    NextNewlineIs(t, |l|);
    assert t[..|l|] == l;
    assert t[|l| + 1..] == s;
  }

  lemma {:induction false} RestIsSuffix(s: Bytes)
    ensures Rest(s) == s[|s| - |Rest(s)|..] && NEWLINE !in Rest(s)
  {
    var i := NextNewline(s);
    if i < |s| {
      RestIsSuffix(s[i + 1..]);
    }
  }

  lemma NoNewline(p: Bytes)
    requires NEWLINE !in p
    ensures SplitLines(p) == [] && Rest(p) == p
  {
    NextNewlineIs(p, |p|);
  }

  lemma UnlinesCons(l: Bytes, ls: seq<Bytes>, rest: Bytes)
    ensures Unlines([l] + ls) + rest == l + [NEWLINE] + (Unlines(ls) + rest)
  {
    assert ([l] + ls)[1..] == ls;
    Associative(l + [NEWLINE], Unlines(ls), rest);
  }

  lemma Rejoin(s: Bytes, l: Bytes, t: Bytes, ls: seq<Bytes>, rest: Bytes)
    requires s == l + [NEWLINE] + t && Unlines(ls) + rest == t
    ensures Unlines([l] + ls) + rest == s
  {
    UnlinesCons(l, ls, rest);
  }

  // Splitting loses nothing, and is the only way to cut s into newline-free
  // lines and a newline-free rest.
  lemma {:induction false} SplitIsFaithful(s: Bytes)
    ensures Unlines(SplitLines(s)) + Rest(s) == s
  {
    var i := NextNewline(s);
    if i < |s| {
      var l, t := s[..i], s[i + 1..];
      SplitIsFaithful(t);
      CutAt(s, i);
      Rejoin(s, l, t, SplitLines(t), Rest(t));
    }
  }

  lemma {:induction false} LinesHoldNone(s: Bytes)
    ensures forall l :: l in SplitLines(s) ==> NEWLINE !in l
  {
    var i := NextNewline(s);
    if i < |s| {
      LinesHoldNone(s[i + 1..]);
    }
  }

  lemma {:induction false} SplitIsUnique(ls: seq<Bytes>, rest: Bytes)
    requires forall l :: l in ls ==> NEWLINE !in l
    requires NEWLINE !in rest
    ensures SplitLines(Unlines(ls) + rest) == ls && Rest(Unlines(ls) + rest) == rest
  {
    var s := Unlines(ls) + rest;
    if ls == [] {
      assert s == rest;
      NoNewline(s);
    } else {
      var t := Unlines(ls[1..]) + rest;
      UnlinesCons(ls[0], ls[1..], rest);
      assert ls == [ls[0]] + ls[1..];
      LineThen(ls[0], t);
      SplitIsUnique(ls[1..], rest);
    }
  }

  lemma {:induction false} RecordsOfAppend(ad: Adapter, a: seq<Bytes>, b: seq<Bytes>)
    ensures RecordsOf(ad, a + b) == RecordsOf(ad, a) + RecordsOf(ad, b)
  {
    if a == [] {
      assert a + b == b;
    } else {
      RecordsOfAppend(ad, a[1..], b);
      TailOfAppend(a, b);
      Associative(LineRecords(ad, a[0]), RecordsOf(ad, a[1..]), RecordsOf(ad, b));
    }
  }

  lemma {:induction false} UnlinesAppend(a: seq<Bytes>, b: seq<Bytes>)
    ensures Unlines(a + b) == Unlines(a) + Unlines(b)
  {
    if a == [] {
      assert a + b == b;
    } else {
      UnlinesAppend(a[1..], b);
      TailOfAppend(a, b);
      Associative(a[0] + [NEWLINE], Unlines(a[1..]), Unlines(b));
    }
  }

  // Reading a, then what it left over together with b, is reading a + b.
  lemma SplitAppend(a: Bytes, b: Bytes)
    ensures SplitLines(a + b) == SplitLines(a) + SplitLines(Rest(a) + b)
    ensures Rest(a + b) == Rest(Rest(a) + b)
  {
    SplitIsFaithful(a);
    SplitIsFaithful(Rest(a) + b);
    LinesHoldNone(a);
    LinesHoldNone(Rest(a) + b);
    RestIsSuffix(Rest(a) + b);
    Resplit(a, SplitLines(a), Rest(a), b, SplitLines(Rest(a) + b), Rest(Rest(a) + b));
  }

  lemma Resplit(a: Bytes, la: seq<Bytes>, ra: Bytes, b: Bytes, lb: seq<Bytes>, rb: Bytes)
    requires a == Unlines(la) + ra && ra + b == Unlines(lb) + rb && NEWLINE !in rb
    requires (forall l :: l in la ==> NEWLINE !in l) && (forall l :: l in lb ==> NEWLINE !in l)
    ensures SplitLines(a + b) == la + lb && Rest(a + b) == rb
  {
    UnlinesAppend(la, lb);
    Associative(Unlines(la), ra, b);
    Associative(Unlines(la), Unlines(lb), rb);
    SplitIsUnique(la + lb, rb);
  }

  lemma BatchAppend(ad: Adapter, a: Bytes, b: Bytes)
    ensures Batch(ad, a + b) == Batch(ad, a) + Batch(ad, Rest(a) + b)
    ensures Rest(a + b) == Rest(Rest(a) + b)
  {
    SplitAppend(a, b);
    RecordsOfAppend(ad, SplitLines(a), SplitLines(Rest(a) + b));
  }
}
