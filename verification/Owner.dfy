// The header scan of owns (agentusage/watch.go): which working directory a
// line transcript belongs to, and when that verdict is final.
module Owner {
  import opened Base
  import opened Lines

  const OWNER_SCAN_LINES: nat := 20
  // The scanner's buffer: a line of this many bytes or more ends the scan.
  const MAX_TOKEN: nat := 0x40_0000

  // Every line the scanner can see, an unterminated last one included.
  function RawLines(content: Bytes): seq<Bytes> {
    SplitLines(content) + if Rest(content) == [] then [] else [Rest(content)]
  }

  datatype Scan = Undecided | Refused | Found(cwd: string)

  // The scan after `lines` lines carried no header.
  function ScanFrom(header: Bytes -> Option<string>, raw: seq<Bytes>, lines: nat): Scan {
    if lines >= OWNER_SCAN_LINES then Refused
    else if raw == [] || |raw[0]| >= MAX_TOKEN then Undecided
    else match header(DropReturn(raw[0]))
      case Some(cwd) => Found(cwd)
      case None => ScanFrom(header, raw[1..], lines + 1)
  }

  // None: no verdict yet, ask again. Some(mine): cached for good.
  function Verdict(header: Bytes -> Option<string>, sameDir: string -> bool, content: Bytes): Option<bool> {
    match ScanFrom(header, RawLines(content), 0)
    case Undecided => None
    case Refused => Some(false)
    case Found(cwd) => Some(sameDir(cwd))
  }

  method ScanOwner(header: Bytes -> Option<string>, sameDir: string -> bool, content: Bytes)
    returns (mine: bool, decided: bool)
    ensures decided == Verdict(header, sameDir, content).Some?
    ensures decided ==> mine == Verdict(header, sameDir, content).value
    ensures !decided ==> !mine
  {
    var raw := RawLines(content);
    var lines := 0;
    while lines < OWNER_SCAN_LINES && lines < |raw| && |raw[lines]| < MAX_TOKEN
      invariant lines <= |raw| && lines <= OWNER_SCAN_LINES
      invariant ScanFrom(header, raw, 0) == ScanFrom(header, raw[lines..], lines)
    {
      var cwd := header(DropReturn(raw[lines]));
      if cwd.Some? {
        return sameDir(cwd.value), true;
      }
      assert raw[lines..][1..] == raw[lines + 1..];
      lines := lines + 1;
    }
    if lines < OWNER_SCAN_LINES {
      return false, false;
    }
    return false, true;
  }

  // A half-written line shows its own header or none, never another one.
  ghost predicate HonestPrefix(header: Bytes -> Option<string>, line: Bytes) {
    forall k :: 0 <= k <= |line| ==>
      var h := header(DropReturn(line[..k]));
      h == None || h == header(DropReturn(line))
  }

  // Line h of raw is the header: the first line to carry one, reachable by the
  // scanner, with every line up to it honest while half-written.
  ghost predicate HeaderAt(header: Bytes -> Option<string>, raw: seq<Bytes>, h: nat) {
    && h < |raw|
    && header(DropReturn(raw[h])).Some?
    && (forall k :: 0 <= k < h ==> header(DropReturn(raw[k])) == None)
    && (forall k :: 0 <= k <= h ==> |raw[k]| < MAX_TOKEN && HonestPrefix(header, raw[k]))
  }

  // What a poll sees of raw while the file is being written: some whole lines
  // and a torn piece of the next.
  ghost predicate TornView(seen: seq<Bytes>, raw: seq<Bytes>) {
    || seen <= raw
    || (0 < |seen| <= |raw| && seen[..|seen| - 1] <= raw && [] != seen[|seen| - 1] <= raw[|seen| - 1])
  }

  lemma {:induction false} TornScan(header: Bytes -> Option<string>, seen: seq<Bytes>, raw: seq<Bytes>, h: nat,
                                    lines: nat)
    requires HeaderAt(header, raw, h) && TornView(seen, raw)
    requires lines + h < OWNER_SCAN_LINES - 1
    ensures ScanFrom(header, seen, lines) == Undecided
         || ScanFrom(header, seen, lines) == Found(header(DropReturn(raw[h])).value)
    ensures seen <= raw && h < |seen| ==>
              ScanFrom(header, seen, lines) == Found(header(DropReturn(raw[h])).value)
    decreases |seen|
  {
    if seen != [] {
      TornHead(seen, raw);
      HonestHead(header, raw[0], seen[0]);
      if header(DropReturn(seen[0])).None? && h > 0 {
        HeaderTail(header, raw, h);
        TornScan(header, seen[1..], raw[1..], h - 1, lines + 1);
      }
    }
  }

  // The lines the scan can reach from its line n on are within its buffer, and
  // honest while half-written.
  ghost predicate HonestFrom(header: Bytes -> Option<string>, raw: seq<Bytes>, n: nat) {
    forall k :: 0 <= k < |raw| && n + k < OWNER_SCAN_LINES ==> |raw[k]| < MAX_TOKEN && HonestPrefix(header, raw[k])
  }

  // Half-written, the line can pass for one without a header.
  ghost predicate CanHide(header: Bytes -> Option<string>, line: Bytes) {
    header(DropReturn(line)).Some? && exists c :: 0 < c < |line| && header(DropReturn(line[..c])) == None
  }

  // The first header is on the scan's last line, and can hide there.
  ghost predicate HidesAtEnd(header: Bytes -> Option<string>, raw: seq<Bytes>, n: nat) {
    var last := OWNER_SCAN_LINES - 1 - n;
    && 0 <= last < |raw| && CanHide(header, raw[last])
    && forall k :: 0 <= k < last ==> header(DropReturn(raw[k])) == None
  }

  // A torn view scans like the whole, waits, or misses a header on the last
  // line the scan reaches.
  lemma {:induction false} TornScanMisses(header: Bytes -> Option<string>, seen: seq<Bytes>, raw: seq<Bytes>, n: nat)
    requires TornView(seen, raw) && HonestFrom(header, raw, n) && n <= OWNER_SCAN_LINES
    ensures var s := ScanFrom(header, seen, n);
      s == Undecided || s == ScanFrom(header, raw, n) || (s == Refused && HidesAtEnd(header, raw, n))
    decreases |seen|
  {
    if seen != [] && n < OWNER_SCAN_LINES {
      TornHead(seen, raw);
      HonestHead(header, raw[0], seen[0]);
      if seen[0] == raw[0] {
        if header(DropReturn(raw[0])).None? {
          HonestTail(header, raw, n);
          TornScanMisses(header, seen[1..], raw[1..], n + 1);
          HidesBefore(header, raw, n);
        }
      } else {
        assert seen[1..] == [];
      }
    }
  }

  lemma HonestTail(header: Bytes -> Option<string>, raw: seq<Bytes>, n: nat)
    requires raw != [] && HonestFrom(header, raw, n)
    ensures HonestFrom(header, raw[1..], n + 1)
  {
    assert forall k :: 0 <= k < |raw| - 1 ==> raw[1..][k] == raw[k + 1];
  }

  lemma HidesBefore(header: Bytes -> Option<string>, raw: seq<Bytes>, n: nat)
    requires raw != [] && header(DropReturn(raw[0])) == None
    ensures HidesAtEnd(header, raw[1..], n + 1) ==> HidesAtEnd(header, raw, n)
  {
    if HidesAtEnd(header, raw[1..], n + 1) {
      var last := OWNER_SCAN_LINES - 1 - n;
      assert raw[1..][last - 1] == raw[last];
      assert forall k :: 0 < k < last ==> raw[k] == raw[1..][k - 1];
    }
  }

  lemma HonestHead(header: Bytes -> Option<string>, line: Bytes, piece: Bytes)
    requires HonestPrefix(header, line) && |piece| <= |line| && piece == line[..|piece|]
    ensures header(DropReturn(piece)) == None || header(DropReturn(piece)) == header(DropReturn(line))
  {
  }

  lemma TornHead(seen: seq<Bytes>, raw: seq<Bytes>)
    requires seen != [] && TornView(seen, raw)
    ensures raw != [] && |seen[0]| <= |raw[0]| && seen[0] == raw[0][..|seen[0]|]
    ensures |seen| > 1 || seen <= raw ==> seen[0] == raw[0]
    ensures TornView(seen[1..], raw[1..]) && (seen <= raw ==> seen[1..] <= raw[1..])
  {
    if !(seen <= raw) && |seen| > 1 {
      assert seen[1..][..|seen| - 2] == seen[..|seen| - 1][1..];
    }
  }

  lemma HeaderTail(header: Bytes -> Option<string>, raw: seq<Bytes>, h: nat)
    requires h > 0 && HeaderAt(header, raw, h)
    ensures HeaderAt(header, raw[1..], h - 1) && raw[1..][h - 1] == raw[h]
  {
    assert forall k :: 0 <= k < |raw| - 1 ==> raw[1..][k] == raw[k + 1];
  }

  lemma RawLinesAppend(a: Bytes, b: Bytes)
    ensures RawLines(a + b) == SplitLines(a) + RawLines(Rest(a) + b)
  {
    SplitAppend(a, b);
  }

  lemma TornLast(r: Bytes, b: Bytes)
    requires r != [] && NEWLINE !in r
    ensures RawLines(r + b) != [] && r <= RawLines(r + b)[0]
  {
    var t := r + b;
    assert forall j :: 0 <= j < |r| ==> t[j] == r[j];
    if NextNewline(t) == |t| {
      NoNewline(t);
    }
  }

  lemma ViewOfPrefix(a: Bytes, b: Bytes)
    ensures TornView(RawLines(a), RawLines(a + b))
  {
    var ls, next := SplitLines(a), RawLines(Rest(a) + b);
    RawLinesAppend(a, b);
    if Rest(a) != [] {
      RestIsSuffix(a);
      TornLast(Rest(a), b);
      var raw, seen := ls + next, ls + [Rest(a)];
      assert seen[..|ls|] == ls <= raw;
      assert raw[|ls|] == next[0];
    }
  }

  // With the header among the first 19 lines, a verdict reached at whatever
  // moment a poll caught the file half-written is the verdict on the final
  // file, and once the header line is complete the verdict is reached.
  lemma VerdictIsStable(header: Bytes -> Option<string>, sameDir: string -> bool, final: Bytes, h: nat, k: nat)
    requires k <= |final| && h < 19 && HeaderAt(header, RawLines(final), h)
    ensures var v := Verdict(header, sameDir, final[..k]); v == None || v == Verdict(header, sameDir, final)
    ensures Verdict(header, sameDir, final) == Some(sameDir(header(DropReturn(RawLines(final)[h])).value))
    ensures h < |SplitLines(final[..k])| ==> Verdict(header, sameDir, final[..k]).Some?
  {
    assert final == final[..k] + final[k..];
    ViewOfPrefix(final[..k], final[k..]);
    TornScan(header, RawLines(final[..k]), RawLines(final), h, 0);
    TornScan(header, RawLines(final), RawLines(final), h, 0);
    if h < |SplitLines(final[..k])| {
      RawLinesAppend(final[..k], final[k..]);
      ScanPrefix(header, RawLines(final[..k]), RawLines(final), h, 0);
    }
  }

  lemma {:induction false} ScanPrefix(header: Bytes -> Option<string>, seen: seq<Bytes>, raw: seq<Bytes>, h: nat,
                                      lines: nat)
    requires HeaderAt(header, raw, h) && h < |seen| && lines + h < OWNER_SCAN_LINES
    requires forall k :: 0 <= k <= h ==> seen[k] == raw[k]
    ensures ScanFrom(header, seen, lines) == Found(header(DropReturn(raw[h])).value)
    decreases h
  {
    assert seen[0] == raw[0];
    if h > 0 {
      HeaderTail(header, raw, h);
      ScanPrefix(header, seen[1..], raw[1..], h - 1, lines + 1);
    }
  }
}
