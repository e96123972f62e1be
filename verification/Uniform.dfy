// The uniform throughput timeline of internal/ui/ui.go: every engine's history
// on one grid, by the nearest slot of its own cadence, and the tokens of the
// agents' own events (internal/ui/agents.go) in the columns nearest to them.
module Uniform {
  import opened Base
  import opened Division
  import opened Feed

  // A division that truncates toward zero, and its remainder.
  function Quotient(a: int, b: Positive): int {
    if a >= 0 then a / b else -((-a) / b)
  }

  function Remainder(a: int, b: Positive): int {
    a - b * Quotient(a, b)
  }

  function NearestCadenceIndex(d: int, cadence: int): int {
    if cadence <= 0 then 0 else
      var shifted := d + cadence / 2;
      var q := Quotient(shifted, cadence);
      if Remainder(shifted, cadence) < 0 then q - 1 else q
  }

  // The correction makes it a floor, on both sides of zero.
  lemma NearestIsFloor(d: int, cadence: Positive)
    ensures NearestCadenceIndex(d, cadence) == (d + cadence / 2) / cadence
  {
    var a := d + cadence / 2;
    if a < 0 {
      var q, r := (-a) / cadence, (-a) % cadence;
      assert -a == q * cadence + r;
      Negated(q, cadence);
      if r == 0 {
        FloorIs(a, -q, 0, cadence);
      } else {
        FloorIs(a, -q - 1, cadence - r, cadence);
      }
    }
  }

  lemma Negated(q: int, d: Positive)
    ensures (-q) * d == -(q * d) && (-q - 1) * d == -(q * d) - d && d * -q == -(q * d)
  {
  }

  // The slot is within half a cadence of the offset, so the check for a silent
  // engine never rejects one.
  lemma NearestIsClose(d: int, cadence: Positive)
    ensures cadence / 2 - cadence < NearestCadenceIndex(d, cadence) * cadence - d <= cadence / 2
  {
    NearestIsFloor(d, cadence);
    var a := d + cadence / 2;
    assert a == a / cadence * cadence + a % cadence;
  }

  // One cadence later is the next slot.
  lemma NearestSteps(d: int, cadence: Positive, j: int)
    ensures NearestCadenceIndex(d + j * cadence, cadence) == NearestCadenceIndex(d, cadence) + j
  {
    NearestIsFloor(d, cadence);
    NearestIsFloor(d + j * cadence, cadence);
    var a := d + cadence / 2;
    var q, r := a / cadence, a % cadence;
    assert a == q * cadence + r;
    Moved(a, q, r, j, cadence);
    assert d + j * cadence + cadence / 2 == a + j * cadence;
  }

  lemma Moved(a: int, q: int, r: int, j: int, d: Positive)
    requires a == q * d + r && 0 <= r < d
    ensures (a + j * d) / d == q + j && a / d == q
  {
    Distributes(q, j, d);
    FloorIs(a, q, r, d);
    FloorIs(a + j * d, q + j, r, d);
  }

  lemma Distributes(a: int, b: int, d: int)
    ensures (a + b) * d == a * d + b * d
  {
  }

  // One engine's samples, a cadence apart from t0 on.
  datatype History = History(vals: seq<real>, t0: int)

  predicate Present(h: History) {
    h.vals != [] && h.t0 != 0
  }

  function LastAt(h: History, cadence: int): int {
    h.t0 + (|h.vals| - 1) * cadence
  }

  // The newest instant of any history or of the agents' own feed; zero when
  // there is none.
  function NewestOf(hs: seq<History>, cadence: int, agentEnd: int): nat {
    if hs == [] then Max(agentEnd, 0)
    else if Present(hs[0]) then Max(LastAt(hs[0], cadence), NewestOf(hs[1..], cadence, agentEnd))
    else NewestOf(hs[1..], cadence, agentEnd)
  }

  // The sample a history shows in column j: the whole history, moved by one
  // fixed number of slots.
  function Shown(h: History, shift: int, j: int): real {
    if Present(h) && 0 <= shift + j < |h.vals| then h.vals[shift + j] else 0.0
  }

  function Shift(h: History, start: int, cadence: int): int {
    NearestCadenceIndex(start - h.t0, cadence)
  }

  function ColumnSum(hs: seq<History>, start: int, cadence: int, j: int): real {
    SumTo(|hs|, (i: nat) => if i < |hs| then Shown(hs[i], Shift(hs[i], start, cadence), j) else 0.0)
  }

  // An event whose tokens no engine already shows.
  predicate Own(ev: AgentEvent) {
    ev.viaEngine == ""
  }

  // The latest of the agents' own events; zero when there is none.
  function AgentEnd(events: seq<AgentEvent>): nat {
    if events == [] then 0
    else if Own(events[0]) then Max(events[0].at, AgentEnd(events[1..]))
    else AgentEnd(events[1..])
  }

  function Tokens(ev: AgentEvent, out: bool): int {
    if out then ev.outputTokens else ev.promptTokens
  }

  // The rate one event adds to the column it is nearest to.
  function Rate(ev: AgentEvent, out: bool, cadence: Positive): real {
    if Own(ev) && Tokens(ev, out) > 0 then Tokens(ev, out) as real / (cadence as real / 1_000_000_000.0) else 0.0
  }

  function Slot(ev: AgentEvent, start: int, cadence: int): int {
    NearestCadenceIndex(ev.at - start, cadence)
  }

  // What the first k events add to column j.
  function Dense(events: seq<AgentEvent>, out: bool, start: int, cadence: Positive, k: nat, j: int): real
    requires k <= |events|
  {
    if k == 0 then 0.0 else
      Dense(events, out, start, cadence, k - 1, j) +
      if Slot(events[k - 1], start, cadence) == j then Rate(events[k - 1], out, cadence) else 0.0
  }

  method AgentHistEnd(events: seq<AgentEvent>) returns (end: nat)
    ensures end == AgentEnd(events)
  {
    end := 0;
    assert events[0..] == events;
    for i := 0 to |events|
      invariant Max(end, AgentEnd(events[i..])) == AgentEnd(events)
    {
      DropDrop(events, i, 1);
      if events[i].viaEngine == "" && events[i].at > end {
        end := events[i].at;
      }
    }
  }

  method AgentDenseHist(events: seq<AgentEvent>, out: bool, end: int, n: int, cadence: int) returns (grid: seq<real>)
    ensures if n <= 0 || cadence <= 0 || end == 0 then grid == []
            else |grid| == n && forall j :: 0 <= j < n ==>
              grid[j] == Dense(events, out, end - (n - 1) * cadence, cadence, |events|, j)
  {
    if n <= 0 || cadence <= 0 || end == 0 {
      return [];
    }
    var cells := new real[n](_ => 0.0);
    var start := end - (n - 1) * cadence;
    var sec := cadence as real / 1_000_000_000.0;
    for i := 0 to |events|
      invariant forall j :: 0 <= j < n ==> cells[j] == Dense(events, out, start, cadence, i, j)
    {
      var ev := events[i];
      var tok := if out then ev.outputTokens else ev.promptTokens;
      if ev.viaEngine != "" || tok <= 0 {
        continue;
      }
      var idx := NearestCadenceIndex(ev.at - start, cadence);
      if 0 <= idx < n {
        cells[idx] := cells[idx] + tok as real / sec;
      }
    }
    grid := cells[..];
  }

  // What the chart shows in column j: the engines, then the agents.
  function Cell(hs: seq<History>, events: seq<AgentEvent>, out: bool, start: int, cadence: Positive, j: int): real {
    ColumnSum(hs, start, cadence, j) + Dense(events, out, start, cadence, |events|, j)
  }

  method AggHist(hs: seq<History>, events: seq<AgentEvent>, out: bool, w: int, cadence: int) returns (grid: seq<real>)
    ensures var end := NewestOf(hs, cadence, AgentEnd(events));
      if end == 0 || w <= 0 || cadence <= 0 then grid == []
      else |grid| == w && forall j :: 0 <= j < w ==>
        grid[j] == Cell(hs, events, out, end - (w - 1) * cadence, cadence, j)
  {
    var agentEnd := AgentHistEnd(events);
    var end := Newest(hs, cadence, agentEnd);
    if end == 0 || w <= 0 || cadence <= 0 {
      return [];
    }
    var start := end - (w - 1) * cadence;
    var cells := new real[w];
    for j := 0 to w
      invariant forall k :: 0 <= k < j ==> cells[k] == ColumnSum(hs, start, cadence, k)
    {
      var sum := SumColumn(hs, start, cadence, j);
      cells[j] := sum;
    }
    var dense := AgentDenseHist(events, out, end, w, cadence);
    for j := 0 to w
      invariant forall k :: 0 <= k < j ==> cells[k] == Cell(hs, events, out, start, cadence, k)
      invariant forall k :: j <= k < w ==> cells[k] == ColumnSum(hs, start, cadence, k)
    {
      cells[j] := cells[j] + dense[j];
    }
    grid := cells[..];
  }

  // The rates of the first k events whose slot is on a grid of n columns.
  function OnGrid(events: seq<AgentEvent>, out: bool, start: int, cadence: Positive, k: nat, n: nat): real
    requires k <= |events|
  {
    if k == 0 then 0.0 else
      OnGrid(events, out, start, cadence, k - 1, n) +
      if 0 <= Slot(events[k - 1], start, cadence) < n then Rate(events[k - 1], out, cadence) else 0.0
  }

  // No token of an agent is lost or shown twice: the columns add up to the
  // events on the grid.
  lemma {:induction false} DenseAddsUp(events: seq<AgentEvent>, out: bool, start: int, cadence: Positive, k: nat,
                                       n: nat)
    requires k <= |events|
    ensures SumTo(n, (j: nat) => Dense(events, out, start, cadence, k, j)) ==
            OnGrid(events, out, start, cadence, k, n)
  {
    if k == 0 {
      SumToZero(n, (j: nat) => Dense(events, out, start, cadence, 0, j));
    } else {
      DenseAddsUp(events, out, start, cadence, k - 1, n);
      var slot, rate := Slot(events[k - 1], start, cadence), Rate(events[k - 1], out, cadence);
      SumToBump(n, (j: nat) => Dense(events, out, start, cadence, k - 1, j),
                (j: nat) => Dense(events, out, start, cadence, k, j),
                if 0 <= slot then slot else n, rate);
    }
  }

  method Newest(hs: seq<History>, cadence: int, agentEnd: int) returns (end: int)
    ensures end == NewestOf(hs, cadence, agentEnd)
  {
    end := 0;
    assert hs[0..] == hs;
    for i := 0 to |hs|
      invariant end >= 0 && Max(end, NewestOf(hs[i..], cadence, agentEnd)) == NewestOf(hs, cadence, agentEnd)
    {
      DropDrop(hs, i, 1);
      if Present(hs[i]) && LastAt(hs[i], cadence) > end {
        end := LastAt(hs[i], cadence);
      }
    }
    if agentEnd > end {
      end := agentEnd;
    }
  }

  method SumColumn(hs: seq<History>, start: int, cadence: Positive, j: nat) returns (sum: real)
    ensures sum == ColumnSum(hs, start, cadence, j)
  {
    sum := 0.0;
    var ts, half := start + j * cadence, cadence / 2;
    for i := 0 to |hs|
      invariant sum ==
        SumTo(i, (k: nat) => if k < |hs| then Shown(hs[k], Shift(hs[k], start, cadence), j) else 0.0)
    {
      var h := hs[i];
      NearestSteps(start - h.t0, cadence, j);
      NearestIsClose(ts - h.t0, cadence);
      if Present(h) {
        var idx := NearestCadenceIndex(ts - h.t0, cadence);
        if 0 <= idx < |h.vals| {
          var d := h.t0 + idx * cadence - ts;
          if -half <= d <= half {
            sum := sum + h.vals[idx];
          }
        }
      }
    }
  }

  // What a column shows of a history, in instants: the sample within half a
  // cadence of the column's own.
  lemma ColumnShowsNearest(h: History, start: int, cadence: Positive, j: int, i: nat)
    requires h.vals != [] && h.t0 != 0 && i < |h.vals|
    requires var late := (h.t0 + i * cadence) - (start + j * cadence);
      cadence / 2 - cadence < late <= cadence / 2
    ensures Shown(h, Shift(h, start, cadence), j) == h.vals[i]
  {
    var d := start + j * cadence - h.t0;
    NearestIsFloor(d, cadence);
    FloorIs(d + cadence / 2, i, d + cadence / 2 - i * cadence, cadence);
    NearestSteps(start - h.t0, cadence, j);
    assert start - h.t0 + j * cadence == d;
  }

  // Without such a sample, without samples or without a date it shows nothing.
  lemma ColumnShowsNothing(h: History, start: int, cadence: Positive, j: int)
    requires h.vals == [] || h.t0 == 0 || forall i: nat :: i < |h.vals| ==> !Near(h, start, cadence, j, i)
    ensures Shown(h, Shift(h, start, cadence), j) == 0.0
  {
    var i := Shift(h, start, cadence) + j;
    NearestSteps(start - h.t0, cadence, j);
    assert start - h.t0 + j * cadence == start + j * cadence - h.t0;
    NearestIsClose(start + j * cadence - h.t0, cadence);
    if Present(h) && 0 <= i < |h.vals| {
      assert Near(h, start, cadence, j, i);
    }
  }

  predicate Near(h: History, start: int, cadence: Positive, j: int, i: nat) {
    cadence / 2 - cadence < (h.t0 + i * cadence) - (start + j * cadence) <= cadence / 2
  }

  // The newest instant is that of some engine's last sample or of some event of
  // the agents' own, and no other is later.
  lemma {:induction false} NewestIsAttained(hs: seq<History>, cadence: int, events: seq<AgentEvent>)
    ensures var end := NewestOf(hs, cadence, AgentEnd(events));
      && (forall h :: h in hs && h.vals != [] && h.t0 != 0 ==> h.t0 + (|h.vals| - 1) * cadence <= end)
      && (forall ev :: ev in events && ev.viaEngine == "" ==> ev.at <= end)
      && (end == 0 || (exists h :: h in hs && h.vals != [] && h.t0 != 0 && h.t0 + (|h.vals| - 1) * cadence == end)
          || (exists ev :: ev in events && ev.viaEngine == "" && ev.at == end))
  {
    if hs == [] {
      EndIsAttained(events);
    } else {
      NewestIsAttained(hs[1..], cadence, events);
      assert hs == [hs[0]] + hs[1..];
    }
  }

  lemma {:induction false} EndIsAttained(events: seq<AgentEvent>)
    ensures forall ev :: ev in events && ev.viaEngine == "" ==> ev.at <= AgentEnd(events)
    ensures AgentEnd(events) > 0 ==> exists ev :: ev in events && ev.viaEngine == "" && ev.at == AgentEnd(events)
  {
    if events != [] {
      EndIsAttained(events[1..]);
      assert events == [events[0]] + events[1..];
    }
  }

  // Every sample is shown once if its slot falls in the grid, and not at all
  // otherwise: no column repeats a sample and none in between is skipped.
  lemma SampleIsShownOnce(h: History, start: int, cadence: Positive, w: nat, i: nat)
    requires Present(h) && i < |h.vals|
    ensures var shift := Shift(h, start, cadence);
      (exists j :: 0 <= j < w && ShownIn(h, start, cadence, j, i)) <==> shift <= i < shift + w
    ensures forall j, k :: ShownIn(h, start, cadence, j, i) && ShownIn(h, start, cadence, k, i) ==> j == k
  {
    var shift := Shift(h, start, cadence);
    if shift <= i < shift + w {
      NearestSteps(start - h.t0, cadence, i - shift);
      assert ShownIn(h, start, cadence, i - shift, i);
    }
    forall j | ShownIn(h, start, cadence, j, i)
      ensures j == i - shift
    {
      NearestSteps(start - h.t0, cadence, j);
    }
  }

  // Sample i is the one nearest to column j.
  predicate ShownIn(h: History, start: int, cadence: Positive, j: int, i: nat) {
    NearestCadenceIndex(start + j * cadence - h.t0, cadence) == i
  }
}
