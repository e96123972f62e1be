// The compressed throughput timeline of internal/ui/ui.go: columns whose
// timespan doubles with age, engines averaged within a column and summed
// across.
module Timeline {
  import opened Base
  import opened Counters
  import opened Division

  const SECOND: nat := 1_000_000_000

  function Pow2(n: nat): Positive {
    if n == 0 then 1 else 2 * Pow2(n - 1)
  }

  // bits.Len64.
  function BitLen(x: nat): nat {
    if x == 0 then 0 else 1 + BitLen(x / 2)
  }

  // The largest shift that keeps w spans within a Duration. The product is a
  // uint64 and wraps.
  function SpanCap(w: nat): nat {
    Max(63 - BitLen(w * SECOND % 0x1_0000_0000_0000_0000), 0)
  }

  // How many blocks column j of w lies left of the newest.
  function Level(w: nat, block: Positive, j: nat): nat
    requires j < w
  {
    (w - 1 - j) / block
  }

  // The timespan of column j of w, oldest first.
  function Span(w: nat, block: Positive, j: nat): Positive
    requires j < w
  {
    Shifted(Level(w, block, j), SpanCap(w))
  }

  // A second shifted left by the level, or by the largest shift there is.
  function Shifted(level: nat, maxLevel: nat): Positive {
    SECOND * Pow2(Min(level, maxLevel))
  }

  // What the columns from j on cover.
  function SumFrom(spans: seq<Positive>, j: nat): nat
    requires j <= |spans|
    decreases |spans| - j
  {
    if j == |spans| then 0 else spans[j] + SumFrom(spans, j + 1)
  }

  predicate AreSpans(w: nat, block: Positive, spans: seq<Positive>) {
    |spans| == w && forall j :: 0 <= j < w ==> spans[j] == Span(w, block, j)
  }

  lemma {:induction false} Pow2Adds(a: nat, b: nat)
    ensures Pow2(a) * Pow2(b) == Pow2(a + b)
  {
    if a > 0 {
      Pow2Adds(a - 1, b);
      Doubled(Pow2(a - 1), Pow2(b));
    }
  }

  lemma Doubled(x: nat, y: nat)
    ensures 2 * x * y == 2 * (x * y)
  {
  }

  lemma {:induction false} Pow2Grows(a: nat, b: nat)
    requires a <= b
    ensures Pow2(a) <= Pow2(b)
  {
    if a < b {
      Pow2Grows(a, b - 1);
    }
  }

  lemma {:induction false} BitLenBounds(x: nat, n: nat)
    ensures x < Pow2(BitLen(x))
    ensures x < Pow2(n) ==> BitLen(x) <= n
  {
    if x > 0 {
      BitLenBounds(x / 2, if n > 0 then n - 1 else 0);
    }
  }

  lemma Pow2Of63()
    ensures Pow2(63) == MAX_INT + 1
  {
    assert Pow2(8) == 0x100;
    Pow2Adds(8, 8);
    Pow2Adds(16, 16);
    assert Pow2(32) == 0x1_0000_0000;
    Pow2Adds(32, 31);
    assert Pow2(32) == 2 * Pow2(31);
  }

  lemma LessTimes(a: nat, b: nat, c: Positive)
    requires a < b
    ensures a * c < b * c
  {
  }

  lemma CapFits(w: nat)
    requires w * SECOND <= MAX_INT
    ensures w * SECOND * Pow2(SpanCap(w)) <= MAX_INT
  {
    var x := w * SECOND;
    assert x % 0x1_0000_0000_0000_0000 == x;
    Pow2Of63();
    BitLenBounds(x, 63);
    LessTimes(x, Pow2(BitLen(x)), Pow2(SpanCap(w)));
    Pow2Adds(BitLen(x), SpanCap(w));
  }

  lemma {:induction false} SumBounds(spans: seq<Positive>, j: nat, lo: nat, hi: nat)
    requires j <= |spans| && forall k :: 0 <= k < |spans| ==> lo <= spans[k] <= hi
    ensures (|spans| - j) * lo <= SumFrom(spans, j) <= (|spans| - j) * hi
    decreases |spans| - j
  {
    if j < |spans| {
      SumBounds(spans, j + 1, lo, hi);
      OneMoreTime(|spans| - j - 1, lo);
      OneMoreTime(|spans| - j - 1, hi);
    }
  }

  lemma OneMoreTime(n: nat, x: nat)
    ensures (n + 1) * x == n * x + x
  {
  }

  // For any block size, the window fits a Duration exactly when w seconds do.
  lemma WindowFitsIff(w: nat, block: Positive, spans: seq<Positive>)
    requires AreSpans(w, block, spans)
    ensures SumFrom(spans, 0) <= MAX_INT <==> w * SECOND <= MAX_INT
  {
    forall j | 0 <= j < w
      ensures SECOND <= spans[j] <= SECOND * Pow2(SpanCap(w))
    {
      Pow2Grows(Min(Level(w, block, j), SpanCap(w)), SpanCap(w));
      SecondTimes(Pow2(Min(Level(w, block, j), SpanCap(w))), Pow2(SpanCap(w)));
    }
    SumBounds(spans, 0, SECOND, SECOND * Pow2(SpanCap(w)));
    if w * SECOND <= MAX_INT {
      CapFits(w);
      Regroup(w, SECOND, Pow2(SpanCap(w)));
    }
  }

  lemma SecondTimes(a: Positive, b: nat)
    requires a <= b
    ensures SECOND <= SECOND * a <= SECOND * b
  {
  }

  lemma Regroup(a: nat, b: nat, c: nat)
    ensures a * (b * c) == a * b * c
  {
  }

  // Column j holds the ages between what lies right of it and its own end.
  predicate Covers(spans: seq<Positive>, j: nat, age: int) {
    j < |spans| && SumFrom(spans, j + 1) <= age < SumFrom(spans, j)
  }

  lemma {:induction false} SumFromFalls(spans: seq<Positive>, i: nat, j: nat)
    requires i <= j <= |spans|
    ensures SumFrom(spans, j) <= SumFrom(spans, i)
    decreases j - i
  {
    if i < j {
      SumFromFalls(spans, i + 1, j);
    }
  }

  // An age is in one column only.
  lemma ColumnIsUnique(spans: seq<Positive>, i: nat, j: nat, age: int)
    requires Covers(spans, i, age) && Covers(spans, j, age)
    ensures i == j
  {
    if i < j {
      SumFromFalls(spans, i + 1, j);
    } else if j < i {
      SumFromFalls(spans, j + 1, i);
    }
  }

  // The search every sample inside the window goes through.
  method Locate(spans: seq<Positive>, total: nat, offset: nat) returns (j: nat)
    requires spans != [] && total == SumFrom(spans, 0) && offset < total
    ensures Covers(spans, j, offset)
  {
    j := 0;
    var acc: int := total;
    while j < |spans| - 1 && offset < acc - spans[j] as int
      invariant j < |spans| && acc == SumFrom(spans, j) && offset < acc
    {
      acc := acc - spans[j] as int;
      j := j + 1;
    }
  }

  datatype Timed = Timed(at: int, rate: real, engine: nat)

  function Age(tv: seq<Timed>, i: nat): int
    requires i < |tv|
  {
    Elapsed(tv[|tv| - 1].at, tv[i].at)
  }

  predicate InWindow(tv: seq<Timed>, spans: seq<Positive>, i: nat)
    requires i < |tv|
  {
    0 <= Age(tv, i) < SumFrom(spans, 0)
  }

  // The first k samples of one engine in one column: their rates and number.
  function CellSum(tv: seq<Timed>, spans: seq<Positive>, k: nat, j: nat, e: nat): real
    requires k <= |tv|
  {
    if k == 0 then 0.0 else
      CellSum(tv, spans, k - 1, j, e) +
      if tv[k - 1].engine == e && Covers(spans, j, Age(tv, k - 1)) then tv[k - 1].rate else 0.0
  }

  function CellCount(tv: seq<Timed>, spans: seq<Positive>, k: nat, j: nat, e: nat): nat
    requires k <= |tv|
  {
    if k == 0 then 0 else
      CellCount(tv, spans, k - 1, j, e) +
      if tv[k - 1].engine == e && Covers(spans, j, Age(tv, k - 1)) then 1 else 0
  }

  function Mean(tv: seq<Timed>, spans: seq<Positive>, j: nat, e: nat): real {
    var n := CellCount(tv, spans, |tv|, j, e);
    if n > 0 then CellSum(tv, spans, |tv|, j, e) / n as real else 0.0
  }

  // What a column shows: every engine's mean over its span, summed.
  function Column(tv: seq<Timed>, spans: seq<Positive>, n: nat, j: nat): real {
    SumTo(n, (e: nat) => Mean(tv, spans, j, e))
  }

  // Reading the spans from the newest column back: the newest block is one
  // second wide, and every block is twice as wide as the one right of it, as
  // long as w columns of that width still fit a Duration.
  lemma SpansDouble(w: nat, block: Positive, spans: seq<Positive>, j: nat)
    requires AreSpans(w, block, spans) && w * SECOND <= MAX_INT && j < w
    ensures j + block >= w ==> spans[j] == 1_000_000_000
    ensures j + block < w ==>
              spans[j] == if w * (2 * spans[j + block]) <= MAX_INT then 2 * spans[j + block] else spans[j + block]
  {
    if j + block >= w {
      FloorIs(w - 1 - j, 0, w - 1 - j, block);
    } else {
      NextBlock(w, block, j);
      CapIsExact(w, Min(Level(w, block, j + block), SpanCap(w)));
    }
  }

  lemma NextBlock(w: nat, block: Positive, j: nat)
    requires j + block < w
    ensures Level(w, block, j) == Level(w, block, j + block) + 1
  {
    var m := w - 1 - j - block;
    var q, r := m / block, m % block;
    assert m == q * block + r;
    assert m + block == (q + 1) * block + r;
    FloorIs(m + block, q + 1, r, block);
  }

  // Doubling w spans of the shift k fits exactly below the cap.
  lemma CapIsExact(w: nat, k: nat)
    requires 0 < w && w * SECOND <= MAX_INT && k <= SpanCap(w)
    ensures w * (2 * (SECOND * Pow2(k))) <= MAX_INT <==> k < SpanCap(w)
    ensures k < SpanCap(w) ==> Pow2(k + 1) == 2 * Pow2(k)
  {
    var x := w * SECOND;
    Pow2Of63();
    BitLenBounds(x, 63);
    AtLeastHalf(x);
    assert x % 0x1_0000_0000_0000_0000 == x;
    Regrouped(w, SECOND, Pow2(k));
    if k < SpanCap(w) {
      Pow2Grows(k + 1, SpanCap(w));
      LessTimes(x, Pow2(BitLen(x)), Pow2(k + 1));
      Pow2Adds(BitLen(x), k + 1);
      Pow2Grows(BitLen(x) + k + 1, 63);
    } else {
      Pow2Adds(BitLen(x), k);
      NotLess(2 * x, Pow2(BitLen(x)), Pow2(k));
    }
  }

  lemma Regrouped(w: nat, s: nat, p: nat)
    ensures w * (2 * (s * p)) == 2 * (w * s) * p == w * s * (2 * p)
  {
    Regroup(w, s, p);
    Doubled(w * s, p);
    assert w * (2 * (s * p)) == 2 * (w * (s * p));
    assert w * s * (2 * p) == 2 * (w * s * p);
  }

  lemma NotLess(a: nat, b: nat, c: nat)
    requires a >= b
    ensures a * c >= b * c
  {
  }

  lemma {:induction false} AtLeastHalf(x: nat)
    requires x > 0
    ensures 2 * x >= Pow2(BitLen(x))
    decreases x
  {
    if x > 1 {
      AtLeastHalf(x / 2);
    }
  }

  method Spans(w: nat, block: Positive) returns (spans: seq<Positive>, total: nat)
    ensures AreSpans(w, block, spans) && total == SumFrom(spans, 0)
  {
    spans, total := [], 0;
    var maxLevel := SpanCap(w);
    for j := 0 to w
      invariant |spans| == j && total == SumFrom(spans, 0)
      invariant forall k :: 0 <= k < j ==> spans[k] == Span(w, block, k)
    {
      var span := Shifted(Level(w, block, j), maxLevel);
      SumGrows(spans, span, 0);
      spans := spans + [span];
      total := total + span;
    }
  }

  lemma {:induction false} SumGrows(spans: seq<Positive>, x: Positive, j: nat)
    requires j <= |spans|
    ensures SumFrom(spans + [x], j) == SumFrom(spans, j) + x
    decreases |spans| - j
  {
    if j < |spans| {
      SumGrows(spans, x, j + 1);
    } else {
      assert SumFrom(spans + [x], j + 1) == 0;
    }
  }

  method CountEngines(tv: seq<Timed>) returns (n: nat)
    ensures forall i :: 0 <= i < |tv| ==> tv[i].engine < n
    ensures tv != [] ==> exists i :: 0 <= i < |tv| && tv[i].engine + 1 == n
  {
    n := 0;
    for i := 0 to |tv|
      invariant forall k :: 0 <= k < i ==> tv[k].engine < n
      invariant i == 0 ==> n == 0
      invariant i > 0 ==> exists k :: 0 <= k < i && tv[k].engine + 1 == n
    {
      n := Max(n, tv[i].engine + 1);
    }
  }

  // The per-column, per-engine sums and counts.
  method Accumulate(tv: seq<Timed>, spans: seq<Positive>, total: nat, n: nat)
    returns (sums: array2<real>, cnts: array2<nat>)
    requires tv != [] && spans != [] && total == SumFrom(spans, 0)
    requires forall i :: 0 <= i < |tv| ==> tv[i].engine < n
    ensures sums.Length0 == cnts.Length0 == |spans| && sums.Length1 == cnts.Length1 == n
    ensures forall j, e :: 0 <= j < |spans| && 0 <= e < n ==> sums[j, e] == CellSum(tv, spans, |tv|, j, e)
    ensures forall j, e :: 0 <= j < |spans| && 0 <= e < n ==> cnts[j, e] == CellCount(tv, spans, |tv|, j, e)
  {
    sums := new real[|spans|, n]((_, _) => 0.0);
    cnts := new nat[|spans|, n]((_, _) => 0);
    var end := tv[|tv| - 1].at;
    for i := 0 to |tv|
      invariant forall j, e :: 0 <= j < |spans| && 0 <= e < n ==> sums[j, e] == CellSum(tv, spans, i, j, e)
      invariant forall j, e :: 0 <= j < |spans| && 0 <= e < n ==> cnts[j, e] == CellCount(tv, spans, i, j, e)
    {
      var offset := Elapsed(end, tv[i].at);
      if 0 <= offset < total {
        var b := Locate(spans, total, offset);
        OnlyThere(spans, b, offset);
        var e := tv[i].engine;
        sums[b, e] := sums[b, e] + tv[i].rate;
        cnts[b, e] := cnts[b, e] + 1;
      } else {
        Nowhere(spans, offset);
      }
    }
  }

  lemma OnlyThere(spans: seq<Positive>, b: nat, age: int)
    requires Covers(spans, b, age)
    ensures forall j :: 0 <= j < |spans| && Covers(spans, j, age) ==> j == b
  {
    forall j | 0 <= j < |spans| && Covers(spans, j, age)
      ensures j == b
    {
      ColumnIsUnique(spans, j, b, age);
    }
  }

  lemma Nowhere(spans: seq<Positive>, age: int)
    requires !(0 <= age < SumFrom(spans, 0))
    ensures forall j :: 0 <= j < |spans| ==> !Covers(spans, j, age)
  {
    forall j | 0 <= j < |spans|
      ensures !Covers(spans, j, age)
    {
      SumFromFalls(spans, 0, j);
    }
  }

  method CompressSeries(tv: seq<Timed>, w: int, block: Positive) returns (grid: seq<real>, bounds: set<nat>)
    ensures tv == [] || w <= 0 ==> grid == [] && bounds == {}
    ensures tv != [] && w > 0 ==> bounds == BlockEnds(w, block)
    ensures tv != [] && w > 0 ==> IsGrid(tv, w, block, grid)
  {
    if |tv| == 0 || w <= 0 {
      return [], {};
    }
    var spans, total := Spans(w, block);
    bounds := Bounds(w, block);
    var n := CountEngines(tv);
    var sums, cnts := Accumulate(tv, spans, total, n);
    grid := Columns(tv, spans, n, sums, cnts);
    assert Shows(tv, spans, n, grid);
  }

  method Columns(tv: seq<Timed>, spans: seq<Positive>, n: nat, sums: array2<real>, cnts: array2<nat>)
    returns (grid: seq<real>)
    requires sums.Length0 == cnts.Length0 == |spans| && sums.Length1 == cnts.Length1 == n
    requires forall j, e :: 0 <= j < |spans| && 0 <= e < n ==> sums[j, e] == CellSum(tv, spans, |tv|, j, e)
    requires forall j, e :: 0 <= j < |spans| && 0 <= e < n ==> cnts[j, e] == CellCount(tv, spans, |tv|, j, e)
    ensures |grid| == |spans| && forall j :: 0 <= j < |spans| ==> grid[j] == Column(tv, spans, n, j)
  {
    grid := [];
    for j := 0 to |spans|
      invariant |grid| == j && forall k :: 0 <= k < j ==> grid[k] == Column(tv, spans, n, k)
    {
      var cell := ColumnOf(tv, spans, n, j, sums, cnts);
      grid := grid + [cell];
    }
  }

  // Each column shows its engines' means, for the engines there are.
  ghost predicate IsGrid(tv: seq<Timed>, w: nat, block: Positive, grid: seq<real>) {
    exists spans, n :: AreSpans(w, block, spans) && Shows(tv, spans, n, grid)
  }

  ghost predicate Shows(tv: seq<Timed>, spans: seq<Positive>, n: nat, grid: seq<real>) {
    && Engines(tv, n) && |grid| == |spans|
    && forall j :: 0 <= j < |grid| ==> grid[j] == Column(tv, spans, n, j)
  }

  predicate Engines(tv: seq<Timed>, n: nat) {
    forall i :: 0 <= i < |tv| ==> tv[i].engine < n
  }

  method ColumnOf(tv: seq<Timed>, spans: seq<Positive>, n: nat, j: nat, sums: array2<real>, cnts: array2<nat>)
    returns (cell: real)
    requires sums.Length0 == cnts.Length0 == |spans| && sums.Length1 == cnts.Length1 == n && j < |spans|
    requires forall e :: 0 <= e < n ==> sums[j, e] == CellSum(tv, spans, |tv|, j, e)
    requires forall e :: 0 <= e < n ==> cnts[j, e] == CellCount(tv, spans, |tv|, j, e)
    ensures cell == Column(tv, spans, n, j)
  {
    cell := 0.0;
    for e := 0 to n
      invariant cell == SumTo(e, (k: nat) => Mean(tv, spans, j, k))
    {
      if cnts[j, e] > 0 {
        cell := cell + sums[j, e] / cnts[j, e] as real;
      }
    }
  }

  // The last columns of the coarser blocks: the next has a lower level.
  function BlockEnds(w: nat, block: Positive): set<nat> {
    set j: nat | j < w && EndsBlock(w, block, j)
  }

  predicate EndsBlock(w: nat, block: Positive, j: nat) {
    j + 1 < w && Level(w, block, j) > Level(w, block, j + 1)
  }

  method Bounds(w: Positive, block: Positive) returns (bounds: set<nat>)
    ensures bounds == BlockEnds(w, block)
  {
    bounds := {};
    for j := 0 to w
      invariant bounds == set k | 0 <= k < j && k in BlockEnds(w, block)
    {
      if j < w - 1 {
        LevelRises(w - 1 - j, block);
      }
      if (w - 1 - j) % block == 0 && j < w - 1 {
        bounds := bounds + {j};
      }
    }
  }

  lemma LevelRises(m: Positive, block: Positive)
    ensures m % block == 0 <==> m / block > (m - 1) / block
  {
    var q, r := m / block, m % block;
    assert m == q * block + r;
    if r == 0 {
      assert m - 1 == (q - 1) * block + (block - 1);
      FloorIs(m - 1, q - 1, block - 1, block);
    } else {
      assert m - 1 == q * block + (r - 1);
      FloorIs(m - 1, q, r - 1, block);
    }
  }

  // The rates of the samples in the window.
  function WindowSum(tv: seq<Timed>, spans: seq<Positive>, k: nat): real
    requires k <= |tv|
  {
    if k == 0 then 0.0 else
      WindowSum(tv, spans, k - 1) + if InWindow(tv, spans, k - 1) then tv[k - 1].rate else 0.0
  }

  function RowSum(tv: seq<Timed>, spans: seq<Positive>, n: nat, k: nat): nat -> real
    requires k <= |tv|
  {
    (j: nat) => SumTo(n, (e: nat) => CellSum(tv, spans, k, j, e))
  }

  // Every sample in the window is in exactly one cell.
  lemma {:induction false} CellsAddUp(tv: seq<Timed>, spans: seq<Positive>, n: nat, k: nat)
    requires k <= |tv| && Engines(tv, n)
    ensures SumTo(|spans|, RowSum(tv, spans, n, k)) == WindowSum(tv, spans, k)
  {
    if k == 0 {
      forall j: nat | j < |spans|
        ensures RowSum(tv, spans, n, 0)(j) == 0.0
      {
        SumToZero(n, (e: nat) => CellSum(tv, spans, 0, j, e));
      }
      SumToZero(|spans|, RowSum(tv, spans, n, 0));
    } else {
      CellsAddUp(tv, spans, n, k - 1);
      var age, rate := Age(tv, k - 1), tv[k - 1].rate;
      var b := CellOf(spans, age);
      forall j: nat | j < |spans|
        ensures RowSum(tv, spans, n, k)(j) == RowSum(tv, spans, n, k - 1)(j) + if j == b then rate else 0.0
      {
        SumToBump(n, (e: nat) => CellSum(tv, spans, k - 1, j, e), (e: nat) => CellSum(tv, spans, k, j, e),
                  tv[k - 1].engine, if Covers(spans, j, age) then rate else 0.0);
      }
      SumToBump(|spans|, RowSum(tv, spans, n, k - 1), RowSum(tv, spans, n, k), b, rate);
    }
  }

  // The column of an age, or one past the last when it has none.
  lemma CellOf(spans: seq<Positive>, age: int) returns (b: nat)
    ensures forall j :: 0 <= j < |spans| ==> (Covers(spans, j, age) <==> j == b)
    ensures b < |spans| <==> 0 <= age < SumFrom(spans, 0)
  {
    if 0 <= age < SumFrom(spans, 0) {
      b := FindColumn(spans, 0, age);
      OnlyThere(spans, b, age);
    } else {
      b := |spans|;
      Nowhere(spans, age);
    }
  }

  lemma {:induction false} FindColumn(spans: seq<Positive>, i: nat, age: int) returns (b: nat)
    requires i <= |spans| && 0 <= age < SumFrom(spans, i)
    ensures Covers(spans, b, age)
    decreases |spans| - i
  {
    if SumFrom(spans, i + 1) <= age {
      b := i;
    } else {
      b := FindColumn(spans, i + 1, age);
    }
  }

  // With at most one sample of an engine in a column, the chart's columns add
  // up to the rates in its window: nothing is lost at an edge or shown twice.
  lemma ColumnsAddUp(tv: seq<Timed>, spans: seq<Positive>, n: nat)
    requires Engines(tv, n) && OneEach(tv, spans)
    ensures SumTo(|spans|, (j: nat) => Column(tv, spans, n, j)) == WindowSum(tv, spans, |tv|)
  {
    forall j: nat | j < |spans|
      ensures Column(tv, spans, n, j) == RowSum(tv, spans, n, |tv|)(j)
    {
      forall e: nat | e < n
        ensures Mean(tv, spans, j, e) == CellSum(tv, spans, |tv|, j, e)
      {
        MeanOfOne(tv, spans, j, e);
      }
      SumToAgrees(n, (e: nat) => Mean(tv, spans, j, e), (e: nat) => CellSum(tv, spans, |tv|, j, e));
    }
    SumToAgrees(|spans|, (j: nat) => Column(tv, spans, n, j), RowSum(tv, spans, n, |tv|));
    CellsAddUp(tv, spans, n, |tv|);
  }

  // No column has two samples of one engine.
  ghost predicate OneEach(tv: seq<Timed>, spans: seq<Positive>) {
    forall j: nat, e: nat :: j < |spans| ==> CellCount(tv, spans, |tv|, j, e) <= 1
  }

  lemma ChartAddsUp(tv: seq<Timed>, w: nat, block: Positive, spans: seq<Positive>, grid: seq<real>)
    requires IsGrid(tv, w, block, grid) && AreSpans(w, block, spans) && OneEach(tv, spans)
    ensures SumTo(w, (j: nat) => if j < |grid| then grid[j] else 0.0) == WindowSum(tv, spans, |tv|)
  {
    var s, n :| AreSpans(w, block, s) && Shows(tv, s, n, grid);
    assert s == spans;
    ColumnsAddUp(tv, spans, n);
    SumToAgrees(w, (j: nat) => if j < |grid| then grid[j] else 0.0, (j: nat) => Column(tv, spans, n, j));
  }

  lemma MeanOfOne(tv: seq<Timed>, spans: seq<Positive>, j: nat, e: nat)
    requires CellCount(tv, spans, |tv|, j, e) <= 1
    ensures Mean(tv, spans, j, e) == CellSum(tv, spans, |tv|, j, e)
  {
    EmptyCell(tv, spans, |tv|, j, e);
    if CellCount(tv, spans, |tv|, j, e) == 1 {
      assert CellSum(tv, spans, |tv|, j, e) / 1.0 == CellSum(tv, spans, |tv|, j, e);
    }
  }

  lemma {:induction false} EmptyCell(tv: seq<Timed>, spans: seq<Positive>, k: nat, j: nat, e: nat)
    requires k <= |tv|
    ensures CellCount(tv, spans, k, j, e) == 0 ==> CellSum(tv, spans, k, j, e) == 0.0
  {
    if k > 0 {
      EmptyCell(tv, spans, k - 1, j, e);
    }
  }
}
