/**
 * The fund-flow heatmap: the synthetic asset x cohort matrix it draws, the
 * per-asset external and total flows, and the text and colour of each cell.
 *
 * `Math.random()` is the caller's sequence `draws` (the k-th call returns
 * draws[k]); `Math.round(x)` is floor(x + 0.5) over the reals; dates are
 * millisecond timestamps, None for a missing date prop.
 */
module Heatmap {
  import opened Wrappers
  import opened Text
  import opened Grid
  import Api

  // ----------------------------------------------------------- fixed lists

  const Assets: seq<string> := [
    "BTC", "ETH", "SOL", "XRP", "USDT", "USDC", "BNB", "ADA", "AVAX", "DOGE",
    "MATIC", "DOT", "LINK", "UNI", "ATOM", "LTC", "ETC", "XLM", "ALGO"
  ]

  const Cohorts: seq<string> := ["exchanges", "whales", "miners", "smart-contracts", "retail"]

  /** The heatmap's own lists: 19 assets and the five cohort ids, none repeated. */
  lemma FixedLists()
    ensures |Assets| == 19 && |Cohorts| == 5
    ensures NoDuplicates(Assets) && NoDuplicates(Cohorts)
    ensures Cohorts == Api.CohortIds()
  {
    Api.CohortTable();
  }

  // ------------------------------------------------------------ flow ranges

  /** A `[low, high]` pair of millions of USD for a 7-day window. */
  datatype FlowRange = FlowRange(lo: int, hi: int)

  /** One asset's entry of the table: a range per cohort. */
  datatype FlowRow = FlowRow(exchanges: FlowRange, whales: FlowRange, miners: FlowRange,
                             smartContracts: FlowRange, retail: FlowRange)

  /** Indexing a row by a cohort id; ids the row has no key for give None. */
  function CohortRange(row: FlowRow, cohort: string): Option<FlowRange>
  {
    if cohort == "exchanges" then Some(row.exchanges)
    else if cohort == "whales" then Some(row.whales)
    else if cohort == "miners" then Some(row.miners)
    else if cohort == "smart-contracts" then Some(row.smartContracts)
    else if cohort == "retail" then Some(row.retail)
    else None
  }

  /** `baseFlowRanges`. */
  const BaseFlowRanges: map<string, FlowRow> := map[
    "BTC" := FlowRow(FlowRange(200, 300), FlowRange(-300, -100), FlowRange(80, 150), FlowRange(-80, 50), FlowRange(20, 60)),
    "ETH" := FlowRow(FlowRange(150, 250), FlowRange(-250, -150), FlowRange(60, 120), FlowRange(200, 400), FlowRange(-60, 20)),
    "SOL" := FlowRow(FlowRange(70, 120), FlowRange(-150, -80), FlowRange(30, 60), FlowRange(120, 200), FlowRange(-40, 10)),
    "XRP" := FlowRow(FlowRange(50, 90), FlowRange(-120, -60), FlowRange(20, 45), FlowRange(80, 150), FlowRange(-30, 15)),
    "USDT" := FlowRow(FlowRange(300, 500), FlowRange(-700, -400), FlowRange(100, 200), FlowRange(400, 600), FlowRange(-100, -40)),
    "USDC" := FlowRow(FlowRange(250, 400), FlowRange(-600, -300), FlowRange(80, 180), FlowRange(300, 500), FlowRange(-80, -30)),
    "BNB" := FlowRow(FlowRange(120, 180), FlowRange(-250, -150), FlowRange(50, 90), FlowRange(200, 300), FlowRange(-50, 20)),
    "ADA" := FlowRow(FlowRange(60, 100), FlowRange(-140, -80), FlowRange(25, 55), FlowRange(100, 180), FlowRange(-35, 15)),
    "AVAX" := FlowRow(FlowRange(50, 90), FlowRange(-120, -70), FlowRange(20, 45), FlowRange(90, 160), FlowRange(-30, 10)),
    "DOGE" := FlowRow(FlowRange(30, 60), FlowRange(-80, -40), FlowRange(15, 30), FlowRange(60, 100), FlowRange(-20, 10)),
    "MATIC" := FlowRow(FlowRange(40, 75), FlowRange(-100, -50), FlowRange(20, 40), FlowRange(80, 130), FlowRange(-25, 15)),
    "DOT" := FlowRow(FlowRange(45, 80), FlowRange(-110, -60), FlowRange(22, 42), FlowRange(90, 140), FlowRange(-28, 12)),
    "LINK" := FlowRow(FlowRange(55, 95), FlowRange(-130, -70), FlowRange(25, 48), FlowRange(100, 160), FlowRange(-32, 14)),
    "UNI" := FlowRow(FlowRange(35, 65), FlowRange(-90, -45), FlowRange(18, 33), FlowRange(70, 110), FlowRange(-22, 9)),
    "ATOM" := FlowRow(FlowRange(40, 75), FlowRange(-100, -55), FlowRange(20, 40), FlowRange(80, 130), FlowRange(-27, 11)),
    "LTC" := FlowRow(FlowRange(25, 50), FlowRange(-70, -35), FlowRange(12, 26), FlowRange(50, 90), FlowRange(-18, 7)),
    "ETC" := FlowRow(FlowRange(20, 45), FlowRange(-65, -30), FlowRange(10, 23), FlowRange(45, 80), FlowRange(-16, 6)),
    "XLM" := FlowRow(FlowRange(15, 40), FlowRange(-60, -25), FlowRange(8, 20), FlowRange(40, 70), FlowRange(-14, 5)),
    "ALGO" := FlowRow(FlowRange(12, 35), FlowRange(-55, -20), FlowRange(6, 18), FlowRange(35, 60), FlowRange(-12, 4))
  ]

  /** The `|| [-100, 100]` fallback of the range lookup. */
  const DefaultRange: FlowRange := FlowRange(-100, 100)

  /** `baseFlowRanges[asset]?.[cohort] || [-100, 100]`. */
  function RangeFor(asset: string, cohort: string): FlowRange
  {
    if asset in BaseFlowRanges && CohortRange(BaseFlowRanges[asset], cohort).Some?
    then CohortRange(BaseFlowRanges[asset], cohort).value
    else DefaultRange
  }

  /** The fixed table has an entry for `asset` and, inside it, for `cohort`. */
  predicate Configured(asset: string, cohort: string)
  {
    asset in BaseFlowRanges && CohortRange(BaseFlowRanges[asset], cohort).Some?
  }

  /**
   * Every fixed pair has an entry of the table with low below high, so the
   * generator never falls back to the default range.
   */
  lemma FixedPairsConfigured(i: nat, j: nat)
    requires i < |Assets| && j < |Cohorts|
    ensures Configured(Assets[i], Cohorts[j])
    ensures RangeFor(Assets[i], Cohorts[j]).lo < RangeFor(Assets[i], Cohorts[j]).hi
  {
  }

  /** Every range the lookup can give, configured or fallback, has low <= high. */
  lemma RangeOrdered(asset: string, cohort: string)
    ensures RangeFor(asset, cohort).lo <= RangeFor(asset, cohort).hi
  {
  }

  // -------------------------------------------------------- window scaling

  const MsPerDay: int := 1000 * 60 * 60 * 24

  /** `Math.ceil(ms / (1000 * 60 * 60 * 24))` on a whole number of milliseconds. */
  function CeilDays(ms: int): (days: int)
    ensures (days - 1) * MsPerDay < ms <= days * MsPerDay
  {
    -((-ms) / MsPerDay)
  }

  /** The day count of the window; 7 when either date is missing. */
  function DaysDiff(startMs: Option<int>, endMs: Option<int>): int
  {
    if startMs.Some? && endMs.Some? then CeilDays(endMs.value - startMs.value) else 7
  }

  /** `daysDiff / 7`: the factor applied to the 7-day ranges. */
  function ScaleFactor(startMs: Option<int>, endMs: Option<int>): real
  {
    DaysDiff(startMs, endMs) as real / 7.0
  }

  /**
   * A window of d whole days scales by d/7: one week is the ranges as
   * written, two weeks double them, an empty window gives 0, and a window
   * that ends before it starts gives a negative factor (the order of the
   * dates is not checked).
   */
  lemma WholeDayWindow(startMs: int, d: int)
    ensures DaysDiff(Some(startMs), Some(startMs + d * MsPerDay)) == d
    ensures ScaleFactor(Some(startMs), Some(startMs + d * MsPerDay)) == d as real / 7.0
    ensures d == 7 ==> ScaleFactor(Some(startMs), Some(startMs + d * MsPerDay)) == 1.0
    ensures d == 14 ==> ScaleFactor(Some(startMs), Some(startMs + d * MsPerDay)) == 2.0
    ensures d < 0 ==> ScaleFactor(Some(startMs), Some(startMs + d * MsPerDay)) < 0.0
  {
    var days := DaysDiff(Some(startMs), Some(startMs + d * MsPerDay));
    assert (days - 1) * MsPerDay < d * MsPerDay <= days * MsPerDay;
    assert days - 1 < d <= days;
  }

  /** Any part of a day counts as a whole day; a missing date means one week. */
  lemma PartialDaysRoundUp(startMs: int, endMs: int)
    requires startMs < endMs <= startMs + MsPerDay
    ensures DaysDiff(Some(startMs), Some(endMs)) == 1
    ensures DaysDiff(None, Some(endMs)) == 7 && DaysDiff(Some(startMs), None) == 7
    ensures ScaleFactor(None, None) == 1.0
  {
    var days := DaysDiff(Some(startMs), Some(endMs));
    assert (days - 1) * MsPerDay < MsPerDay && 0 < days * MsPerDay;
  }

  // --------------------------------------------------------------- values

  /** `Math.round`: the nearest integer, halves rounded up. */
  function Round(x: real): (n: int)
    ensures n as real - 0.5 <= x < n as real + 0.5
  {
    (x + 0.5).Floor
  }

  /** Rounding keeps the order of its arguments. */
  lemma RoundMonotone(x: real, y: real)
    requires x <= y
    ensures Round(x) <= Round(y)
  {
  }

  /** `Math.random() * (high - low) + low` for the draw r. */
  function BaseValue(range: FlowRange, r: real): real
  {
    r * (range.hi - range.lo) as real + range.lo as real
  }

  /** The cell value: the base value scaled by the window and rounded. */
  function ScaledValue(range: FlowRange, r: real, scale: real): int
  {
    Round(BaseValue(range, r) * scale)
  }

  /**
   * With a non-negative factor a draw in [0, 1) lands the value between the
   * scaled, rounded ends of its range.
   */
  lemma ScaledValueBounds(range: FlowRange, r: real, scale: real)
    requires range.lo <= range.hi && 0.0 <= r < 1.0 && scale >= 0.0
    ensures Round(range.lo as real * scale) <= ScaledValue(range, r, scale) <= Round(range.hi as real * scale)
  {
    BaseValueInRange(range, r);
    assert ScaledValue(range, r, scale) == Round(BaseValue(range, r) * scale);
    RoundedScaleUp(range.lo as real, BaseValue(range, r), range.hi as real, scale);
  }

  /** A negative factor (a window ending before it starts) swaps the ends. */
  lemma ScaledValueBoundsReversed(range: FlowRange, r: real, scale: real)
    requires range.lo <= range.hi && 0.0 <= r < 1.0 && scale <= 0.0
    ensures Round(range.hi as real * scale) <= ScaledValue(range, r, scale) <= Round(range.lo as real * scale)
  {
    BaseValueInRange(range, r);
    assert ScaledValue(range, r, scale) == Round(BaseValue(range, r) * scale);
    RoundedScaleDown(range.lo as real, BaseValue(range, r), range.hi as real, scale);
  }

  /** A zero factor (an empty window) makes every value 0, whatever the draw. */
  lemma ScaledValueZero(range: FlowRange, r: real)
    ensures ScaledValue(range, r, 0.0) == 0
  {
    ScaleZero(BaseValue(range, r), 0.0);
  }

  /** A draw in [0, 1) puts the base value inside its range. */
  lemma BaseValueInRange(range: FlowRange, r: real)
    requires range.lo <= range.hi && 0.0 <= r < 1.0
    ensures range.lo as real <= BaseValue(range, r) <= range.hi as real
  {
    DrawWithinWidth(r, (range.hi - range.lo) as real);
  }

  /** Anything times zero is zero. */
  lemma ScaleZero(x: real, s: real)
    requires s == 0.0
    ensures x * s == 0.0
  {
  }

  /** Scaling by s >= 0 then rounding keeps x between its bounds. */
  lemma RoundedScaleUp(lo: real, x: real, hi: real, s: real)
    requires lo <= x <= hi && s >= 0.0
    ensures Round(lo * s) <= Round(x * s) <= Round(hi * s)
  {
    ScaleUp(lo, x, s);
    assert lo * s <= x * s;
    ScaleUp(x, hi, s);
    assert x * s <= hi * s;
    RoundedBetween(lo * s, x * s, hi * s);
  }

  /** Scaling by s <= 0 then rounding keeps x between its swapped bounds. */
  lemma RoundedScaleDown(lo: real, x: real, hi: real, s: real)
    requires lo <= x <= hi && s <= 0.0
    ensures Round(hi * s) <= Round(x * s) <= Round(lo * s)
  {
    ScaleDown(lo, x, s);
    assert x * s <= lo * s;
    ScaleDown(x, hi, s);
    assert hi * s <= x * s;
    RoundedBetween(hi * s, x * s, lo * s);
  }

  /** Rounding keeps a value between its rounded bounds. */
  lemma RoundedBetween(a: real, x: real, b: real)
    requires a <= x <= b
    ensures Round(a) <= Round(x) <= Round(b)
  {
    RoundMonotone(a, x);
    RoundMonotone(x, b);
  }

  /** A fraction in [0, 1) of a width w >= 0 lies in [0, w]. */
  lemma DrawWithinWidth(r: real, w: real)
    requires 0.0 <= r < 1.0 && w >= 0.0
    ensures 0.0 <= r * w <= w
  {
    assert w - r * w == (1.0 - r) * w;
  }

  /** Multiplying by s >= 0 keeps the order. */
  lemma ScaleUp(x: real, y: real, s: real)
    requires x <= y && s >= 0.0
    ensures x * s <= y * s
  {
    assert y * s - x * s == (y - x) * s;
  }

  /** Multiplying by s <= 0 reverses the order. */
  lemma ScaleDown(x: real, y: real, s: real)
    requires x <= y && s <= 0.0
    ensures y * s <= x * s
  {
    assert x * s - y * s == (y - x) * (-s);
  }

  // --------------------------------------------------------------- colour

  const Unclassified := "bg-gray-400"
  const StrongInflow := "bg-blue-600 text-white"
  const ModerateInflow := "bg-blue-500 text-white"
  const MildInflow := "bg-blue-400 text-white"
  const StrongOutflow := "bg-orange-600 text-white"
  const ModerateOutflow := "bg-orange-500 text-white"
  const MildOutflow := "bg-orange-400 text-white"

  /** The colour class of a cell by its value. */
  function ColorFor(v: int): string
  {
    if v > 0 then
      if v > 200 then StrongInflow else if v > 100 then ModerateInflow else MildInflow
    else
      if v < -200 then StrongOutflow else if v < -100 then ModerateOutflow else MildOutflow
  }

  /**
   * The six buckets partition the integers by the thresholds 200, 100, 0,
   * -100 and -200: blue exactly for inflows, orange for outflows and zero,
   * and the initial gray is never kept.
   */
  lemma ColorBuckets(v: int)
    ensures ColorFor(v) == StrongInflow <==> v > 200
    ensures ColorFor(v) == ModerateInflow <==> 100 < v <= 200
    ensures ColorFor(v) == MildInflow <==> 0 < v <= 100
    ensures ColorFor(v) == MildOutflow <==> -100 <= v <= 0
    ensures ColorFor(v) == ModerateOutflow <==> -200 <= v < -100
    ensures ColorFor(v) == StrongOutflow <==> v < -200
    ensures ColorFor(v) != Unclassified
  {
  }

  // ------------------------------------------------------------ the cells

  /** One entry of the mock matrix. */
  datatype Cell = Cell(asset: string, cohort: string, value: int, color: string)

  /**
   * The value drawn for a pair lies between the scaled, rounded ends of the
   * range the lookup gives it, and is 0 for an empty window.
   */
  lemma LookedUpValueBounds(asset: string, cohort: string, r: real, scale: real)
    ensures 0.0 <= r < 1.0 && scale >= 0.0 ==>
      Round(RangeFor(asset, cohort).lo as real * scale) <= ScaledValue(RangeFor(asset, cohort), r, scale)
                                                        <= Round(RangeFor(asset, cohort).hi as real * scale)
    ensures scale == 0.0 ==> ScaledValue(RangeFor(asset, cohort), r, scale) == 0
  {
    RangeOrdered(asset, cohort);
    OrderedRangeValue(RangeFor(asset, cohort), r, scale);
  }

  /** The bounds of `ScaledValueBounds` and `ScaledValueZero`, for any ordered range. */
  lemma OrderedRangeValue(range: FlowRange, r: real, scale: real)
    requires range.lo <= range.hi
    ensures 0.0 <= r < 1.0 && scale >= 0.0 ==>
      Round(range.lo as real * scale) <= ScaledValue(range, r, scale) <= Round(range.hi as real * scale)
    ensures scale == 0.0 ==> ScaledValue(range, r, scale) == 0
  {
    if 0.0 <= r < 1.0 && scale >= 0.0 {
      ScaledValueBounds(range, r, scale);
    }
    if scale == 0.0 {
      ScaledValueZero(range, r);
    }
  }

  /**
   * The cell for one (asset, cohort) pair and one draw. For a draw in
   * [0, 1) and a non-negative factor its value lies between the scaled,
   * rounded ends of the pair's range; an empty window gives 0; its colour
   * is the bucket of its value.
   */
  function MakeCell(asset: string, cohort: string, r: real, scale: real): (c: Cell)
    ensures c.asset == asset && c.cohort == cohort
    ensures 0.0 <= r < 1.0 && scale >= 0.0 ==>
      Round(RangeFor(asset, cohort).lo as real * scale) <= c.value <= Round(RangeFor(asset, cohort).hi as real * scale)
    ensures scale == 0.0 ==> c.value == 0
    ensures c.color == StrongInflow <==> c.value > 200
    ensures c.color == ModerateInflow <==> 100 < c.value <= 200
    ensures c.color == MildInflow <==> 0 < c.value <= 100
    ensures c.color == MildOutflow <==> -100 <= c.value <= 0
    ensures c.color == ModerateOutflow <==> -200 <= c.value < -100
    ensures c.color == StrongOutflow <==> c.value < -200
  {
    var v := ScaledValue(RangeFor(asset, cohort), r, scale);
    LookedUpValueBounds(asset, cohort, r, scale);
    ColorBuckets(v);
    Cell(asset, cohort, v, ColorFor(v))
  }

  /**
   * The matrix `generateMockData` builds: assets in the outer loop, cohorts
   * in the inner one, the k-th pair taking the k-th random draw.
   */
  function MockCells(startMs: Option<int>, endMs: Option<int>, draws: seq<real>): (cells: seq<Cell>)
    requires |draws| == |Assets| * |Cohorts|
    ensures |cells| == |Assets| * |Cohorts|
  {
    var pairs := Product(Assets, Cohorts);
    seq(|pairs|, k requires 0 <= k < |pairs| =>
      MakeCell(pairs[k].0, pairs[k].1, draws[k], ScaleFactor(startMs, endMs)))
  }

  /** `generateMockData`, one draw per (asset, cohort) pair. */
  method GenerateMockData(startMs: Option<int>, endMs: Option<int>, draws: seq<real>)
    returns (mockData: seq<Cell>)
    requires |draws| == |Assets| * |Cohorts|
    ensures mockData == MockCells(startMs, endMs, draws)
  {
    ghost var spec := MockCells(startMs, endMs, draws);
    var daysDiff := if startMs.Some? && endMs.Some? then CeilDays(endMs.value - startMs.value) else 7;
    var scaleFactor := daysDiff as real / 7.0;
    assert scaleFactor == ScaleFactor(startMs, endMs);
    mockData := [];
    for i := 0 to |Assets|
      invariant |mockData| == i * |Cohorts|
      invariant forall k :: 0 <= k < |mockData| ==> mockData[k] == spec[k]
    {
      for j := 0 to |Cohorts|
        invariant |mockData| == i * |Cohorts| + j
        invariant forall k :: 0 <= k < |mockData| ==> mockData[k] == spec[k]
      {
        var cell := ComputeCell(Assets[i], Cohorts[j], draws[|mockData|], scaleFactor);
        MockCellAt(startMs, endMs, draws, i, j);
        PushKeepsPrefix(mockData, cell, spec);
        mockData := mockData + [cell];
      }
    }
  }

  /** The body of the inner loop: range lookup, scaling, rounding and colour. */
  method ComputeCell(asset: string, cohort: string, r: real, scaleFactor: real) returns (cell: Cell)
    ensures cell == MakeCell(asset, cohort, r, scaleFactor)
  {
    var range := RangeFor(asset, cohort);
    var baseValue := BaseValue(range, r);
    var scaledValue := Round(baseValue * scaleFactor);
    var color := Unclassified;
    if scaledValue > 0 {
      if scaledValue > 200 {
        color := StrongInflow;
      } else if scaledValue > 100 {
        color := ModerateInflow;
      } else {
        color := MildInflow;
      }
    } else {
      if scaledValue < -200 {
        color := StrongOutflow;
      } else if scaledValue < -100 {
        color := ModerateOutflow;
      } else {
        color := MildOutflow;
      }
    }
    assert color == ColorFor(scaledValue);
    cell := Cell(asset, cohort, scaledValue, color);
    assert scaledValue == ScaledValue(range, r, scaleFactor);
  }

  /** The cell at row i, column j of the matrix. */
  lemma MockCellAt(startMs: Option<int>, endMs: Option<int>, draws: seq<real>, i: nat, j: nat)
    requires |draws| == |Assets| * |Cohorts|
    requires i < |Assets| && j < |Cohorts|
    ensures i * |Cohorts| + j < |Assets| * |Cohorts|
    ensures MockCells(startMs, endMs, draws)[i * |Cohorts| + j]
         == MakeCell(Assets[i], Cohorts[j], draws[i * |Cohorts| + j], ScaleFactor(startMs, endMs))
  {
    ProductAt(Assets, Cohorts, i, j);
  }

  /** Appending the next element of `spec` to a prefix of it gives a longer prefix. */
  lemma PushKeepsPrefix(done: seq<Cell>, c: Cell, spec: seq<Cell>)
    requires |done| < |spec| && c == spec[|done|]
    requires forall k :: 0 <= k < |done| ==> done[k] == spec[k]
    ensures forall k :: 0 <= k < |done| + 1 ==> (done + [c])[k] == spec[k]
  {
  }

  /** The number of cells and the position of each pair's cell. */
  lemma MockCellsLayout(startMs: Option<int>, endMs: Option<int>, draws: seq<real>, k: nat)
    requires |draws| == |Assets| * |Cohorts| && k < |Assets| * |Cohorts|
    ensures |MockCells(startMs, endMs, draws)| == 95
    ensures MockCells(startMs, endMs, draws)[k].asset == Assets[k / |Cohorts|]
    ensures MockCells(startMs, endMs, draws)[k].cohort == Cohorts[k % |Cohorts|]
  {
    var i, j := k / |Cohorts|, k % |Cohorts|;
    assert i < |Assets| && i * |Cohorts| + j == k;
    MockCellAt(startMs, endMs, draws, i, j);
  }

  /** The (asset, cohort) keys of a list of cells, in order. */
  function Keys(cells: seq<Cell>): (keys: seq<(string, string)>)
    ensures |keys| == |cells|
    ensures forall k :: 0 <= k < |cells| ==> keys[k] == (cells[k].asset, cells[k].cohort)
  {
    seq(|cells|, k requires 0 <= k < |cells| => (cells[k].asset, cells[k].cohort))
  }

  /**
   * The matrix holds every (asset, cohort) pair exactly once: its keys are
   * the cross product of the two lists, which has no repeated pair.
   */
  lemma MockKeysAreProduct(startMs: Option<int>, endMs: Option<int>, draws: seq<real>)
    requires |draws| == |Assets| * |Cohorts|
    ensures Keys(MockCells(startMs, endMs, draws)) == Product(Assets, Cohorts)
    ensures NoDuplicates(Keys(MockCells(startMs, endMs, draws)))
    ensures forall a, c :: (a, c) in Keys(MockCells(startMs, endMs, draws)) <==> a in Assets && c in Cohorts
  {
    var cells := MockCells(startMs, endMs, draws);
    forall k | 0 <= k < |cells|
      ensures Keys(cells)[k] == Product(Assets, Cohorts)[k]
    {
      MockCellAt(startMs, endMs, draws, k / |Cohorts|, k % |Cohorts|);
      ProductAt(Assets, Cohorts, k / |Cohorts|, k % |Cohorts|);
    }
    FixedLists();
    ProductNoDuplicates(Assets, Cohorts);
    forall a, c
      ensures (a, c) in Product(Assets, Cohorts) <==> a in Assets && c in Cohorts
    {
      ProductMembership(Assets, Cohorts, (a, c));
    }
  }

  // ---------------------------------------------------------- lookups

  /** `mockData.find(d => d.asset === asset && d.cohort === cohort)`. */
  function Find(cells: seq<Cell>, asset: string, cohort: string): (found: Option<Cell>)
    ensures found.Some? ==> found.value in cells && found.value.asset == asset && found.value.cohort == cohort
    ensures found.None? <==> forall k :: 0 <= k < |cells| ==> (cells[k].asset, cells[k].cohort) != (asset, cohort)
  {
    if |cells| == 0 then None
    else if cells[0].asset == asset && cells[0].cohort == cohort then Some(cells[0])
    else
      var rest := Find(cells[1..], asset, cohort);
      assert forall k :: 1 <= k < |cells| ==> cells[k] == cells[1..][k - 1];
      rest
  }

  /** `find` returns the first matching cell. */
  lemma {:induction false} FindFirst(cells: seq<Cell>, asset: string, cohort: string, k: nat)
    requires k < |cells| && cells[k].asset == asset && cells[k].cohort == cohort
    requires forall m :: 0 <= m < k ==> (cells[m].asset, cells[m].cohort) != (asset, cohort)
    ensures Find(cells, asset, cohort) == Some(cells[k])
  {
    if k > 0 {
      assert (cells[0].asset, cells[0].cohort) != (asset, cohort);
      FindFirst(cells[1..], asset, cohort, k - 1);
    }
  }

  /**
   * Every cell of the table finds its own entry of the matrix, so the N/A
   * branch of the table is never taken.
   */
  lemma MockFind(startMs: Option<int>, endMs: Option<int>, draws: seq<real>, i: nat, j: nat)
    requires |draws| == |Assets| * |Cohorts| && i < |Assets| && j < |Cohorts|
    ensures i * |Cohorts| + j < |MockCells(startMs, endMs, draws)|
    ensures Find(MockCells(startMs, endMs, draws), Assets[i], Cohorts[j])
         == Some(MockCells(startMs, endMs, draws)[i * |Cohorts| + j])
  {
    var cells := MockCells(startMs, endMs, draws);
    var k := i * |Cohorts| + j;
    MockCellAt(startMs, endMs, draws, i, j);
    MockKeysAreProduct(startMs, endMs, draws);
    forall m | 0 <= m < k
      ensures (cells[m].asset, cells[m].cohort) != (Assets[i], Cohorts[j])
    {
      assert Keys(cells)[m] != Keys(cells)[k];
    }
    FindFirst(cells, Assets[i], Cohorts[j], k);
  }

  // ------------------------------------------------------ flows per asset

  /** `mockData.filter(d => d.asset === asset)`. */
  function ForAsset(cells: seq<Cell>, asset: string): (r: seq<Cell>)
    ensures |r| <= |cells|
    ensures forall c :: c in r <==> c in cells && c.asset == asset
  {
    if |cells| == 0 then []
    else if cells[0].asset == asset then [cells[0]] + ForAsset(cells[1..], asset)
    else ForAsset(cells[1..], asset)
  }

  /** An external cohort: money entering or leaving the ecosystem. */
  predicate IsExternal(c: Cell)
  {
    c.cohort == "exchanges" || c.cohort == "retail"
  }

  /** `filter(d => d.cohort === 'exchanges' || d.cohort === 'retail')`. */
  function ExternalFlows(cells: seq<Cell>): (r: seq<Cell>)
    ensures forall c :: c in r <==> c in cells && IsExternal(c)
    ensures forall c :: multiset(r)[c] == if IsExternal(c) then multiset(cells)[c] else 0
  {
    if |cells| == 0 then []
    else
      assert cells == [cells[0]] + cells[1..];
      if IsExternal(cells[0]) then [cells[0]] + ExternalFlows(cells[1..])
      else ExternalFlows(cells[1..])
  }

  /**
   * The external filter works piece by piece, so the kept cells stay in
   * their order: a list's external cells are its first part's followed by
   * its second part's.
   */
  lemma {:induction false} ExternalFlowsAppend(a: seq<Cell>, b: seq<Cell>)
    ensures ExternalFlows(a + b) == ExternalFlows(a) + ExternalFlows(b)
  {
    if |a| == 0 {
      assert a + b == b;
    } else {
      assert (a + b)[0] == a[0] && (a + b)[1..] == a[1..] + b;
      ExternalFlowsAppend(a[1..], b);
    }
  }

  /** The cells the net flow leaves out: transfers inside the ecosystem. */
  function InternalFlows(cells: seq<Cell>): (r: seq<Cell>)
    ensures forall c :: c in r <==> c in cells && !IsExternal(c)
  {
    if |cells| == 0 then []
    else if !IsExternal(cells[0]) then [cells[0]] + InternalFlows(cells[1..])
    else InternalFlows(cells[1..])
  }

  /** `reduce((sum, d) => sum + d.value, 0)`. */
  function SumValues(cells: seq<Cell>): int
  {
    if |cells| == 0 then 0 else cells[0].value + SumValues(cells[1..])
  }

  /** `getNetFlow`: the external flows of one asset. */
  function NetFlow(cells: seq<Cell>, asset: string): int
  {
    SumValues(ExternalFlows(ForAsset(cells, asset)))
  }

  /** `getTotalFlow`: every flow of one asset. */
  function TotalFlow(cells: seq<Cell>, asset: string): int
  {
    SumValues(ForAsset(cells, asset))
  }

  /** The total splits into the external part and the internal part. */
  lemma {:induction false} SumSplits(cells: seq<Cell>)
    ensures SumValues(cells) == SumValues(ExternalFlows(cells)) + SumValues(InternalFlows(cells))
  {
    if |cells| > 0 {
      SumSplits(cells[1..]);
      var c, rest := cells[0], cells[1..];
      if IsExternal(c) {
        assert ExternalFlows(cells) == [c] + ExternalFlows(rest);
        assert ([c] + ExternalFlows(rest))[1..] == ExternalFlows(rest);
      } else {
        assert InternalFlows(cells) == [c] + InternalFlows(rest);
        assert ([c] + InternalFlows(rest))[1..] == InternalFlows(rest);
      }
    }
  }

  /**
   * For every asset, total flow = net flow + the whales, miners and
   * smart-contracts flows it leaves out.
   */
  lemma TotalIsNetPlusInternal(cells: seq<Cell>, asset: string)
    ensures TotalFlow(cells, asset) == NetFlow(cells, asset) + SumValues(InternalFlows(ForAsset(cells, asset)))
  {
    SumSplits(ForAsset(cells, asset));
  }

  /** Filtering distributes over concatenation. */
  lemma {:induction false} ForAssetAppend(a: seq<Cell>, b: seq<Cell>, asset: string)
    ensures ForAsset(a + b, asset) == ForAsset(a, asset) + ForAsset(b, asset)
  {
    if |a| == 0 {
      assert a + b == b;
    } else {
      assert (a + b)[0] == a[0] && (a + b)[1..] == a[1..] + b;
      ForAssetAppend(a[1..], b, asset);
    }
  }

  /** Filtering keeps a list whose cells all belong to `asset`. */
  lemma {:induction false} ForAssetAll(cells: seq<Cell>, asset: string)
    requires forall k :: 0 <= k < |cells| ==> cells[k].asset == asset
    ensures ForAsset(cells, asset) == cells
  {
    if |cells| > 0 {
      ForAssetAll(cells[1..], asset);
      assert [cells[0]] + cells[1..] == cells;
    }
  }

  /** Filtering empties a list with no cell of `asset`. */
  lemma {:induction false} ForAssetNone(cells: seq<Cell>, asset: string)
    requires forall k :: 0 <= k < |cells| ==> cells[k].asset != asset
    ensures ForAsset(cells, asset) == []
  {
    if |cells| > 0 {
      ForAssetNone(cells[1..], asset);
    }
  }

  /** The asset's cells, when they form the block [lo, hi) of the list. */
  lemma ForAssetBlock(cells: seq<Cell>, asset: string, lo: nat, hi: nat)
    requires lo <= hi <= |cells|
    requires forall k :: 0 <= k < |cells| ==> (cells[k].asset == asset <==> lo <= k < hi)
    ensures ForAsset(cells, asset) == cells[lo..hi]
  {
    var before, block, after := cells[..lo], cells[lo..hi], cells[hi..];
    assert cells == before + block + after;
    forall k | 0 <= k < |before| ensures before[k].asset != asset {
      assert before[k] == cells[k];
    }
    forall k | 0 <= k < |block| ensures block[k].asset == asset {
      assert block[k] == cells[lo + k];
    }
    forall k | 0 <= k < |after| ensures after[k].asset != asset {
      assert after[k] == cells[hi + k];
    }
    ForAssetNone(before, asset);
    ForAssetAll(block, asset);
    ForAssetNone(after, asset);
    ForAssetAppend(before + block, after, asset);
    ForAssetAppend(before, block, asset);
  }

  /** Cell k holds asset k / 5 and cohort k % 5: the order the loops produce. */
  predicate RowMajor(cells: seq<Cell>)
  {
    |cells| == |Assets| * |Cohorts| &&
    forall k :: 0 <= k < |cells| ==>
      cells[k].asset == Assets[k / |Cohorts|] && cells[k].cohort == Cohorts[k % |Cohorts|]
  }

  /** The generated matrix is laid out row by row. */
  lemma MockRowMajor(startMs: Option<int>, endMs: Option<int>, draws: seq<real>)
    requires |draws| == |Assets| * |Cohorts|
    ensures RowMajor(MockCells(startMs, endMs, draws))
  {
    forall k | 0 <= k < |Assets| * |Cohorts| {
      MockCellsLayout(startMs, endMs, draws, k);
    }
  }

  /** In a row-major matrix, asset i's cells are the five cells of row i. */
  lemma RowOfAsset(cells: seq<Cell>, i: nat)
    requires RowMajor(cells) && i < |Assets|
    ensures i * 5 + 5 <= |cells|
    ensures ForAsset(cells, Assets[i]) == cells[i * 5..i * 5 + 5]
  {
    FixedLists();
    forall k | 0 <= k < |cells|
      ensures cells[k].asset == Assets[i] <==> i * 5 <= k < i * 5 + 5
    {
      assert cells[k].asset == Assets[k / 5];
      assert cells[k].asset == Assets[i] <==> k / 5 == i;
    }
    ForAssetBlock(cells, Assets[i], i * 5, i * 5 + 5);
  }

  /**
   * Net and total flow of an asset whose cells are the block of five at
   * `lo`, exchanges first and retail last.
   */
  lemma BlockFlows(cells: seq<Cell>, asset: string, lo: nat)
    requires lo + 5 <= |cells| && ForAsset(cells, asset) == cells[lo..lo + 5]
    requires IsExternal(cells[lo]) && !IsExternal(cells[lo + 1]) && !IsExternal(cells[lo + 2])
    requires !IsExternal(cells[lo + 3]) && IsExternal(cells[lo + 4])
    ensures NetFlow(cells, asset) == cells[lo].value + cells[lo + 4].value
    ensures TotalFlow(cells, asset) == cells[lo].value + cells[lo + 1].value + cells[lo + 2].value
                                       + cells[lo + 3].value + cells[lo + 4].value
  {
    var row := cells[lo..lo + 5];
    assert row[0] == cells[lo] && row[1] == cells[lo + 1] && row[2] == cells[lo + 2];
    assert row[3] == cells[lo + 3] && row[4] == cells[lo + 4];
    RowFlows(row);
  }

  /** In row i the exchanges and retail columns are external, the others are not. */
  lemma RowExternals(cells: seq<Cell>, i: nat)
    requires RowMajor(cells) && i < |Assets|
    ensures i * 5 + 5 <= |cells|
    ensures IsExternal(cells[i * 5]) && !IsExternal(cells[i * 5 + 1]) && !IsExternal(cells[i * 5 + 2])
    ensures !IsExternal(cells[i * 5 + 3]) && IsExternal(cells[i * 5 + 4])
  {
    RowColumn(i, 0);
    ExternalCohorts(cells[i * 5], 0);
    RowColumn(i, 1);
    ExternalCohorts(cells[i * 5 + 1], 1);
    RowColumn(i, 2);
    ExternalCohorts(cells[i * 5 + 2], 2);
    RowColumn(i, 3);
    ExternalCohorts(cells[i * 5 + 3], 3);
    RowColumn(i, 4);
    ExternalCohorts(cells[i * 5 + 4], 4);
  }

  /** The external and internal parts of one row, by which cohorts are external. */
  lemma RowFlows(row: seq<Cell>)
    requires |row| == 5
    requires IsExternal(row[0]) && !IsExternal(row[1]) && !IsExternal(row[2])
    requires !IsExternal(row[3]) && IsExternal(row[4])
    ensures ExternalFlows(row) == [row[0], row[4]]
    ensures InternalFlows(row) == [row[1], row[2], row[3]]
    ensures SumValues(row) == row[0].value + row[1].value + row[2].value + row[3].value + row[4].value
    ensures SumValues(ExternalFlows(row)) == row[0].value + row[4].value
  {
    var r1, r2, r3, r4 := row[1..], row[2..], row[3..], row[4..];
    assert r4[1..] == [] && r3[1..] == r4 && r2[1..] == r3 && r1[1..] == r2;
    assert r4[0] == row[4] && r3[0] == row[3] && r2[0] == row[2] && r1[0] == row[1];
    assert ExternalFlows(r4) == [row[4]];
    assert ExternalFlows(r3) == [row[4]];
    assert ExternalFlows(r2) == [row[4]];
    assert ExternalFlows(r1) == [row[4]];
    assert InternalFlows(r4) == [];
    assert InternalFlows(r3) == [row[3]];
    assert InternalFlows(r2) == [row[2], row[3]];
    assert InternalFlows(r1) == [row[1], row[2], row[3]];
    assert SumValues(r4) == row[4].value;
    assert SumValues(r3) == row[3].value + row[4].value;
    assert SumValues(r2) == row[2].value + row[3].value + row[4].value;
    var ext := [row[0], row[4]];
    assert ext[1..] == [row[4]] && ext[1..][1..] == [];
    assert SumValues(ext) == row[0].value + row[4].value;
  }

  /** Of the five cohorts, exactly the first and the last are external. */
  lemma ExternalCohorts(c: Cell, j: nat)
    requires j < |Cohorts| && c.cohort == Cohorts[j]
    ensures IsExternal(c) <==> j == 0 || j == 4
  {
  }

  /**
   * The EXTERNAL FLOW column for asset i is its exchanges value plus its
   * retail value; the total adds all five; the difference is the three
   * internal cohorts.
   */
  lemma MockFlows(startMs: Option<int>, endMs: Option<int>, draws: seq<real>, i: nat)
    requires |draws| == |Assets| * |Cohorts| && i < |Assets|
    ensures var cells := MockCells(startMs, endMs, draws);
      i * 5 + 5 <= |cells| &&
      NetFlow(cells, Assets[i]) == cells[i * 5].value + cells[i * 5 + 4].value &&
      TotalFlow(cells, Assets[i]) == cells[i * 5].value + cells[i * 5 + 1].value + cells[i * 5 + 2].value
                                     + cells[i * 5 + 3].value + cells[i * 5 + 4].value &&
      TotalFlow(cells, Assets[i]) - NetFlow(cells, Assets[i])
        == cells[i * 5 + 1].value + cells[i * 5 + 2].value + cells[i * 5 + 3].value
  {
    var cells := MockCells(startMs, endMs, draws);
    MockRowMajor(startMs, endMs, draws);
    RowOfAsset(cells, i);
    RowExternals(cells, i);
    BlockFlows(cells, Assets[i], i * 5);
  }

  /** Position i * 5 + j is row i, column j. */
  lemma RowColumn(i: nat, j: nat)
    requires j < 5
    ensures (i * 5 + j) / 5 == i && (i * 5 + j) % 5 == j
  {
  }

  // ---------------------------------------------------------- cell text

  function Abs(v: int): nat
  {
    if v < 0 then -v else v
  }

  /** `formatValue`: `$`, the magnitude in whole millions, `M`. */
  function FormatValue(v: int): (s: string)
    ensures |s| >= 3 && s[0] == '$' && s[|s| - 1] == 'M'
    ensures AllDigits(s[1..|s| - 1]) && DigitsValue(s[1..|s| - 1]) == Abs(v)
    ensures s[1] == '0' ==> v == 0 && |s| == 3
  {
    var digits := NatToString(Abs(v));
    NatToStringRoundTrip(Abs(v));
    var s := "$" + digits + "M";
    assert s[1..|s| - 1] == digits;
    s
  }

  /** The sign is dropped, and nothing else: two values print alike iff their magnitudes agree. */
  lemma FormatValueMagnitude(v: int, w: int)
    ensures FormatValue(v) == FormatValue(-v)
    ensures FormatValue(v) == FormatValue(w) <==> Abs(v) == Abs(w)
  {
    if FormatValue(v) == FormatValue(w) {
      var s, t := FormatValue(v), FormatValue(w);
      assert s[1..|s| - 1] == t[1..|t| - 1];
    }
  }

  /** The first line of a cell: `+` for an inflow, `-` otherwise, then the amount. */
  function CellText(v: int): string
  {
    (if v > 0 then "+" else "-") + FormatValue(v)
  }

  /** The second line of a cell. */
  function CellDirection(v: int): string
  {
    if v > 0 then "In" else "Out"
  }

  /**
   * A cell's text names its value uniquely, and its direction agrees with
   * its colour: "In" exactly for the blue buckets.
   */
  lemma CellLabels(v: int, w: int)
    ensures CellText(v) == CellText(w) <==> v == w
    ensures CellDirection(v) == "In" <==>
      ColorFor(v) == StrongInflow || ColorFor(v) == ModerateInflow || ColorFor(v) == MildInflow
  {
    if CellText(v) == CellText(w) {
      var s, t := CellText(v), CellText(w);
      assert s[0] == t[0];
      assert s[1..] == FormatValue(v) && t[1..] == FormatValue(w);
      FormatValueMagnitude(v, w);
    }
    ColorBuckets(v);
  }

  /** A zero cell reads as an outflow of nothing, in the palest orange. */
  lemma ZeroCell()
    ensures CellText(0) == "-$0M" && CellDirection(0) == "Out" && ColorFor(0) == MildOutflow
  {
    assert NatToString(0) == "0";
  }

  /** The net column's amount: `+` for a net inflow, no sign otherwise. */
  function NetFlowText(n: int): string
  {
    (if n > 0 then "+" else "") + FormatValue(n)
  }

  /** The net column's caption. */
  function NetFlowLabel(n: int): string
  {
    if n > 0 then "Net Inflow" else if n < 0 then "Net Outflow" else "Balanced"
  }

  const NetInflowStyle := "bg-blue-100 text-blue-800 dark:bg-blue-900 dark:text-blue-200"
  const NetOutflowStyle := "bg-orange-100 text-orange-800 dark:bg-orange-900 dark:text-orange-200"
  const BalancedStyle := "bg-gray-100 text-gray-800 dark:bg-gray-700 dark:text-gray-200"

  /** The net column's colour classes. */
  function NetFlowStyle(n: int): string
  {
    if n > 0 then NetInflowStyle else if n < 0 then NetOutflowStyle else BalancedStyle
  }

  /**
   * The net amount names the net flow uniquely: an outflow prints without a
   * sign, but never like an inflow.
   */
  lemma NetFlowTextInjective(n: int, m: int)
    ensures NetFlowText(n) == NetFlowText(m) <==> n == m
  {
    var s, t := NetFlowText(n), NetFlowText(m);
    if n > 0 && m > 0 {
      assert s[1..] == FormatValue(n) && t[1..] == FormatValue(m);
      FormatValueMagnitude(n, m);
    } else if n <= 0 && m <= 0 {
      assert s == FormatValue(n) && t == FormatValue(m);
      FormatValueMagnitude(n, m);
    } else {
      assert s[0] != t[0];
    }
  }

  /** Caption and colour of the net column follow the sign of the net flow. */
  lemma NetFlowCaption(n: int)
    ensures NetFlowLabel(n) == "Net Inflow" <==> n > 0
    ensures NetFlowLabel(n) == "Net Outflow" <==> n < 0
    ensures NetFlowLabel(n) == "Balanced" <==> n == 0
    ensures NetFlowStyle(n) == NetInflowStyle <==> n > 0
    ensures NetFlowStyle(n) == NetOutflowStyle <==> n < 0
    ensures NetFlowStyle(n) == BalancedStyle <==> n == 0
  {
  }
}
