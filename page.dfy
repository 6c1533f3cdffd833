/**
 * The home page's state: the cohort selection, the date range, the records
 * built for the heatmap and the loading and error flags.
 *
 * The clock is read anew at each use: the two reads of the first render
 * are the parameters `startNow` and `endNow` (milliseconds since the
 * epoch), and the ISO text of the current date stamped on the k-th record
 * is dates[k]; `Math.random()` is the sequence `draws`, the k-th call
 * giving draws[k].
 */
module Page {
  import opened Grid
  import Api
  import Heatmap

  // ----------------------------------------------------- selection updates

  /** The updater `prev => [...prev, cohort]`. */
  function WithCohort(prev: seq<string>, cohort: string): seq<string>
  {
    prev + [cohort]
  }

  /** The updater `prev => prev.filter(c => c !== cohort)`. */
  function WithoutCohort(prev: seq<string>, cohort: string): (next: seq<string>)
    ensures |next| <= |prev|
    ensures forall c :: c in next <==> c in prev && c != cohort
  {
    if |prev| == 0 then []
    else if prev[0] == cohort then WithoutCohort(prev[1..], cohort)
    else [prev[0]] + WithoutCohort(prev[1..], cohort)
  }

  /** `handleCohortChange(cohort, checked)` on the selection `prev`. */
  function CohortChange(prev: seq<string>, cohort: string, checked: bool): seq<string>
  {
    if checked then WithCohort(prev, cohort) else WithoutCohort(prev, cohort)
  }

  /**
   * Checking appends the cohort at the end without looking for an earlier
   * copy: the length grows by one and the old list is a prefix.
   */
  lemma CheckAppends(prev: seq<string>, cohort: string)
    ensures |CohortChange(prev, cohort, true)| == |prev| + 1
    ensures CohortChange(prev, cohort, true)[..|prev|] == prev
    ensures CohortChange(prev, cohort, true)[|prev|] == cohort
    ensures multiset(CohortChange(prev, cohort, true)) == multiset(prev) + multiset{cohort}
  {
  }

  /** Unchecking removes every copy of the cohort and nothing else. */
  lemma {:induction false} UncheckRemovesAll(prev: seq<string>, cohort: string)
    ensures cohort !in CohortChange(prev, cohort, false)
    ensures multiset(CohortChange(prev, cohort, false)) == multiset(prev)[cohort := 0]
  {
    if |prev| > 0 {
      UncheckRemovesAll(prev[1..], cohort);
      assert prev == [prev[0]] + prev[1..];
      assert multiset(prev) == multiset{prev[0]} + multiset(prev[1..]);
      if prev[0] != cohort {
        var rest := WithoutCohort(prev[1..], cohort);
        assert multiset([prev[0]] + rest) == multiset{prev[0]} + multiset(rest);
      }
    }
  }

  /** Removal works piece by piece, so the survivors keep their relative order. */
  lemma {:induction false} UncheckDistributes(a: seq<string>, b: seq<string>, cohort: string)
    ensures WithoutCohort(a + b, cohort) == WithoutCohort(a, cohort) + WithoutCohort(b, cohort)
  {
    if |a| == 0 {
      assert a + b == b;
    } else {
      assert (a + b)[0] == a[0] && (a + b)[1..] == a[1..] + b;
      UncheckDistributes(a[1..], b, cohort);
    }
  }

  /** Unchecking a cohort that is not selected changes nothing. */
  lemma {:induction false} UncheckAbsent(prev: seq<string>, cohort: string)
    requires cohort !in prev
    ensures CohortChange(prev, cohort, false) == prev
  {
    if |prev| > 0 {
      assert prev[1..] + [] == prev[1..];
      UncheckAbsent(prev[1..], cohort);
      assert [prev[0]] + prev[1..] == prev;
    }
  }

  /** Checking and then unchecking a cohort that was absent restores the list. */
  lemma CheckThenUncheck(prev: seq<string>, cohort: string)
    requires cohort !in prev
    ensures CohortChange(CohortChange(prev, cohort, true), cohort, false) == prev
  {
    UncheckDistributes(prev, [cohort], cohort);
    UncheckAbsent(prev, cohort);
    assert WithoutCohort([cohort], cohort) == [];
    assert prev + [] == prev;
  }

  // ------------------------------------------------------------ timestamps

  /** `Math.floor(date.getTime() / 1000)`: whole seconds, rounded down. */
  function Timestamp(ms: int): (t: int)
    ensures t * 1000 <= ms < t * 1000 + 1000
  {
    ms / 1000
  }

  /** Distinct seconds give distinct timestamps; instants within a second share one. */
  lemma TimestampSeconds(ms: int, seconds: int)
    ensures Timestamp(ms) == seconds <==> seconds * 1000 <= ms < seconds * 1000 + 1000
  {
  }

  // --------------------------------------------------------------- records

  /** One entry of `heatmapData`. */
  datatype HeatmapRecord = HeatmapRecord(asset: string, cohort: string, value: real, date: string)

  /** `Math.random() * 1000 - 500`. */
  function MockValue(r: real): real
  {
    r * 1000.0 - 500.0
  }

  /** A draw in [0, 1) gives a value in [-500, 500). */
  lemma MockValueRange(r: real)
    requires 0.0 <= r < 1.0
    ensures -500.0 <= MockValue(r) < 500.0
  {
  }

  /**
   * The records `fetchData` builds: assets outer, selected cohorts inner,
   * the k-th record taking the k-th draw and the k-th clock reading.
   */
  function Records(assets: seq<string>, cohorts: seq<string>, draws: seq<real>, dates: seq<string>)
    : (records: seq<HeatmapRecord>)
    requires |draws| == |assets| * |cohorts| && |dates| == |draws|
    ensures |records| == |assets| * |cohorts|
  {
    var pairs := Product(assets, cohorts);
    seq(|pairs|, k requires 0 <= k < |pairs| =>
      HeatmapRecord(pairs[k].0, pairs[k].1, MockValue(draws[k]), dates[k]))
  }

  /**
   * Record i * |cohorts| + j belongs to asset i and cohort j and carries
   * the value of that draw and the date read when it was pushed.
   */
  lemma RecordAt(assets: seq<string>, cohorts: seq<string>, draws: seq<real>, dates: seq<string>, i: nat, j: nat)
    requires |draws| == |assets| * |cohorts| && |dates| == |draws| && i < |assets| && j < |cohorts|
    ensures i * |cohorts| + j < |Records(assets, cohorts, draws, dates)|
    ensures Records(assets, cohorts, draws, dates)[i * |cohorts| + j]
         == HeatmapRecord(assets[i], cohorts[j], MockValue(draws[i * |cohorts| + j]), dates[i * |cohorts| + j])
  {
    ProductAt(assets, cohorts, i, j);
  }

  /** With draws in [0, 1) every record's value is in [-500, 500). */
  lemma RecordValues(assets: seq<string>, cohorts: seq<string>, draws: seq<real>, dates: seq<string>)
    requires |draws| == |assets| * |cohorts| && |dates| == |draws|
    requires forall k :: 0 <= k < |draws| ==> 0.0 <= draws[k] < 1.0
    ensures forall rec :: rec in Records(assets, cohorts, draws, dates) ==> -500.0 <= rec.value < 500.0
  {
    var records := Records(assets, cohorts, draws, dates);
    forall rec | rec in records
      ensures -500.0 <= rec.value < 500.0
    {
      var k :| 0 <= k < |records| && records[k] == rec;
      MockValueRange(draws[k]);
    }
  }

  /** The nested `forEach` loops of `fetchData`. */
  method BuildRecords(assets: seq<string>, cohorts: seq<string>, draws: seq<real>, dates: seq<string>)
    returns (processedData: seq<HeatmapRecord>)
    requires |draws| == |assets| * |cohorts| && |dates| == |draws|
    ensures processedData == Records(assets, cohorts, draws, dates)
  {
    ghost var spec := Records(assets, cohorts, draws, dates);
    processedData := [];
    for i := 0 to |assets|
      invariant |processedData| == i * |cohorts|
      invariant processedData == spec[..|processedData|]
    {
      for j := 0 to |cohorts|
        invariant |processedData| == i * |cohorts| + j
        invariant processedData == spec[..|processedData|]
      {
        RecordAt(assets, cohorts, draws, dates, i, j);
        var mockValue := draws[|processedData|] * 1000.0 - 500.0;
        var rec := HeatmapRecord(assets[i], cohorts[j], mockValue, dates[|processedData|]);
        assert spec[..|processedData| + 1] == spec[..|processedData|] + [rec];
        processedData := processedData + [rec];
      }
    }
    assert spec[..|spec|] == spec;
  }

  // ---------------------------------------------------------------- the page

  /** The state held by `HomePage`'s `useState` hooks. */
  class HomePage {
    var selectedCohorts: seq<string>
    var startDate: int
    var endDate: int
    var heatmapData: seq<HeatmapRecord>
    var isLoading: bool
    var hasError: bool

    /**
     * The first render: every cohort, the last seven days, loading. The
     * start and the end each read the clock, at `startNow` and `endNow`.
     */
    constructor(startNow: int, endNow: int)
      ensures selectedCohorts == Api.CohortIds()
      ensures startDate == startNow - 7 * Heatmap.MsPerDay && endDate == endNow
      ensures heatmapData == [] && isLoading && !hasError
    {
      selectedCohorts := Api.CohortIds();
      startDate := startNow - 7 * Heatmap.MsPerDay;
      endDate := endNow;
      heatmapData := [];
      isLoading := true;
      hasError := false;
    }

    /** The query range the effect depends on, in whole seconds. */
    function StartTimestamp(): int
      reads this
    {
      Timestamp(startDate)
    }

    function EndTimestamp(): int
      reads this
    {
      Timestamp(endDate)
    }

    /** `handleCohortChange`: only the selection changes. */
    method HandleCohortChange(cohort: string, checked: bool)
      modifies this
      ensures selectedCohorts == CohortChange(old(selectedCohorts), cohort, checked)
      ensures startDate == old(startDate) && endDate == old(endDate)
      ensures heatmapData == old(heatmapData) && isLoading == old(isLoading) && hasError == old(hasError)
    {
      if checked {
        selectedCohorts := selectedCohorts + [cohort];
      } else {
        selectedCohorts := WithoutCohort(selectedCohorts, cohort);
      }
    }

    /** `handleDateChange`: both dates are replaced and nothing else changes. */
    method HandleDateChange(start: int, end: int)
      modifies this
      ensures startDate == start && endDate == end
      ensures selectedCohorts == old(selectedCohorts) && heatmapData == old(heatmapData)
      ensures isLoading == old(isLoading) && hasError == old(hasError)
    {
      startDate := start;
      endDate := end;
    }

    /**
     * `fetchData`. `thrown` says whether the body of the `try` throws; on
     * that path the old records stay and the error flag is raised. Either
     * way loading ends.
     */
    method FetchData(assets: seq<string>, draws: seq<real>, dates: seq<string>, thrown: bool)
      requires |draws| == |assets| * |selectedCohorts| && |dates| == |draws|
      modifies this
      ensures !isLoading
      ensures hasError <==> thrown
      ensures thrown ==> heatmapData == old(heatmapData)
      ensures !thrown ==> heatmapData == Records(assets, old(selectedCohorts), draws, dates)
      ensures selectedCohorts == old(selectedCohorts)
      ensures startDate == old(startDate) && endDate == old(endDate)
    {
      isLoading := true;
      hasError := false;
      if !thrown {
        var processedData := BuildRecords(assets, selectedCohorts, draws, dates);
        heatmapData := processedData;
      } else {
        hasError := true;
      }
      isLoading := false;
    }
  }
}
