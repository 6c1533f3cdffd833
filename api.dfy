/**
 * The data-access layer: the cohort table, the asset list taken from the
 * environment, the rate-limit-aware fetch loop, the five Glassnode flow
 * mappings and the cohort-to-fetcher dispatch behind the SWR hook.
 *
 * The network is not modelled: every attempt of the fetch loop takes its
 * outcome from a script given by the caller.
 */
module Api {
  import opened Wrappers
  import opened Text
  import Grid

  // ---------------------------------------------------------------- cohorts

  datatype CohortInfo = CohortInfo(id: string, caption: string, description: string)

  /** The cohort table, in display order. */
  const Cohorts: seq<CohortInfo> := [
    CohortInfo("exchanges", "Exchanges", "Centralized exchanges"),
    CohortInfo("whales", "Whales", "> 1K BTC equivalent"),
    CohortInfo("miners", "Miners", "Mining pools"),
    CohortInfo("smart-contracts", "Smart Contracts", "DeFi protocols"),
    CohortInfo("retail", "Retail", "< 1 BTC equivalent")
  ]

  /** `COHORTS.map(c => c.id)`. */
  function CohortIds(): (ids: seq<string>)
    ensures |ids| == |Cohorts|
    ensures forall k :: 0 <= k < |ids| ==> ids[k] == Cohorts[k].id
  {
    seq(|Cohorts|, k requires 0 <= k < |Cohorts| => Cohorts[k].id)
  }

  /** The table holds five cohorts with distinct ids, in this order. */
  lemma CohortTable()
    ensures |Cohorts| == 5
    ensures CohortIds() == ["exchanges", "whales", "miners", "smart-contracts", "retail"]
    ensures Grid.NoDuplicates(CohortIds())
  {
    var ids := CohortIds();
    assert ids == ["exchanges", "whales", "miners", "smart-contracts", "retail"];
  }

  // ----------------------------------------------------------------- assets

  const DefaultAssets: seq<string> := ["BTC", "ETH", "SOL", "XRP", "USDT", "USDC"]

  /**
   * `process.env.NEXT_PUBLIC_ASSETS?.split(',') || [...]`: `env` is the
   * variable's value, None when it is unset. Every array is truthy, so the
   * `||` falls back to the default only on the `undefined` of an unset
   * variable.
   */
  function GetAssets(env: Option<string>): (assets: seq<string>)
    ensures |assets| >= 1
    ensures env.None? ==> assets == DefaultAssets
    ensures env.Some? ==> Join(assets, ',') == env.value
    ensures env.Some? ==> forall i :: 0 <= i < |assets| ==> ',' !in assets[i]
  {
    match env
    case Some(v) => JoinSplit(v, ','); Split(v, ',')
    case None => DefaultAssets
  }

  /** A set but empty variable gives one empty symbol, not the default list. */
  lemma GetAssetsEmptyVariable()
    ensures GetAssets(Some("")) == [""]
  {
  }

  /** The asset list is exactly the comma-separated pieces of the variable. */
  lemma GetAssetsPieces(symbols: seq<string>)
    requires |symbols| >= 1
    requires forall i :: 0 <= i < |symbols| ==> ',' !in symbols[i]
    ensures GetAssets(Some(Join(symbols, ','))) == symbols
  {
    SplitJoin(symbols, ',');
  }

  // ------------------------------------------------------------ fetch loop

  const MaxRetries: nat := 3

  function Pow2(i: nat): nat
  {
    if i == 0 then 1 else 2 * Pow2(i - 1)
  }

  /** `Math.pow(2, i) * 1000` milliseconds. */
  function Backoff(i: nat): nat
  {
    Pow2(i) * 1000
  }

  /** One element of a Glassnode response, `{t, v}`. */
  datatype Point = Point(t: int, v: real)

  /** What one `fetch(url)` call produces. */
  datatype Attempt =
    | Response(status: int, body: Option<seq<Point>>)  // body None: not valid JSON
    | NetworkFailure(message: string)                  // fetch itself rejects

  datatype FetchError =
    | HttpError(status: int)      // `new Error("HTTP error! status: " + status)`
    | NetworkError(message: string)
    | InvalidJson                 // the rejection of `response.json()`

  /** The settled promise of `fetcher`; `Rejected(None)` is `throw undefined`. */
  datatype FetchResult = Resolved(points: seq<Point>) | Rejected(reason: Option<FetchError>)

  /** Calls made, the `setTimeout` delays awaited in order, and the outcome. */
  datatype FetchRun = FetchRun(attempts: nat, waits: seq<nat>, result: FetchResult)

  /** `response.ok`. */
  predicate IsOk(status: int)
  {
    200 <= status <= 299
  }

  /** `run` preceded by `attempts` calls that waited `waits`. */
  function After(attempts: nat, waits: seq<nat>, run: FetchRun): FetchRun
  {
    FetchRun(attempts + run.attempts, waits + run.waits, run.result)
  }

  lemma AfterAfter(a: nat, w: seq<nat>, b: nat, x: seq<nat>, run: FetchRun)
    ensures After(a, w, After(b, x, run)) == After(a + b, w + x, run)
  {
    assert (w + x) + run.waits == w + (x + run.waits);
  }

  /** The delay the `catch` branch awaits at iteration i: none after the last call. */
  function CatchWait(i: nat): seq<nat>
  {
    if i < MaxRetries - 1 then [Backoff(i)] else []
  }

  /** What one iteration does: settle the promise, or wait and go on with a (new) last error. */
  datatype Step = Settle(result: FetchResult) | Next(wait: seq<nat>, lastError: Option<FetchError>)

  /**
   * Iteration i on outcome `a`. An ok response settles with its body; the JSON
   * promise is returned, not awaited, inside the `try`, so a parse failure
   * escapes the `catch`. A 429 waits and continues, even on the last
   * iteration, leaving the last error as it was. Any other failure reaches the
   * `catch`, becomes the last error and waits only if another iteration follows.
   */
  function StepOf(a: Attempt, i: nat, lastError: Option<FetchError>): Step
  {
    match a
    case Response(status, body) =>
      if IsOk(status) then
        Settle(if body.Some? then Resolved(body.value) else Rejected(Some(InvalidJson)))
      else if status == 429 then Next([Backoff(i)], lastError)
      else Next(CatchWait(i), Some(HttpError(status)))
    case NetworkFailure(m) => Next(CatchWait(i), Some(NetworkError(m)))
  }

  /** The loop from iteration `i` on, with `lastError` recorded so far; after
      the last iteration it throws the last error. */
  function Retry(script: seq<Attempt>, i: nat, lastError: Option<FetchError>): FetchRun
    requires |script| >= MaxRetries
    decreases MaxRetries - i
  {
    if i >= MaxRetries then FetchRun(0, [], Rejected(lastError))
    else
      match StepOf(script[i], i, lastError)
      case Settle(result) => FetchRun(1, [], result)
      case Next(wait, e) => After(1, wait, Retry(script, i + 1, e))
  }

  /** `fetcher(url)`, the outcome of each possible call given by `script`. */
  method Fetcher(script: seq<Attempt>) returns (attempts: nat, waits: seq<nat>, result: FetchResult)
    requires |script| >= MaxRetries
    ensures FetchRun(attempts, waits, result) == Retry(script, 0, None)
  {
    var lastError: Option<FetchError> := None;
    attempts, waits := 0, [];
    assert [] + Retry(script, 0, None).waits == Retry(script, 0, None).waits;
    for i := 0 to MaxRetries
      invariant attempts == i
      invariant Retry(script, 0, None) == After(attempts, waits, Retry(script, i, lastError))
    {
      ghost var before, step := waits, StepOf(script[i], i, lastError);
      attempts := attempts + 1;
      var thrown: FetchError;
      var response := script[i];
      if response.Response? {
        if !IsOk(response.status) {
          if response.status == 429 {
            // rate limited: wait and retry
            waits := waits + [Backoff(i)];
            AfterAfter(i, before, 1, step.wait, Retry(script, i + 1, lastError));
            continue;
          }
          thrown := HttpError(response.status);
        } else {
          result := if response.body.Some? then Resolved(response.body.value) else Rejected(Some(InvalidJson));
          assert waits + [] == waits;
          return;
        }
      } else {
        thrown := NetworkError(response.message);
      }
      // catch (error)
      lastError := Some(thrown);
      if i < MaxRetries - 1 {
        waits := waits + [Backoff(i)];
      }
      AfterAfter(i, before, 1, step.wait, Retry(script, i + 1, lastError));
    }
    result := Rejected(lastError);
    assert waits + [] == waits;
  }

  function SumWaits(waits: seq<nat>): nat
  {
    if waits == [] then 0 else waits[0] + SumWaits(waits[1..])
  }

  lemma {:induction false} SumWaitsAppend(a: seq<nat>, b: seq<nat>)
    ensures SumWaits(a + b) == SumWaits(a) + SumWaits(b)
  {
    if a == [] {
      assert a + b == b;
    } else {
      assert (a + b)[1..] == a[1..] + b;
      SumWaitsAppend(a[1..], b);
    }
  }

  /** The most the loop can still wait from iteration i on. */
  function WaitBudget(i: nat): nat
    decreases MaxRetries - i
  {
    if i >= MaxRetries then 0 else Backoff(i) + WaitBudget(i + 1)
  }

  /** From iteration i, at most 3 - i calls are made and at most WaitBudget(i) is waited. */
  lemma {:induction false} RetryBounds(script: seq<Attempt>, i: nat, lastError: Option<FetchError>)
    requires |script| >= MaxRetries && i <= MaxRetries
    ensures Retry(script, i, lastError).attempts <= MaxRetries - i
    ensures i < MaxRetries ==> Retry(script, i, lastError).attempts >= 1
    ensures SumWaits(Retry(script, i, lastError).waits) <= WaitBudget(i)
    decreases MaxRetries - i
  {
    if i < MaxRetries {
      match script[i]
      case Response(status, body) =>
        if !IsOk(status) {
          var e := if status == 429 then lastError else Some(HttpError(status));
          RetryBounds(script, i + 1, e);
          var w := if status == 429 then [Backoff(i)] else CatchWait(i);
          SumWaitsAppend(w, Retry(script, i + 1, e).waits);
        }
      case NetworkFailure(m) =>
        RetryBounds(script, i + 1, Some(NetworkError(m)));
        SumWaitsAppend(CatchWait(i), Retry(script, i + 1, Some(NetworkError(m))).waits);
    }
  }

  /** The fetcher makes one to three calls and waits at most 7 seconds in all. */
  lemma FetcherBounds(script: seq<Attempt>)
    requires |script| >= MaxRetries
    ensures 1 <= Retry(script, 0, None).attempts <= 3
    ensures SumWaits(Retry(script, 0, None).waits) <= 7000
  {
    RetryBounds(script, 0, None);
    assert WaitBudget(0) == 7000;
  }

  predicate OkAt(script: seq<Attempt>, k: nat)
    requires k < |script|
  {
    script[k].Response? && IsOk(script[k].status)
  }

  /**
   * The first ok response, at call k, settles the fetcher: its body when it
   * parses, the JSON error otherwise; no later call is made.
   */
  lemma {:induction false} FetcherStopsAtFirstOk(script: seq<Attempt>, i: nat, lastError: Option<FetchError>, k: nat)
    requires |script| >= MaxRetries && i <= k < MaxRetries
    requires OkAt(script, k)
    requires forall j :: i <= j < k ==> !OkAt(script, j)
    ensures Retry(script, i, lastError).attempts == k - i + 1
    ensures Retry(script, i, lastError).result ==
      if script[k].body.Some? then Resolved(script[k].body.value) else Rejected(Some(InvalidJson))
    decreases k - i
  {
    if i < k {
      assert !OkAt(script, i);
      match script[i]
      case Response(status, body) =>
        FetcherStopsAtFirstOk(script, i + 1, if status == 429 then lastError else Some(HttpError(status)), k);
      case NetworkFailure(m) =>
        FetcherStopsAtFirstOk(script, i + 1, Some(NetworkError(m)), k);
    }
  }

  /** The error `catch` records for call j; None for a 429, which skips the `catch`. */
  function Recorded(a: Attempt): Option<FetchError>
  {
    match a
    case Response(status, _) => if status == 429 then None else Some(HttpError(status))
    case NetworkFailure(m) => Some(NetworkError(m))
  }

  /** `lastError` after calls i .. n-1 of a script without an ok response. */
  function LastRecorded(script: seq<Attempt>, n: nat, lastError: Option<FetchError>): Option<FetchError>
    requires n <= |script|
  {
    if n == 0 then lastError
    else if Recorded(script[n - 1]).Some? then Recorded(script[n - 1])
    else LastRecorded(script, n - 1, lastError)
  }

  /**
   * With no ok response among the three calls, the fetcher throws the error
   * of the last call that was not a 429: undefined when every call was a 429.
   */
  lemma {:induction false} FetcherThrowsLastError(script: seq<Attempt>, i: nat, lastError: Option<FetchError>)
    requires |script| >= MaxRetries && i <= MaxRetries
    requires forall j :: 0 <= j < MaxRetries ==> !OkAt(script, j)
    requires lastError == LastRecorded(script, i, None)
    ensures Retry(script, i, lastError).attempts == MaxRetries - i
    ensures Retry(script, i, lastError).result == Rejected(LastRecorded(script, MaxRetries, None))
    decreases MaxRetries - i
  {
    if i < MaxRetries {
      assert !OkAt(script, i);
      FetcherThrowsLastError(script, i + 1, LastRecorded(script, i + 1, None));
    }
  }

  /** The delays of iterations i .. 2 when every one of them is a 429. */
  function RateLimitWaits(i: nat): seq<nat>
    decreases MaxRetries - i
  {
    if i >= MaxRetries then [] else [Backoff(i)] + RateLimitWaits(i + 1)
  }

  lemma {:induction false} RateLimitedFrom(script: seq<Attempt>, i: nat, lastError: Option<FetchError>)
    requires |script| >= MaxRetries && i <= MaxRetries
    requires forall j :: i <= j < MaxRetries ==> script[j].Response? && script[j].status == 429
    ensures Retry(script, i, lastError) == FetchRun(MaxRetries - i, RateLimitWaits(i), Rejected(lastError))
    decreases MaxRetries - i
  {
    if i < MaxRetries {
      RateLimitedFrom(script, i + 1, lastError);
    }
  }

  /** Three 429 replies: waits of 1, 2 and 4 seconds, then `throw undefined`. */
  lemma FetcherAllRateLimited(script: seq<Attempt>)
    requires |script| >= MaxRetries
    requires forall j :: 0 <= j < MaxRetries ==> script[j].Response? && script[j].status == 429
    ensures Retry(script, 0, None) == FetchRun(3, [1000, 2000, 4000], Rejected(None))
  {
    RateLimitedFrom(script, 0, None);
    assert RateLimitWaits(0) == [1000, 2000, 4000] by {
      assert Backoff(0) == 1000 && Backoff(1) == 2000 && Backoff(2) == 4000;
    }
  }

  /**
   * A non-429 HTTP error at call i, whatever its body, is thrown inside the
   * `try` and caught by its own `catch`: it becomes the last error, the loop
   * waits only if another call follows, and then goes on with call i + 1.
   */
  lemma FetcherRetriesHttpError(script: seq<Attempt>, i: nat, lastError: Option<FetchError>)
    requires |script| >= MaxRetries && i < MaxRetries
    requires script[i].Response? && !IsOk(script[i].status) && script[i].status != 429
    ensures Retry(script, i, lastError)
         == After(1, CatchWait(i), Retry(script, i + 1, Some(HttpError(script[i].status))))
    ensures i < 2 ==> Retry(script, i, lastError).waits[0] == Backoff(i)
    ensures i == 2 ==> Retry(script, i, lastError) == FetchRun(1, [], Rejected(Some(HttpError(script[i].status))))
  {
  }

  /** Whether the loop waits after call k: after a 429 always, after another failure only if a call follows. */
  predicate WaitsAfter(a: Attempt, k: nat)
  {
    !(a.Response? && IsOk(a.status)) && ((a.Response? && a.status == 429) || k < MaxRetries - 1)
  }

  /** One iteration that does not settle: one call, its wait, then the rest of the loop. */
  lemma RetryNext(script: seq<Attempt>, i: nat, lastError: Option<FetchError>)
    requires |script| >= MaxRetries && i < MaxRetries
    requires StepOf(script[i], i, lastError).Next?
    ensures Retry(script, i, lastError)
         == After(1, StepOf(script[i], i, lastError).wait, Retry(script, i + 1, StepOf(script[i], i, lastError).lastError))
    ensures StepOf(script[i], i, lastError).wait == if WaitsAfter(script[i], i) then [Backoff(i)] else []
  {
  }

  /**
   * The number of waits of any run from iteration i: every call but the
   * last is followed by a wait, and the last one is exactly when it was a
   * 429 or came before the third call.
   */
  lemma {:induction false} RetryWaitCount(script: seq<Attempt>, i: nat, lastError: Option<FetchError>)
    requires |script| >= MaxRetries && i < MaxRetries
    ensures 1 <= Retry(script, i, lastError).attempts && i + Retry(script, i, lastError).attempts <= MaxRetries
    ensures var last := i + Retry(script, i, lastError).attempts - 1;
      |Retry(script, i, lastError).waits|
        == Retry(script, i, lastError).attempts - 1 + (if WaitsAfter(script[last], last) then 1 else 0)
    decreases MaxRetries - i
  {
    var step := StepOf(script[i], i, lastError);
    if step.Next? {
      RetryNext(script, i, lastError);
      if i + 1 < MaxRetries {
        RetryWaitCount(script, i + 1, step.lastError);
      }
    }
  }

  /** The j-th wait of any run from iteration i follows call i + j and lasts 2^(i + j) seconds. */
  lemma {:induction false} RetryWaitDurations(script: seq<Attempt>, i: nat, lastError: Option<FetchError>)
    requires |script| >= MaxRetries && i <= MaxRetries
    ensures forall j :: 0 <= j < |Retry(script, i, lastError).waits| ==>
      Retry(script, i, lastError).waits[j] == Backoff(i + j)
    decreases MaxRetries - i
  {
    if i < MaxRetries {
      var step := StepOf(script[i], i, lastError);
      if step.Next? {
        RetryNext(script, i, lastError);
        RetryWaitDurations(script, i + 1, step.lastError);
        var rest := Retry(script, i + 1, step.lastError).waits;
        var waits := Retry(script, i, lastError).waits;
        assert waits == step.wait + rest;
        forall j | 0 <= j < |waits|
          ensures waits[j] == Backoff(i + j)
        {
          if |step.wait| == 1 && j > 0 {
            assert waits[j] == rest[j - 1];
          }
        }
      }
    }
  }

  // ----------------------------------------------------------- flow queries

  /** `{ date, value }`. */
  datatype FlowData = FlowData(date: int, value: real)

  /** `data.map(d => ({ date: d.t, value: d.v }))`. */
  function ToFlowData(points: seq<Point>): (flows: seq<FlowData>)
    ensures |flows| == |points|
    ensures forall k :: 0 <= k < |points| ==> flows[k].date == points[k].t && flows[k].value == points[k].v
  {
    if points == [] then [] else [FlowData(points[0].t, points[0].v)] + ToFlowData(points[1..])
  }

  /** The converse renaming, `{ t: date, v: value }`. */
  function ToPoints(flows: seq<FlowData>): (points: seq<Point>)
    ensures |points| == |flows|
  {
    if flows == [] then [] else [Point(flows[0].date, flows[0].value)] + ToPoints(flows[1..])
  }

  /** The mapping only renames fields: it loses nothing ... */
  lemma {:induction false} ToFlowDataRoundTrip(points: seq<Point>)
    ensures ToPoints(ToFlowData(points)) == points
  {
    if points != [] {
      ToFlowDataRoundTrip(points[1..]);
    }
  }

  /** ... and invents nothing. */
  lemma {:induction false} ToPointsRoundTrip(flows: seq<FlowData>)
    ensures ToFlowData(ToPoints(flows)) == flows
  {
    if flows != [] {
      ToPointsRoundTrip(flows[1..]);
    }
  }

  /** The Glassnode metric behind each of the five `get*Flows` functions. */
  datatype Metric = ExchangeFlows | WhaleFlows | MinerFlows | SmartContractFlows | RetailFlows

  function MetricPath(m: Metric): string
  {
    match m
    case ExchangeFlows => "volume_change_from_exchanges"
    case WhaleFlows => "volume_change_whale"
    case MinerFlows => "volume_change_miners"
    case SmartContractFlows => "volume_change_smart_contracts"
    case RetailFlows => "volume_change_retail"
  }

  const MetricsBase: string := "https://api.glassnode.com/v2/metrics/transactions/"

  /** The query's tail: the range in whole seconds and the daily interval. */
  function RangeQuery(start: int, end: int): string
  {
    "&s=" + IntToString(start) + "&u=" + IntToString(end) + "&i=1d"
  }

  /**
   * The request URL; an unset API key is rendered as `undefined`. It hits
   * the metric's own endpoint under the transactions base path, names the
   * asset and the key, and ends with the requested range; the pieces fill
   * the whole URL.
   */
  function FlowUrl(m: Metric, asset: string, apiKey: Option<string>, start: int, end: int): (url: string)
    ensures |MetricsBase| + |MetricPath(m)| + 7 <= |url|
    ensures url[..|MetricsBase|] == MetricsBase
    ensures url[|MetricsBase|..|MetricsBase| + |MetricPath(m)|] == MetricPath(m)
    ensures url[|MetricsBase| + |MetricPath(m)|..|MetricsBase| + |MetricPath(m)| + 7] == "?asset="
    ensures var p := |MetricsBase| + |MetricPath(m)| + 7;
      var q := p + |asset| + 9;
      var key := apiKey.GetOr("undefined");
      q + |key| + |RangeQuery(start, end)| == |url| &&
      url[p..p + |asset|] == asset &&
      url[p + |asset|..q] == "&api_key=" &&
      url[q..q + |key|] == key
    ensures |RangeQuery(start, end)| <= |url| && url[|url| - |RangeQuery(start, end)|..] == RangeQuery(start, end)
  {
    var key := apiKey.GetOr("undefined");
    var middle := asset + "&api_key=" + key;
    Parts(MetricsBase, MetricPath(m), "?asset=", middle, RangeQuery(start, end));
    Middle(MetricsBase + MetricPath(m) + "?asset=", asset, "&api_key=", key, RangeQuery(start, end));
    MetricsBase + MetricPath(m) + "?asset=" + middle + RangeQuery(start, end)
  }

  /** Where the middle of three concatenated pieces sits. */
  lemma Slice(a: string, b: string, c: string)
    ensures |a| + |b| <= |a + b + c| && (a + b + c)[|a|..|a| + |b|] == b
  {
  }

  /** Where the three parts of a middle piece `x + y + z` sit. */
  lemma Middle(pre: string, x: string, y: string, z: string, post: string)
    ensures var s := pre + (x + y + z) + post;
      var p := |pre|;
      |s| == p + |x| + |y| + |z| + |post| &&
      s[p..p + |x|] == x && s[p + |x|..p + |x| + |y|] == y &&
      s[p + |x| + |y|..p + |x| + |y| + |z|] == z
  {
    var s := pre + (x + y + z) + post;
    assert s == pre + x + (y + z + post);
    Slice(pre, x, y + z + post);
    assert s == (pre + x) + y + (z + post);
    Slice(pre + x, y, z + post);
    assert s == (pre + x + y) + z + post;
    Slice(pre + x + y, z, post);
  }

  /** Where each of five concatenated pieces sits. */
  lemma Parts(a: string, b: string, c: string, d: string, e: string)
    ensures var s := a + b + c + d + e;
      s[..|a|] == a && s[|a|..|a| + |b|] == b && s[|a| + |b|..|a| + |b| + |c|] == c &&
      s[|s| - |e|..] == e
  {
  }

  /** The endpoint names differ in their fifteenth character, after `volume_change_`. */
  lemma MetricPathsDiffer(m1: Metric, m2: Metric)
    ensures |MetricPath(m1)| > 14 && |MetricPath(m2)| > 14
    ensures MetricPath(m1)[14] == MetricPath(m2)[14] <==> m1 == m2
  {
  }

  /** The URL names its metric: two requests for different metrics never share a URL. */
  lemma FlowUrlNamesMetric(m1: Metric, a1: string, k1: Option<string>, s1: int, e1: int,
                           m2: Metric, a2: string, k2: Option<string>, s2: int, e2: int)
    requires FlowUrl(m1, a1, k1, s1, e1) == FlowUrl(m2, a2, k2, s2, e2)
    ensures m1 == m2
  {
    var u := FlowUrl(m1, a1, k1, s1, e1);
    MetricPathsDiffer(m1, m2);
    assert u[|MetricsBase| + 14] == MetricPath(m1)[14] by {
      assert u[|MetricsBase|..|MetricsBase| + |MetricPath(m1)|][14] == MetricPath(m1)[14];
    }
    assert u[|MetricsBase| + 14] == MetricPath(m2)[14] by {
      assert u[|MetricsBase|..|MetricsBase| + |MetricPath(m2)|][14] == MetricPath(m2)[14];
    }
  }

  datatype FlowsResult = Flows(data: seq<FlowData>) | FlowsError(reason: Option<FetchError>)

  /**
   * `getExchangeFlows` ... `getRetailFlows`: fetch the metric's URL (its calls
   * answered by `script`) and rename the fields of every element.
   */
  method GetFlows(m: Metric, asset: string, apiKey: Option<string>, start: int, end: int, script: seq<Attempt>)
    returns (url: string, flows: FlowsResult)
    requires |script| >= MaxRetries
    ensures url == FlowUrl(m, asset, apiKey, start, end)
    ensures Retry(script, 0, None).result.Resolved? ==> flows == Flows(ToFlowData(Retry(script, 0, None).result.points))
    ensures Retry(script, 0, None).result.Rejected? ==> flows == FlowsError(Retry(script, 0, None).result.reason)
  {
    url := FlowUrl(m, asset, apiKey, start, end);
    var _, _, result := Fetcher(script);
    match result
    case Resolved(points) => flows := Flows(ToFlowData(points));
    case Rejected(reason) => flows := FlowsError(reason);
  }

  // --------------------------------------------------------- SWR dispatch

  /** The fetcher table of `useFlows`, indexed by cohort id. */
  function FlowFunction(cohort: string): (m: Option<Metric>)
    ensures m.Some? <==> cohort in CohortIds()
  {
    CohortTable();
    if cohort == "exchanges" then Some(ExchangeFlows)
    else if cohort == "whales" then Some(WhaleFlows)
    else if cohort == "miners" then Some(MinerFlows)
    else if cohort == "smart-contracts" then Some(SmartContractFlows)
    else if cohort == "retail" then Some(RetailFlows)
    else None
  }

  const Metrics: seq<Metric> := [ExchangeFlows, WhaleFlows, MinerFlows, SmartContractFlows, RetailFlows]

  /** Each cohort of the table is served by its own metric, in table order. */
  lemma FlowFunctionTable()
    ensures forall k :: 0 <= k < |Cohorts| ==> FlowFunction(CohortIds()[k]) == Some(Metrics[k])
    ensures forall c, d :: FlowFunction(c).Some? && FlowFunction(c) == FlowFunction(d) ==> c == d
  {
    CohortTable();
  }

  /** The `${start}-${end}` tail of a cache key. */
  function DateSuffix(start: int, end: int): string
  {
    IntToString(start) + "-" + IntToString(end)
  }

  /**
   * The SWR key: null (no request) for a cohort without a fetcher, and
   * otherwise the asset, the cohort and the date range, dash-separated.
   */
  function SwrKey(asset: string, cohort: string, start: int, end: int): (key: Option<string>)
    ensures key.None? <==> cohort !in CohortIds()
    ensures key.Some? ==>
      var k := key.value;
      var n := |asset| + 1 + |cohort|;
      n + 1 <= |k| &&
      k[..|asset|] == asset && k[|asset|] == '-' &&
      k[|asset| + 1..n] == cohort && k[n] == '-' &&
      k[n + 1..] == DateSuffix(start, end)
  {
    if FlowFunction(cohort).Some? then
      var k := (asset + "-" + cohort + "-") + DateSuffix(start, end);
      assert k == asset + ("-" + cohort + "-" + DateSuffix(start, end));
      assert k == (asset + "-") + cohort + ("-" + DateSuffix(start, end));
      Slice(asset + "-", cohort, "-" + DateSuffix(start, end));
      Some(k)
    else None
  }

  /** In `a-y`, with `a` a rendered integer, the first dash after position 0 ends `a`. */
  lemma FirstDash(a: string, y: string)
    requires |a| >= 1 && AllDigits(a[1..])
    ensures (a + "-" + y)[|a|] == '-'
    ensures forall j :: 1 <= j < |a| ==> (a + "-" + y)[j] != '-'
  {
    forall j | 1 <= j < |a|
      ensures (a + "-" + y)[j] != '-'
    {
      assert (a + "-" + y)[j] == a[1..][j - 1];
    }
  }

  lemma DashSplit(a: string, y: string, b: string, z: string)
    requires |a| >= 1 && AllDigits(a[1..]) && |b| >= 1 && AllDigits(b[1..])
    requires a + "-" + y == b + "-" + z
    ensures a == b && y == z
  {
    var k := a + "-" + y;
    FirstDash(a, y);
    FirstDash(b, z);
    assert |a| == |b|;
    assert a == k[..|a|] == b;
    assert y == k[|a| + 1..] == z;
  }

  lemma CancelPrefix(p: string, x: string, y: string)
    requires p + x == p + y
    ensures x == y
  {
    assert x == (p + x)[|p|..];
    assert y == (p + y)[|p|..];
  }

  /** The five cohort ids differ in their first letter. */
  lemma CohortInitials(c1: string, c2: string)
    requires c1 in CohortIds() && c2 in CohortIds()
    ensures |c1| > 0 && |c2| > 0
    ensures c1[0] == c2[0] ==> c1 == c2
  {
    CohortTable();
  }

  /**
   * For assets without a dash, such as the default symbols, the cache key
   * determines the asset, the cohort and the date range: two requests
   * share a cache entry only when they are the same request.
   */
  lemma SwrKeyInjective(a1: string, c1: string, s1: int, e1: int, a2: string, c2: string, s2: int, e2: int)
    requires '-' !in a1 && '-' !in a2
    requires c1 in CohortIds() && c2 in CohortIds()
    requires SwrKey(a1, c1, s1, e1) == SwrKey(a2, c2, s2, e2)
    ensures a1 == a2 && c1 == c2 && s1 == s2 && e1 == e2
  {
    var k := SwrKey(a1, c1, s1, e1).value;
    assert |a1| == |a2| by {
      if |a1| < |a2| {
        assert false;
      } else if |a2| < |a1| {
        assert false;
      }
    }
    assert a1 == k[..|a1|] == a2;
    CohortInitials(c1, c2);
    assert c1[0] == k[|a1| + 1] == c2[0] by {
      assert k[|a1| + 1..|a1| + 1 + |c1|][0] == c1[0];
      assert k[|a2| + 1..|a2| + 1 + |c2|][0] == c2[0];
    }
    SwrKeyDistinguishesRanges(a1, c1, s1, e1, s2, e2);
  }

  /** For one asset and cohort, distinct date ranges get distinct cache keys. */
  lemma SwrKeyDistinguishesRanges(asset: string, cohort: string, s1: int, e1: int, s2: int, e2: int)
    requires cohort in CohortIds()
    ensures SwrKey(asset, cohort, s1, e1) == SwrKey(asset, cohort, s2, e2) <==> s1 == s2 && e1 == e2
  {
    if SwrKey(asset, cohort, s1, e1) == SwrKey(asset, cohort, s2, e2) {
      CancelPrefix(asset + "-" + cohort + "-", DateSuffix(s1, e1), DateSuffix(s2, e2));
      DashSplit(IntToString(s1), IntToString(e1), IntToString(s2), IntToString(e2));
      IntToStringInjective(s1, s2);
      IntToStringInjective(e1, e2);
    }
  }
}
