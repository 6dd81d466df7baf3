/** The Monte-Carlo projection of website/montecarlo.py.

    For each requested horizon the engine builds an ensemble of n_sims value
    paths of a geometric Brownian motion discretised in log space, reduces
    every time index of the ensemble to its 10/25/50/75/90 percentiles and
    rounds them to whole units. The normal draws that NumPy's generator
    would produce are an input: `z(j, i, k)` is the draw of horizon number
    `j`, path `i`, step `k`. */
module MonteCarlo {
  import opened Numerics
  import opened Percentiles
  import opened FundStats

  type Draws = (int, int, int) -> real

  /** The arguments of `monte_carlo_projection`. */
  datatype Request = Request(
    fundId: int,
    initial: real,
    yearsList: seq<nat>,
    nSims: nat,
    stepsPerYear: nat)

  /** The call with every argument but the fund id left at its default (line 12). */
  function DefaultRequest(fundId: int): Request {
    Request(fundId, 100000.0, [1, 5, 10], 3000, 1)
  }

  /** The counts with which a horizon can be simulated: `1.0 / steps_per_year`
      raises for zero, and NumPy's percentile raises on an empty ensemble. */
  predicate ValidRequest(req: Request) {
    req.nSims >= 1 && req.stepsPerYear >= 1
  }

  /** One entry of `results`: the fan chart of one horizon. */
  datatype HorizonResult = HorizonResult(
    years: int,
    timeline: seq<int>,
    p10: seq<int>,
    p25: seq<int>,
    median: seq<int>,
    p75: seq<int>,
    p90: seq<int>,
    finalP25: int,
    finalMedian: int,
    finalP75: int)

  datatype ProjectionResult = ProjectionResult(fundName: string, results: seq<HorizonResult>)

  /** Why a call raises: the fund is unknown (line 16), `1.0 / steps_per_year`
      divides by zero (line 27), or the ensemble to reduce is empty (line 38). */
  datatype ProjectionError = LookupFailed(cause: StatsError) | ZeroDivision | EmptySample

  datatype Projection = Projected(value: ProjectionResult) | Failed(error: ProjectionError)

  // ---------------------------------------------------------------------------
  // Path construction (lines 26-36)

  /** The deterministic part of every log-return: (mu - sigma^2 / 2) * dt. */
  function Drift(mu: real, sigma: real, dt: real): real {
    (mu - 0.5 * sigma * sigma) * dt
  }

  /** The running sum of the first `t` log-returns of path `i`, each being
      drift + scale * z(i, k) with scale = sigma * sqrt(dt); 0 at index 0. */
  function LogSum(drift: real, scale: real, z: (int, int) -> real, i: int, t: nat): real {
    if t == 0 then 0.0 else LogSum(drift, scale, z, i, t - 1) + (drift + scale * z(i, t - 1))
  }

  /** The value of path `i` at time index `t`: initial * exp(log-sum). */
  function PathValue(m: Analysis, initial: real, drift: real, scale: real, z: (int, int) -> real, i: int, t: nat): real {
    initial * m.exp(LogSum(drift, scale, z, i, t))
  }

  /** The n_sims x (steps + 1) matrix `paths`, row by row. */
  function Ensemble(m: Analysis, initial: real, drift: real, scale: real, z: (int, int) -> real, nSims: nat, steps: nat): (rows: seq<seq<real>>)
    ensures |rows| == nSims && Rectangular(rows, steps + 1)
  {
    seq(nSims, i => seq(steps + 1, t requires 0 <= t => PathValue(m, initial, drift, scale, z, i, t)))
  }

  ghost predicate Rectangular(rows: seq<seq<real>>, width: nat) {
    forall i :: 0 <= i < |rows| ==> |rows[i]| == width
  }

  /** Fills the path matrix one path at a time (lines 30-36). */
  method SimulatePaths(m: Analysis, initial: real, drift: real, scale: real, z: (int, int) -> real, nSims: nat, steps: nat)
    returns (paths: array2<real>)
    ensures fresh(paths)
    ensures paths.Length0 == nSims && paths.Length1 == steps + 1
    ensures forall i, t :: 0 <= i < nSims && 0 <= t <= steps ==>
      paths[i, t] == PathValue(m, initial, drift, scale, z, i, t)
  {
    paths := new real[nSims, steps + 1];
    for i := 0 to nSims
      invariant forall i', t :: 0 <= i' < i && 0 <= t <= steps ==>
        paths[i', t] == PathValue(m, initial, drift, scale, z, i', t)
    {
      FillPath(paths, i, m, initial, drift, scale, z);
    }
  }

  /** Writes path `i`, keeping its cumulative log-return in `logSum` as `cumsum`
      does, with the leading zero of the prepended column; other paths are untouched. */
  method FillPath(paths: array2<real>, i: nat, m: Analysis, initial: real, drift: real, scale: real, z: (int, int) -> real)
    requires i < paths.Length0 && 1 <= paths.Length1
    modifies paths
    ensures forall t :: 0 <= t < paths.Length1 ==> paths[i, t] == PathValue(m, initial, drift, scale, z, i, t)
    ensures forall i', t :: 0 <= i' < paths.Length0 && i' != i && 0 <= t < paths.Length1 ==>
      paths[i', t] == old(paths[i', t])
  {
    var logSum := 0.0;
    paths[i, 0] := initial * m.exp(logSum);
    for t := 1 to paths.Length1
      invariant logSum == LogSum(drift, scale, z, i, t - 1)
      invariant forall t' :: 0 <= t' < t ==> paths[i, t'] == PathValue(m, initial, drift, scale, z, i, t')
      invariant forall i', t' :: 0 <= i' < paths.Length0 && i' != i && 0 <= t' < paths.Length1 ==>
        paths[i', t'] == old(paths[i', t'])
    {
      logSum := logSum + (drift + scale * z(i, t - 1));
      paths[i, t] := initial * m.exp(logSum);
    }
  }

  /** The matrix as a sequence of rows. */
  function RowsOf(paths: array2<real>): (rows: seq<seq<real>>)
    reads paths
    ensures |rows| == paths.Length0 && Rectangular(rows, paths.Length1)
    ensures forall i, t :: 0 <= i < paths.Length0 && 0 <= t < paths.Length1 ==> rows[i][t] == paths[i, t]
  {
    seq(paths.Length0, i requires 0 <= i < paths.Length0 reads paths =>
      seq(paths.Length1, t requires 0 <= t < paths.Length1 reads paths => paths[i, t]))
  }

  // ---------------------------------------------------------------------------
  // Percentile reduction and result record (lines 38-57)

  /** The values of all paths at time index `t`. */
  function Column(rows: seq<seq<real>>, t: nat): (col: seq<real>)
    requires forall i :: 0 <= i < |rows| ==> t < |rows[i]|
    ensures |col| == |rows|
    ensures forall i :: 0 <= i < |rows| ==> col[i] == rows[i][t]
  {
    seq(|rows|, i requires 0 <= i < |rows| => rows[i][t])
  }

  /** Percentile `p` at every time index, each rounded to a whole unit. */
  function Band(rows: seq<seq<real>>, width: nat, p: real): (band: seq<int>)
    requires |rows| >= 1 && Rectangular(rows, width) && 0.0 <= p <= 100.0
    ensures |band| == width
  {
    seq(width, t requires 0 <= t < width => RoundHalfEven(Percentile(Column(rows, t), p)))
  }

  /** The record built for one horizon from its ensemble. */
  function Summarize(horizon: nat, steps: nat, rows: seq<seq<real>>): (h: HorizonResult)
    requires |rows| >= 1 && Rectangular(rows, steps + 1)
  {
    var p10 := Band(rows, steps + 1, 10.0);
    var p25 := Band(rows, steps + 1, 25.0);
    var p50 := Band(rows, steps + 1, 50.0);
    var p75 := Band(rows, steps + 1, 75.0);
    var p90 := Band(rows, steps + 1, 90.0);
    HorizonResult(horizon, seq(steps + 1, t => t), p10, p25, p50, p75, p90, p25[steps], p50[steps], p75[steps])
  }

  /** Draws of horizon number `j`. */
  function DrawsFor(z: Draws, j: int): (int, int) -> real {
    (i, k) => z(j, i, k)
  }

  function StepsOf(horizon: nat, stepsPerYear: nat): nat {
    horizon * stepsPerYear
  }

  /** The length of one step in years. */
  function Dt(stepsPerYear: nat): real
    requires stepsPerYear >= 1
  {
    1.0 / stepsPerYear as real
  }

  /** The factor of each draw: sigma * sqrt(dt). */
  function Scale(m: Analysis, sigma: real, dt: real): real {
    sigma * m.sqrt(dt)
  }

  /** The ensemble of one horizon. */
  function HorizonEnsemble(m: Analysis, req: Request, mu: real, sigma: real, horizon: nat, zj: (int, int) -> real): (rows: seq<seq<real>>)
    requires ValidRequest(req)
    ensures |rows| == req.nSims && Rectangular(rows, StepsOf(horizon, req.stepsPerYear) + 1)
  {
    var dt := Dt(req.stepsPerYear);
    Ensemble(m, req.initial, Drift(mu, sigma, dt), Scale(m, sigma, dt), zj, req.nSims, StepsOf(horizon, req.stepsPerYear))
  }

  /** One iteration of the horizon loop. */
  function Horizon(m: Analysis, req: Request, mu: real, sigma: real, horizon: nat, zj: (int, int) -> real): HorizonResult
    requires ValidRequest(req)
  {
    Summarize(horizon, StepsOf(horizon, req.stepsPerYear), HorizonEnsemble(m, req, mu, sigma, horizon, zj))
  }

  /** What `monte_carlo_projection` returns for `table` and `req`. The counts
      are first used inside the horizon loop, so they fail only when there is
      a horizon to simulate. */
  function Project(m: Analysis, table: seq<AllocationRow>, req: Request, z: Draws): Projection {
    match FundStatisticsOf(table, req.fundId)
    case NotFound(e) => Failed(LookupFailed(e))
    case Found(st) =>
      if req.yearsList == [] then Projected(ProjectionResult(st.fundName, []))
      else if req.stepsPerYear == 0 then Failed(ZeroDivision)
      else if req.nSims == 0 then Failed(EmptySample)
      else Projected(ProjectionResult(st.fundName, Horizons(m, req, st.mu, st.sigma, z, |req.yearsList|)))
  }

  /** The records of the first `count` horizons, appended in request order. */
  function Horizons(m: Analysis, req: Request, mu: real, sigma: real, z: Draws, count: nat): (hs: seq<HorizonResult>)
    requires ValidRequest(req) && count <= |req.yearsList|
    ensures |hs| == count
  {
    if count == 0 then []
    else Horizons(m, req, mu, sigma, z, count - 1) + [Horizon(m, req, mu, sigma, req.yearsList[count - 1], DrawsFor(z, count - 1))]
  }

  /** Record `j` is the one of the `j`-th requested horizon, computed from draws `j`. */
  lemma {:induction false} HorizonsAt(m: Analysis, req: Request, mu: real, sigma: real, z: Draws, count: nat, j: nat)
    requires ValidRequest(req) && j < count <= |req.yearsList|
    ensures Horizons(m, req, mu, sigma, z, count)[j] == Horizon(m, req, mu, sigma, req.yearsList[j], DrawsFor(z, j))
  {
    var prev := Horizons(m, req, mu, sigma, z, count - 1);
    var last := Horizon(m, req, mu, sigma, req.yearsList[count - 1], DrawsFor(z, count - 1));
    assert Horizons(m, req, mu, sigma, z, count) == prev + [last];
    if j < count - 1 {
      HorizonsAt(m, req, mu, sigma, z, count - 1, j);
      assert (prev + [last])[j] == prev[j];
    } else {
      assert j == count - 1;
      assert (prev + [last])[j] == last;
    }
  }

  /** The engine: look the fund up, aggregate it, then append one record per horizon. */
  method MonteCarloProjection(m: Analysis, table: seq<AllocationRow>, req: Request, z: Draws) returns (r: Projection)
    ensures r == Project(m, table, req, z)
  {
    var group := Group(table, req.fundId);
    if group == [] {
      return Failed(LookupFailed(FundNotFound));
    }
    var fundName := group[0].fundName;
    var mu, sigma := Mu(group), Sigma(group);
    assert FundStatisticsOf(table, req.fundId) == Found(FundStatistics(fundName, mu, sigma));
    // The first horizon raises for a zero count, before any record exists.
    if req.yearsList == [] {
      return Projected(ProjectionResult(fundName, []));
    } else if req.stepsPerYear == 0 {
      return Failed(ZeroDivision);
    } else if req.nSims == 0 {
      return Failed(EmptySample);
    }
    var results: seq<HorizonResult> := [];
    for j := 0 to |req.yearsList|
      invariant results == Horizons(m, req, mu, sigma, z, j)
    {
      var record := SimulateHorizon(m, req, mu, sigma, req.yearsList[j], DrawsFor(z, j));
      results := results + [record];
    }
    r := Projected(ProjectionResult(fundName, results));
  }

  /** One iteration of the horizon loop (lines 26-60): fill the path matrix,
      then reduce it to the record. */
  method SimulateHorizon(m: Analysis, req: Request, mu: real, sigma: real, horizon: nat, zj: (int, int) -> real)
    returns (record: HorizonResult)
    requires ValidRequest(req)
    ensures record == Horizon(m, req, mu, sigma, horizon, zj)
  {
    var steps := StepsOf(horizon, req.stepsPerYear);
    var dt := Dt(req.stepsPerYear);
    var drift, scale := Drift(mu, sigma, dt), Scale(m, sigma, dt);
    var paths := SimulatePaths(m, req.initial, drift, scale, zj, req.nSims, steps);
    var rows := RowsOf(paths);
    EnsembleFromMatrix(paths, m, req.initial, drift, scale, zj, req.nSims, steps);
    assert rows == HorizonEnsemble(m, req, mu, sigma, horizon, zj);
    record := Summarize(horizon, steps, rows);
  }

  /** A matrix filled by `SimulatePaths` holds the ensemble, row by row. */
  lemma EnsembleFromMatrix(paths: array2<real>, m: Analysis, initial: real, drift: real, scale: real, z: (int, int) -> real, nSims: nat, steps: nat)
    requires paths.Length0 == nSims && paths.Length1 == steps + 1
    requires forall i, t :: 0 <= i < nSims && 0 <= t <= steps ==>
      paths[i, t] == PathValue(m, initial, drift, scale, z, i, t)
    ensures RowsOf(paths) == Ensemble(m, initial, drift, scale, z, nSims, steps)
  {
    var rows, expected := RowsOf(paths), Ensemble(m, initial, drift, scale, z, nSims, steps);
    forall i | 0 <= i < nSims ensures rows[i] == expected[i] {
      forall t | 0 <= t <= steps ensures rows[i][t] == expected[i][t] {
        assert rows[i][t] == paths[i, t];
      }
    }
  }

  // ---------------------------------------------------------------------------
  // Properties of one horizon's record

  /** The shape of a record: timeline 0..steps, five bands of steps + 1 values,
      and the three finals equal to the last values of p25, median and p75. */
  ghost predicate FanShape(h: HorizonResult, horizon: nat, steps: nat) {
    && h.years == horizon
    && |h.timeline| == steps + 1
    && (forall t :: 0 <= t <= steps ==> h.timeline[t] == t)
    && |h.p10| == |h.p25| == |h.median| == |h.p75| == |h.p90| == steps + 1
    && h.finalP25 == h.p25[steps]
    && h.finalMedian == h.median[steps]
    && h.finalP75 == h.p75[steps]
  }

  ghost predicate OrderedAt(h: HorizonResult, t: nat)
    requires t < |h.p10| && t < |h.p25| && t < |h.median| && t < |h.p75| && t < |h.p90|
  {
    h.p10[t] <= h.p25[t] <= h.median[t] <= h.p75[t] <= h.p90[t]
  }

  /** All five bands take the value `v` at index `t`. */
  ghost predicate CollapsedAt(h: HorizonResult, t: nat, v: int)
    requires t < |h.p10| && t < |h.p25| && t < |h.median| && t < |h.p75| && t < |h.p90|
  {
    h.p10[t] == v && h.p25[t] == v && h.median[t] == v && h.p75[t] == v && h.p90[t] == v
  }

  lemma BandAt(rows: seq<seq<real>>, width: nat, p: real, t: nat)
    requires |rows| >= 1 && Rectangular(rows, width) && 0.0 <= p <= 100.0 && t < width
    ensures Band(rows, width, p)[t] == RoundHalfEven(Percentile(Column(rows, t), p))
  {
  }

  lemma SummarizeShape(horizon: nat, steps: nat, rows: seq<seq<real>>)
    requires |rows| >= 1 && Rectangular(rows, steps + 1)
    ensures FanShape(Summarize(horizon, steps, rows), horizon, steps)
  {
  }

  /** p10 <= p25 <= median <= p75 <= p90 at every index, after rounding. */
  lemma SummarizeOrdered(horizon: nat, steps: nat, rows: seq<seq<real>>)
    requires |rows| >= 1 && Rectangular(rows, steps + 1)
    ensures var h := Summarize(horizon, steps, rows);
      FanShape(h, horizon, steps) && forall t :: 0 <= t <= steps ==> OrderedAt(h, t)
  {
    var h := Summarize(horizon, steps, rows);
    SummarizeShape(horizon, steps, rows);
    forall t | 0 <= t <= steps ensures OrderedAt(h, t) {
      var col := Column(rows, t);
      PercentileMonotone(col, 10.0, 25.0);
      PercentileMonotone(col, 25.0, 50.0);
      PercentileMonotone(col, 50.0, 75.0);
      PercentileMonotone(col, 75.0, 90.0);
      RoundMonotone(Percentile(col, 10.0), Percentile(col, 25.0));
      RoundMonotone(Percentile(col, 25.0), Percentile(col, 50.0));
      RoundMonotone(Percentile(col, 50.0), Percentile(col, 75.0));
      RoundMonotone(Percentile(col, 75.0), Percentile(col, 90.0));
      BandAt(rows, steps + 1, 10.0, t);
      BandAt(rows, steps + 1, 25.0, t);
      BandAt(rows, steps + 1, 50.0, t);
      BandAt(rows, steps + 1, 75.0, t);
      BandAt(rows, steps + 1, 90.0, t);
    }
  }

  /** The outer bands never leave the rounded range of the paths at that index. */
  lemma SummarizeWithinPaths(horizon: nat, steps: nat, rows: seq<seq<real>>, t: nat)
    requires |rows| >= 1 && Rectangular(rows, steps + 1) && t <= steps
    ensures exists i :: 0 <= i < |rows| && RoundHalfEven(rows[i][t]) <= Summarize(horizon, steps, rows).p10[t]
    ensures exists j :: 0 <= j < |rows| && Summarize(horizon, steps, rows).p90[t] <= RoundHalfEven(rows[j][t])
  {
    var col := Column(rows, t);
    PercentileWithinSample(col, 10.0);
    PercentileWithinSample(col, 90.0);
    var i :| 0 <= i < |col| && col[i] <= Percentile(col, 10.0);
    var j :| 0 <= j < |col| && Percentile(col, 90.0) <= col[j];
    RoundMonotone(col[i], Percentile(col, 10.0));
    RoundMonotone(Percentile(col, 90.0), col[j]);
    BandAt(rows, steps + 1, 10.0, t);
    BandAt(rows, steps + 1, 90.0, t);
  }

  /** Where every path has the same value, all five bands are that value rounded. */
  lemma SummarizeCollapses(horizon: nat, steps: nat, rows: seq<seq<real>>, t: nat, c: real)
    requires |rows| >= 1 && Rectangular(rows, steps + 1) && t <= steps
    requires forall i :: 0 <= i < |rows| ==> rows[i][t] == c
    ensures CollapsedAt(Summarize(horizon, steps, rows), t, RoundHalfEven(c))
  {
    var col := Column(rows, t);
    PercentileOfConstant(col, 10.0, c);
    PercentileOfConstant(col, 25.0, c);
    PercentileOfConstant(col, 50.0, c);
    PercentileOfConstant(col, 75.0, c);
    PercentileOfConstant(col, 90.0, c);
    BandAt(rows, steps + 1, 10.0, t);
    BandAt(rows, steps + 1, 25.0, t);
    BandAt(rows, steps + 1, 50.0, t);
    BandAt(rows, steps + 1, 75.0, t);
    BandAt(rows, steps + 1, 90.0, t);
  }

  // ---------------------------------------------------------------------------
  // Properties of the ensemble

  /** Every path starts at exactly `initial`: its log-sum is 0 and exp(0) = 1. */
  lemma EnsembleStartsAtInitial(m: Analysis, initial: real, drift: real, scale: real, z: (int, int) -> real, nSims: nat, steps: nat)
    requires m.exp(0.0) == 1.0
    ensures forall i :: 0 <= i < nSims ==> Ensemble(m, initial, drift, scale, z, nSims, steps)[i][0] == initial
  {
  }

  /** Without diffusion the log-sum after `t` steps is t * drift, whatever the draws. */
  lemma {:induction false} LogSumWithoutDiffusion(drift: real, z: (int, int) -> real, i: int, t: nat)
    ensures LogSum(drift, 0.0, z, i, t) == t as real * drift
  {
    if t > 0 {
      LogSumWithoutDiffusion(drift, z, i, t - 1);
      assert (t - 1) as real * drift + drift == t as real * drift;
    }
  }

  /** Without diffusion a path is the deterministic curve initial * exp(mu * t * dt). */
  lemma PathWithoutDiffusion(m: Analysis, initial: real, mu: real, dt: real, z: (int, int) -> real, i: int, t: nat)
    ensures PathValue(m, initial, mu * dt, 0.0, z, i, t) == DeterministicValue(m, initial, mu, dt, t)
  {
    LogSumWithoutDiffusion(mu * dt, z, i, t);
    var x := LogSum(mu * dt, 0.0, z, i, t);
    assert x == t as real * (mu * dt);
    assert x == mu * t as real * dt;
    assert PathValue(m, initial, mu * dt, 0.0, z, i, t) == initial * m.exp(x);
    assert DeterministicValue(m, initial, mu, dt, t) == initial * m.exp(mu * t as real * dt);
  }

  /** Without diffusion all paths coincide with the deterministic curve. */
  lemma EnsembleWithoutDiffusion(m: Analysis, initial: real, mu: real, dt: real, drift: real, z: (int, int) -> real, nSims: nat, steps: nat, t: nat)
    requires drift == mu * dt && t <= steps
    ensures forall i :: 0 <= i < nSims ==>
      Ensemble(m, initial, drift, 0.0, z, nSims, steps)[i][t] == DeterministicValue(m, initial, mu, dt, t)
  {
    forall i | 0 <= i < nSims
      ensures Ensemble(m, initial, drift, 0.0, z, nSims, steps)[i][t] == DeterministicValue(m, initial, mu, dt, t)
    {
      PathWithoutDiffusion(m, initial, mu, dt, z, i, t);
    }
  }

  // ---------------------------------------------------------------------------
  // Properties of the whole projection

  /** The lookup fails exactly when no row of the table has the fund id. */
  lemma ProjectFailsIffFundUnknown(m: Analysis, table: seq<AllocationRow>, req: Request, z: Draws)
    ensures Project(m, table, req, z) == Failed(LookupFailed(FundNotFound))
      <==> forall k :: 0 <= k < |table| ==> table[k].fundId != req.fundId
  {
  }

  /** A call fails exactly when the fund is unknown or there is a horizon and
      one of the counts is zero; a division by zero comes before an empty
      sample. Every other call returns one record per horizon. */
  lemma ProjectFailures(m: Analysis, table: seq<AllocationRow>, req: Request, z: Draws)
    ensures var known := exists k :: 0 <= k < |table| && table[k].fundId == req.fundId;
      var r := Project(m, table, req, z);
      && (r.Failed? <==> !known || (req.yearsList != [] && !ValidRequest(req)))
      && (r == Failed(ZeroDivision) <==> known && req.yearsList != [] && req.stepsPerYear == 0)
      && (r == Failed(EmptySample) <==> known && req.yearsList != [] && req.stepsPerYear != 0 && req.nSims == 0)
      && (r.Projected? ==> |r.value.results| == |req.yearsList|)
  {
  }

  /** On success: the fund name is that of the first matching row, and record `j`
      is the one of horizon `j`, simulated with mu and sigma of the fund. */
  lemma ProjectedRecord(m: Analysis, table: seq<AllocationRow>, req: Request, z: Draws, j: nat)
    requires ValidRequest(req) && j < |req.yearsList|
    requires Project(m, table, req, z).Projected?
    ensures FundStatisticsOf(table, req.fundId).Found?
    ensures var st := FundStatisticsOf(table, req.fundId).stats;
      && Project(m, table, req, z).value.fundName == st.fundName
      && |Project(m, table, req, z).value.results| == |req.yearsList|
      && Project(m, table, req, z).value.results[j]
         == Horizon(m, req, st.mu, st.sigma, req.yearsList[j], DrawsFor(z, j))
  {
    var found := FundStatisticsOf(table, req.fundId);
    assert found.Found?;
    var st := found.stats;
    var hs := Horizons(m, req, st.mu, st.sigma, z, |req.yearsList|);
    assert Project(m, table, req, z) == Projected(ProjectionResult(st.fundName, hs));
    HorizonsAt(m, req, st.mu, st.sigma, z, |req.yearsList|, j);
  }

  /** One record per requested horizon, in request order, each of the right shape. */
  lemma ProjectShape(m: Analysis, table: seq<AllocationRow>, req: Request, z: Draws)
    requires ValidRequest(req) && Project(m, table, req, z).Projected?
    ensures var rs := Project(m, table, req, z).value.results;
      && |rs| == |req.yearsList|
      && forall j :: 0 <= j < |rs| ==> FanShape(rs[j], req.yearsList[j], StepsOf(req.yearsList[j], req.stepsPerYear))
  {
    var rs := Project(m, table, req, z).value.results;
    var st := FundStatisticsOf(table, req.fundId).stats;
    forall j | 0 <= j < |req.yearsList|
      ensures FanShape(rs[j], req.yearsList[j], StepsOf(req.yearsList[j], req.stepsPerYear))
    {
      ProjectedRecord(m, table, req, z, j);
      var horizon := req.yearsList[j];
      SummarizeShape(horizon, StepsOf(horizon, req.stepsPerYear), HorizonEnsemble(m, req, st.mu, st.sigma, horizon, DrawsFor(z, j)));
    }
  }

  /** The bands of every record are ordered at every time index. */
  lemma ProjectOrdered(m: Analysis, table: seq<AllocationRow>, req: Request, z: Draws)
    requires ValidRequest(req) && Project(m, table, req, z).Projected?
    ensures var rs := Project(m, table, req, z).value.results;
      forall j, t :: 0 <= j < |rs| && 0 <= t <= StepsOf(req.yearsList[j], req.stepsPerYear) ==>
        FanShape(rs[j], req.yearsList[j], StepsOf(req.yearsList[j], req.stepsPerYear)) && OrderedAt(rs[j], t)
  {
    var rs := Project(m, table, req, z).value.results;
    var st := FundStatisticsOf(table, req.fundId).stats;
    ProjectShape(m, table, req, z);
    forall j | 0 <= j < |rs|
      ensures forall t :: 0 <= t <= StepsOf(req.yearsList[j], req.stepsPerYear) ==>
        FanShape(rs[j], req.yearsList[j], StepsOf(req.yearsList[j], req.stepsPerYear)) && OrderedAt(rs[j], t)
    {
      ProjectedRecord(m, table, req, z, j);
      var horizon := req.yearsList[j];
      SummarizeOrdered(horizon, StepsOf(horizon, req.stepsPerYear), HorizonEnsemble(m, req, st.mu, st.sigma, horizon, DrawsFor(z, j)));
    }
  }

  /** At time index 0 every band of every record is `initial` rounded. */
  lemma ProjectStartsAtInitial(m: Analysis, table: seq<AllocationRow>, req: Request, z: Draws)
    requires ValidRequest(req) && m.exp(0.0) == 1.0 && Project(m, table, req, z).Projected?
    ensures var rs := Project(m, table, req, z).value.results;
      forall j :: 0 <= j < |rs| ==>
        FanShape(rs[j], req.yearsList[j], StepsOf(req.yearsList[j], req.stepsPerYear))
        && CollapsedAt(rs[j], 0, RoundHalfEven(req.initial))
  {
    var rs := Project(m, table, req, z).value.results;
    var st := FundStatisticsOf(table, req.fundId).stats;
    ProjectShape(m, table, req, z);
    forall j | 0 <= j < |rs|
      ensures FanShape(rs[j], req.yearsList[j], StepsOf(req.yearsList[j], req.stepsPerYear))
        && CollapsedAt(rs[j], 0, RoundHalfEven(req.initial))
    {
      ProjectedRecord(m, table, req, z, j);
      var horizon := req.yearsList[j];
      var steps := StepsOf(horizon, req.stepsPerYear);
      var dt := Dt(req.stepsPerYear);
      var rows := HorizonEnsemble(m, req, st.mu, st.sigma, horizon, DrawsFor(z, j));
      EnsembleStartsAtInitial(m, req.initial, Drift(st.mu, st.sigma, dt), Scale(m, st.sigma, dt), DrawsFor(z, j), req.nSims, steps);
      SummarizeCollapses(horizon, steps, rows, 0, req.initial);
    }
  }

  /** initial * exp(mu * t * dt): the one path of a fund without volatility. */
  function DeterministicValue(m: Analysis, initial: real, mu: real, dt: real, t: nat): real {
    initial * m.exp(mu * t as real * dt)
  }

  /** With sigma = 0 the record of a horizon has all five bands on the deterministic curve. */
  lemma HorizonWithoutVolatility(m: Analysis, req: Request, mu: real, horizon: nat, zj: (int, int) -> real)
    requires ValidRequest(req)
    ensures var h := Horizon(m, req, mu, 0.0, horizon, zj);
      var steps := StepsOf(horizon, req.stepsPerYear);
      FanShape(h, horizon, steps)
      && forall t :: 0 <= t <= steps ==>
        CollapsedAt(h, t, RoundHalfEven(DeterministicValue(m, req.initial, mu, Dt(req.stepsPerYear), t)))
  {
    var steps := StepsOf(horizon, req.stepsPerYear);
    var dt := Dt(req.stepsPerYear);
    var rows := HorizonEnsemble(m, req, mu, 0.0, horizon, zj);
    assert Drift(mu, 0.0, dt) == mu * dt;
    assert Scale(m, 0.0, dt) == 0.0;
    assert rows == Ensemble(m, req.initial, mu * dt, 0.0, zj, req.nSims, steps);
    SummarizeShape(horizon, steps, rows);
    forall t | 0 <= t <= steps
      ensures CollapsedAt(Summarize(horizon, steps, rows), t, RoundHalfEven(DeterministicValue(m, req.initial, mu, dt, t)))
    {
      EnsembleWithoutDiffusion(m, req.initial, mu, dt, mu * dt, zj, req.nSims, steps, t);
      SummarizeCollapses(horizon, steps, rows, t, DeterministicValue(m, req.initial, mu, dt, t));
    }
  }

  /** With sigma = 0 all bands of every record coincide with the deterministic
      curve initial * exp(mu * t * dt). */
  lemma ProjectWithoutVolatility(m: Analysis, table: seq<AllocationRow>, req: Request, z: Draws)
    requires ValidRequest(req) && Project(m, table, req, z).Projected?
    requires FundStatisticsOf(table, req.fundId).stats.sigma == 0.0
    ensures var mu := FundStatisticsOf(table, req.fundId).stats.mu;
      var rs := Project(m, table, req, z).value.results;
      forall j :: 0 <= j < |rs| ==>
        FanShape(rs[j], req.yearsList[j], StepsOf(req.yearsList[j], req.stepsPerYear))
        && forall t :: 0 <= t <= StepsOf(req.yearsList[j], req.stepsPerYear) ==>
          CollapsedAt(rs[j], t, RoundHalfEven(DeterministicValue(m, req.initial, mu, Dt(req.stepsPerYear), t)))
  {
    var rs := Project(m, table, req, z).value.results;
    var st := FundStatisticsOf(table, req.fundId).stats;
    ProjectShape(m, table, req, z);
    forall j | 0 <= j < |rs|
      ensures FanShape(rs[j], req.yearsList[j], StepsOf(req.yearsList[j], req.stepsPerYear))
        && forall t :: 0 <= t <= StepsOf(req.yearsList[j], req.stepsPerYear) ==>
          CollapsedAt(rs[j], t, RoundHalfEven(DeterministicValue(m, req.initial, st.mu, Dt(req.stepsPerYear), t)))
    {
      ProjectedRecord(m, table, req, z, j);
      HorizonWithoutVolatility(m, req, st.mu, req.yearsList[j], DrawsFor(z, j));
    }
  }

  /** With the default horizons, counts and any initial amount, a call fails
      only for an unknown fund, and otherwise returns the records of 1, 5 and
      10 years with yearly time indices 0..1, 0..5 and 0..10. */
  lemma DefaultsProject(m: Analysis, table: seq<AllocationRow>, fundId: int, initial: real, z: Draws)
    ensures var r := Project(m, table, DefaultRequest(fundId).(initial := initial), z);
      && (r.Failed? <==> forall k :: 0 <= k < |table| ==> table[k].fundId != fundId)
      && (r.Projected? ==>
        && |r.value.results| == 3
        && r.value.results[0].years == 1 && |r.value.results[0].timeline| == 2
        && r.value.results[1].years == 5 && |r.value.results[1].timeline| == 6
        && r.value.results[2].years == 10 && |r.value.results[2].timeline| == 11)
  {
    var req := DefaultRequest(fundId).(initial := initial);
    assert ValidRequest(req) && req.yearsList == [1, 5, 10];
    ProjectFailures(m, table, req, z);
    if Project(m, table, req, z).Projected? {
      ProjectShape(m, table, req, z);
      assert StepsOf(1, 1) == 1 && StepsOf(5, 1) == 5 && StepsOf(10, 1) == 10;
    }
  }
}
