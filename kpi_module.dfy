/**
 * Performance indicators of a simulation result (`calculate_kpis`): energy
 * imported from the grid, solar energy generated, the share of it consumed
 * on site, and the peak grid exchange. `dt` is the step in hours, taken in
 * the source from the first two PV timestamps.
 */
module KpiModule {
  import opened TimeSeries
  import Optimizer

  datatype Kpis = Kpis(
    totalGridImportKwh: real,
    totalSolarGenerationKwh: real,
    solarSelfConsumptionPct: real,
    peakDemandKw: real)

  /** The strictly positive entries, in order (`s[s > 0]`). */
  function Positives(s: seq<real>): (r: seq<real>)
    ensures |r| <= |s|
    ensures forall i :: 0 <= i < |r| ==> r[i] > 0.0
  {
    if s == [] then []
    else (if s[0] > 0.0 then [s[0]] else []) + Positives(s[1..])
  }

  /** Every entry raised to at least 0 (`s.clip(lower=0)`). */
  function ClipLow(s: seq<real>): (r: seq<real>)
    ensures |r| == |s|
    ensures forall i :: 0 <= i < |s| ==> r[i] >= 0.0 && r[i] >= s[i]
    ensures forall i :: 0 <= i < |s| ==> (r[i] == s[i] || r[i] == 0.0)
  {
    seq(|s|, i requires 0 <= i < |s| => if s[i] < 0.0 then 0.0 else s[i])
  }

  /** Summing the positive entries is summing every entry clipped at 0. */
  lemma {:induction false} PositivesSum(s: seq<real>)
    ensures Sum(Positives(s)) == Sum(ClipLow(s))
  {
    if s != [] {
      PositivesSum(s[1..]);
      assert ClipLow(s) == [ClipLow(s)[0]] + ClipLow(s[1..]);
      SumCons(ClipLow(s)[0], ClipLow(s[1..]));
      if s[0] > 0.0 {
        SumCons(s[0], Positives(s[1..]));
      } else {
        assert Positives(s) == Positives(s[1..]);
      }
    }
  }

  /**
   * Energy imported from the grid: the positive grid entries summed over the
   * run; it is the clipped grid series summed, and is never negative.
   */
  function GridImportKwh(netGrid: seq<real>, dt: real): (e: real)
    ensures e == Sum(ClipLow(netGrid)) * dt
    ensures dt >= 0.0 ==> e >= 0.0
  {
    PositivesSum(netGrid);
    SumNonnegative(ClipLow(netGrid));
    NonnegativeProduct(Sum(ClipLow(netGrid)), dt);
    Sum(Positives(netGrid)) * dt
  }

  /** The power the site drew from its own PV at each instant, `pv - net_grid` clipped at 0. */
  function SelfConsumedKw(pv: seq<real>, netGrid: seq<real>): seq<real>
    requires |pv| == |netGrid|
  {
    ClipLow(Sub(pv, netGrid))
  }

  /** Solar energy consumed on site over the run, in kWh. */
  function SelfConsumedKwh(pv: seq<real>, netGrid: seq<real>, dt: real): real
    requires |pv| == |netGrid|
  {
    Sum(SelfConsumedKw(pv, netGrid)) * dt
  }

  /** The guarded percentage `part / whole * 100 if whole > 0 else 0`. */
  function Percentage(part: real, whole: real): (pct: real)
    ensures whole <= 0.0 ==> pct == 0.0
    ensures whole > 0.0 ==> pct * whole == 100.0 * part
  {
    if whole > 0.0 then part / whole * 100.0 else 0.0
  }

  /**
   * `calculate_kpis`. The source reads the second PV timestamp and subtracts
   * the aligned PV and grid series, hence the requirements.
   */
  function CalculateKpis(results: Optimizer.SimResult, dt: real): (k: Kpis)
    requires |results.pv| >= 2 && |results.netGridKw| == |results.pv|
    ensures k.totalGridImportKwh == Sum(ClipLow(results.netGridKw)) * dt
    ensures dt >= 0.0 ==> k.totalGridImportKwh >= 0.0
    ensures k.totalSolarGenerationKwh == Sum(results.pv) * dt
    ensures k.totalSolarGenerationKwh <= 0.0 ==> k.solarSelfConsumptionPct == 0.0
    ensures k.solarSelfConsumptionPct
         == Percentage(SelfConsumedKwh(results.pv, results.netGridKw, dt), k.totalSolarGenerationKwh)
    ensures k.peakDemandKw == Max(results.netGridKw)
  {
    var netGrid := results.netGridKw;
    var totalImport := GridImportKwh(netGrid, dt);
    var totalGeneration := Sum(results.pv) * dt;
    var selfConsumed := SelfConsumedKwh(results.pv, netGrid, dt);
    Kpis(
      totalImport,
      totalGeneration,
      Percentage(selfConsumed, totalGeneration),
      Max(netGrid))
  }

  /** The peak is the largest grid exchange, and one that occurs. */
  lemma PeakDemand(results: Optimizer.SimResult, dt: real)
    requires |results.pv| >= 2 && |results.netGridKw| == |results.pv|
    ensures exists i :: 0 <= i < |results.netGridKw| && results.netGridKw[i] == CalculateKpis(results, dt).peakDemandKw
    ensures forall i :: 0 <= i < |results.netGridKw| ==> results.netGridKw[i] <= CalculateKpis(results, dt).peakDemandKw
  {
    var m := Max(results.netGridKw);
    assert m in results.netGridKw;
  }

  lemma NonnegativeProduct(x: real, y: real)
    requires x >= 0.0
    ensures y >= 0.0 ==> x * y >= 0.0
  {
  }

  /** Solar energy consumed on site is never negative. */
  lemma SelfConsumedNonnegative(pv: seq<real>, netGrid: seq<real>, dt: real)
    requires |pv| == |netGrid| && dt >= 0.0
    ensures Sum(SelfConsumedKw(pv, netGrid)) * dt >= 0.0
  {
    SumNonnegative(SelfConsumedKw(pv, netGrid));
    NonnegativeProduct(Sum(SelfConsumedKw(pv, netGrid)), dt);
  }

  /** Grid import depends only on the positive grid entries: changing the others leaves it as it was. */
  lemma ImportIgnoresExport(a: seq<real>, b: seq<real>, dt: real)
    requires |a| == |b|
    requires forall i :: 0 <= i < |a| ==> (a[i] > 0.0 || b[i] > 0.0) ==> a[i] == b[i]
    ensures GridImportKwh(a, dt) == GridImportKwh(b, dt)
  {
    assert ClipLow(a) == ClipLow(b);
  }

  /**
   * A flat grid draw of `level` over `n` instants without PV: `n * level * dt`
   * kWh imported, no generation, no self-consumption and a peak of `level`.
   */
  lemma FlatDrawKpis(results: Optimizer.SimResult, n: nat, level: real, dt: real)
    requires n >= 2 && level >= 0.0
    requires results.pv == Constant(n, 0.0) && results.netGridKw == Constant(n, level)
    ensures CalculateKpis(results, dt) == Kpis(n as real * level * dt, 0.0, 0.0, level)
  {
    FlatDraw(n, level, dt);
  }

  lemma FlatDraw(n: nat, level: real, dt: real)
    requires n >= 2 && level >= 0.0
    ensures GridImportKwh(Constant(n, level), dt) == n as real * level * dt
    ensures Sum(Constant(n, 0.0)) * dt == 0.0
    ensures Percentage(SelfConsumedKwh(Constant(n, 0.0), Constant(n, level), dt), 0.0) == 0.0
    ensures Max(Constant(n, level)) == level
  {
    assert ClipLow(Constant(n, level)) == Constant(n, level);
    SumConstant(n, level);
    SumConstant(n, 0.0);
    assert Constant(n, level)[0] == level;
  }

  /**
   * The self-consumption percentage is not bounded by 100: a steady PV
   * output of `x` kW exported in full (a grid exchange of `-x`) counts as
   * 200 %.
   */
  lemma ExportCountsTwice(results: Optimizer.SimResult, n: nat, x: real, dt: real)
    requires n >= 2 && x > 0.0 && dt > 0.0
    requires results.pv == Constant(n, x) && results.netGridKw == Constant(n, -x)
    ensures CalculateKpis(results, dt).solarSelfConsumptionPct == 200.0
  {
    var k := CalculateKpis(results, dt);
    ExportEnergies(n, x, dt);
    TwiceOver(k.solarSelfConsumptionPct, k.totalSolarGenerationKwh,
              SelfConsumedKwh(results.pv, results.netGridKw, dt));
  }

  lemma ExportEnergies(n: nat, x: real, dt: real)
    requires n >= 2 && x > 0.0 && dt > 0.0
    ensures Sum(Constant(n, x)) * dt > 0.0
    ensures SelfConsumedKwh(Constant(n, x), Constant(n, -x), dt) == 2.0 * (Sum(Constant(n, x)) * dt)
  {
    assert SelfConsumedKw(Constant(n, x), Constant(n, -x)) == Constant(n, 2.0 * x);
    SumConstant(n, 2.0 * x);
    SumConstant(n, x);
    Doubling(n as real, x, dt);
    PositiveProduct(n as real, x);
    PositiveProduct(n as real * x, dt);
  }

  lemma Doubling(a: real, b: real, c: real)
    ensures (a * (2.0 * b)) * c == 2.0 * ((a * b) * c)
  {
  }

  lemma PositiveProduct(a: real, b: real)
    requires a > 0.0 && b > 0.0
    ensures a * b > 0.0
  {
  }

  lemma TwiceOver(pct: real, whole: real, part: real)
    requires whole > 0.0 && part == 2.0 * whole && pct * whole == 100.0 * part
    ensures pct == 200.0
  {
  }
}
