/**
 * Whole runs of the pipeline — configuration defaults, EV charging, battery
 * dispatch, grid exchange and indicators — on simple input shapes.
 */
module Scenarios {
  import opened TimeSeries
  import ParseInputs
  import BessModel
  import EvModel
  import Optimizer
  import KpiModule

  /** The configuration produced from an empty user input. */
  const DefaultConfig := ParseInputs.GetConfig(ParseInputs.EmptyInput)

  /** A configuration with no vehicles to charge and no usable battery. */
  predicate NothingToDispatch(config: ParseInputs.Input) {
    && config.bess.Some? && config.ev.Some?
    && EvModel.ChargeHours(EvModel.ParamsOf(config.ev.value)) != 0.0
    && EvModel.ParamsOf(config.ev.value).fleetSize == 0.0
    && (Optimizer.BessParamsOf(config).capacityKwh == 0.0 || Optimizer.BessParamsOf(config).powerKw == 0.0)
  }

  /** The default configuration has no vehicles and a battery of zero capacity and zero power. */
  lemma DefaultConfigIdle()
    ensures Optimizer.BessParamsOf(DefaultConfig) == BessModel.BessParams(0.0, 0.0, 0.9)
    ensures EvModel.ParamsOf(DefaultConfig.ev.value) == EvModel.EvParams(0.0, 50.0, ParseInputs.Window(9.0, 17.0))
    ensures NothingToDispatch(DefaultConfig)
  {
  }

  /** Without vehicles or battery, the grid exchange is the load less PV. */
  lemma IdleRun(load: seq<real>, timestamps: seq<Timestamp>, pv: seq<real>,
                config: ParseInputs.Input, dt: real)
    requires Optimizer.Runnable(load, timestamps, pv, config, dt) && NothingToDispatch(config)
    ensures Optimizer.RunOptimization(load, timestamps, pv, config, dt).netGridKw == Sub(load, pv)
  {
    EvModel.EmptyFleetIdle(EvModel.ParamsOf(config.ev.value), timestamps);
    Optimizer.NoBatteryPassThrough(load, timestamps, pv, config, dt);
  }

  lemma SubConstant(n: nat, a: real, b: real)
    ensures Sub(Constant(n, a), Constant(n, b)) == Constant(n, a - b)
  {
  }

  /**
   * A flat load over `n` instants without PV, with no vehicles and no
   * battery, is drawn from the grid unchanged: `n * level * dt` kWh imported
   * (24 hourly steps of 100 kW give 2400 kWh), a peak of `level` and no
   * self-consumption.
   */
  lemma FlatLoad(n: nat, level: real, timestamps: seq<Timestamp>, config: ParseInputs.Input, dt: real)
    requires n >= 2 && |timestamps| == n && level >= 0.0 && dt > 0.0 && NothingToDispatch(config)
    ensures Optimizer.Runnable(Constant(n, level), timestamps, Constant(n, 0.0), config, dt)
    ensures var r := Optimizer.RunOptimization(Constant(n, level), timestamps, Constant(n, 0.0), config, dt);
      && r.netGridKw == Constant(n, level)
      && KpiModule.CalculateKpis(r, dt) == KpiModule.Kpis(n as real * level * dt, 0.0, 0.0, level)
  {
    var r := Optimizer.RunOptimization(Constant(n, level), timestamps, Constant(n, 0.0), config, dt);
    IdleRun(Constant(n, level), timestamps, Constant(n, 0.0), config, dt);
    SubConstant(n, level, 0.0);
    KpiModule.FlatDrawKpis(r, n, level, dt);
  }

  /**
   * A steady PV output of `x` kW with no load, no vehicles and no battery is
   * exported in full, yet the indicators report 200 % solar self-consumption.
   */
  lemma SurplusOver100(n: nat, x: real, timestamps: seq<Timestamp>, config: ParseInputs.Input, dt: real)
    requires n >= 2 && |timestamps| == n && x > 0.0 && dt > 0.0 && NothingToDispatch(config)
    ensures Optimizer.Runnable(Constant(n, 0.0), timestamps, Constant(n, x), config, dt)
    ensures var r := Optimizer.RunOptimization(Constant(n, 0.0), timestamps, Constant(n, x), config, dt);
      && r.netGridKw == Constant(n, -x)
      && KpiModule.CalculateKpis(r, dt).solarSelfConsumptionPct == 200.0
  {
    var r := Optimizer.RunOptimization(Constant(n, 0.0), timestamps, Constant(n, x), config, dt);
    IdleRun(Constant(n, 0.0), timestamps, Constant(n, x), config, dt);
    SubConstant(n, 0.0, x);
    KpiModule.ExportCountsTwice(r, n, x, dt);
  }
}
