/**
 * The composition layer (`run_optimization`): EV charging is added to the
 * site load, the battery is dispatched against that gross demand and the PV
 * series, and the grid exchange is what remains.
 *
 * The PV series is an input: its generator is not part of this model.
 * Dispatch keeps the source's signs: a discharge is negative and the grid
 * exchange subtracts the dispatch, so a discharge raises `netGridKw` and a
 * charge lowers it.
 */
module Optimizer {
  import opened TimeSeries
  import ParseInputs
  import BessModel
  import EvModel

  /** The result dictionary: `pv`, `ev`, `bess` and `net_grid_kW`. */
  datatype SimResult = SimResult(pv: seq<real>, ev: seq<real>, bess: BessModel.Trace, netGridKw: seq<real>)

  /**
   * The common requirements of a run: one load entry and one PV entry per
   * timestamp, at least two of them (the battery model reads the second to
   * find the step `dt`), a positive step, a `bess` and an `ev` section, and
   * an EV window of nonzero length.
   */
  predicate Runnable(load: seq<real>, timestamps: seq<Timestamp>, pv: seq<real>,
                     config: ParseInputs.Input, dt: real)
  {
    && |timestamps| == |load| && |pv| == |load| && |load| >= 2 && dt > 0.0
    && config.bess.Some? && config.ev.Some?
    && EvModel.ChargeHours(EvModel.ParamsOf(config.ev.value)) != 0.0
  }

  function BessParamsOf(config: ParseInputs.Input): BessModel.BessParams
    requires config.bess.Some?
  {
    BessModel.ParamsOf(config.bess.value)
  }

  /** Every series of the result has one entry per load instant, and the grid exchange is load + EV - PV - dispatch. */
  function RunOptimization(load: seq<real>, timestamps: seq<Timestamp>, pv: seq<real>,
                           config: ParseInputs.Input, dt: real): (r: SimResult)
    requires Runnable(load, timestamps, pv, config, dt)
    ensures |r.pv| == |load| && |r.ev| == |load| && |r.netGridKw| == |load|
    ensures |r.bess.dispatchKw| == |load| && |r.bess.socKwh| == |load|
    ensures r.pv == pv
    ensures r.ev == EvModel.ChargingDemand(EvModel.ParamsOf(config.ev.value), timestamps)
    ensures forall i :: 0 <= i < |load| ==>
      r.netGridKw[i] == load[i] + r.ev[i] - pv[i] - r.bess.dispatchKw[i]
  {
    var ev := EvModel.ChargingDemand(EvModel.ParamsOf(config.ev.value), timestamps);
    var gross := Add(load, ev);
    var bess := BessModel.Dispatch(BessParamsOf(config), dt, gross, pv);
    var netGrid := Sub(Sub(gross, pv), bess.dispatchKw);
    SimResult(pv, ev, bess, netGrid)
  }

  /**
   * The battery runs on gross demand: each of its steps sees load + EV - PV
   * at that instant, starting half full.
   */
  lemma BatterySeesGrossDemand(load: seq<real>, timestamps: seq<Timestamp>, pv: seq<real>,
                               config: ParseInputs.Input, dt: real, i: nat)
    requires Runnable(load, timestamps, pv, config, dt) && i < |load|
    ensures var r := RunOptimization(load, timestamps, pv, config, dt);
      var p := BessParamsOf(config);
      BessModel.Step(p, dt, BessModel.SocBefore(BessModel.InitialSoc(p), r.bess, i), load[i] + r.ev[i] - pv[i])
        == BessModel.StepOut(r.bess.socKwh[i], r.bess.dispatchKw[i])
  {
    var r := RunOptimization(load, timestamps, pv, config, dt);
    var gross := Add(load, r.ev);
    BessModel.DispatchSteps(BessParamsOf(config), dt, gross, pv, i);
  }

  /** The site load can be read back from the result, as the dashboard chart does. */
  lemma LoadRecoverable(load: seq<real>, timestamps: seq<Timestamp>, pv: seq<real>,
                        config: ParseInputs.Input, dt: real)
    requires Runnable(load, timestamps, pv, config, dt)
    ensures var r := RunOptimization(load, timestamps, pv, config, dt);
      forall i :: 0 <= i < |load| ==> r.netGridKw[i] + r.pv[i] + r.bess.dispatchKw[i] - r.ev[i] == load[i]
  {
  }

  /** Without a usable battery the grid exchange is the gross demand less PV. */
  lemma NoBatteryPassThrough(load: seq<real>, timestamps: seq<Timestamp>, pv: seq<real>,
                             config: ParseInputs.Input, dt: real)
    requires Runnable(load, timestamps, pv, config, dt)
    requires BessParamsOf(config).capacityKwh == 0.0 || BessParamsOf(config).powerKw == 0.0
    ensures var r := RunOptimization(load, timestamps, pv, config, dt);
      forall i :: 0 <= i < |load| ==> r.netGridKw[i] == load[i] + r.ev[i] - pv[i]
  {
    var r := RunOptimization(load, timestamps, pv, config, dt);
    BessModel.NoBatteryNoDispatch(BessParamsOf(config), dt, Add(load, r.ev), pv);
  }

  /**
   * With a nonnegative power rating, and `net` the gross demand less PV: a
   * charging instant (negative `net`, a surplus) lowers the grid exchange
   * below `net` by the charge, to no less than `2 * net`; a discharging
   * instant (positive `net`, a deficit) raises it above `net` by the
   * discharge, to no more than `2 * net`; an idle instant leaves it at `net`.
   */
  lemma DispatchShiftsGrid(load: seq<real>, timestamps: seq<Timestamp>, pv: seq<real>,
                           config: ParseInputs.Input, dt: real, i: nat)
    requires Runnable(load, timestamps, pv, config, dt) && i < |load|
    requires BessParamsOf(config).powerKw >= 0.0
    ensures var r := RunOptimization(load, timestamps, pv, config, dt);
      var net := load[i] + r.ev[i] - pv[i];
      && (r.bess.dispatchKw[i] > 0.0 ==> net < 0.0 && 2.0 * net <= r.netGridKw[i] < net)
      && (r.bess.dispatchKw[i] < 0.0 ==> net > 0.0 && net < r.netGridKw[i] <= 2.0 * net)
      && (r.bess.dispatchKw[i] == 0.0 ==> r.netGridKw[i] == net)
  {
    var r := RunOptimization(load, timestamps, pv, config, dt);
    var p := BessParamsOf(config);
    var before := BessModel.SocBefore(BessModel.InitialSoc(p), r.bess, i);
    BatterySeesGrossDemand(load, timestamps, pv, config, dt, i);
    BessModel.StepRules(p, dt, before, load[i] + r.ev[i] - pv[i]);
  }
}
