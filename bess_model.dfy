/**
 * Greedy battery dispatch (`simulate_bess_dispatch`).
 *
 * At each instant the battery looks at `net = demand - pv`: on a deficit it
 * discharges, on a surplus it charges, each limited by its power, by the
 * energy it holds or has room for, and by the net amount itself. Dispatch is
 * signed: negative while discharging, positive while charging. Efficiency is
 * applied on charging only.
 *
 * `Step` is one instant, `Run` folds it over a series, and
 * `SimulateBessDispatch` is the source's loop, proved equal to the fold.
 */
module BessModel {
  import opened Wrappers
  import opened TimeSeries
  import ParseInputs

  /** What the simulator reads from the `bess` section of the configuration. */
  datatype BessParams = BessParams(capacityKwh: real, powerKw: real, efficiency: real)

  /** Missing keys of the `bess` section default to capacity 0, power 0 and efficiency 0.9. */
  function ParamsOf(sec: ParseInputs.BessSection): BessParams {
    BessParams(
      sec.capacityKwh.GetOr(0.0),
      sec.powerKw.GetOr(0.0),
      sec.roundTripEfficiency.GetOr(0.9))
  }

  lemma ParamsOfDefaults(sec: ParseInputs.BessSection)
    ensures sec.capacityKwh.None? ==> ParamsOf(sec).capacityKwh == 0.0
    ensures sec.powerKw.None? ==> ParamsOf(sec).powerKw == 0.0
    ensures sec.roundTripEfficiency.None? ==> ParamsOf(sec).efficiency == 0.9
    ensures sec.capacityKwh.Some? ==> ParamsOf(sec).capacityKwh == sec.capacityKwh.value
    ensures sec.powerKw.Some? ==> ParamsOf(sec).powerKw == sec.powerKw.value
    ensures sec.roundTripEfficiency.Some? ==> ParamsOf(sec).efficiency == sec.roundTripEfficiency.value
  {
  }

  /** Parameters for which the battery behaves physically. */
  predicate Sane(p: BessParams) {
    p.capacityKwh >= 0.0 && p.powerKw >= 0.0 && 0.0 <= p.efficiency <= 1.0
  }

  /** The value of Python's three-argument `min`. */
  function Min3(a: real, b: real, c: real): (m: real)
    ensures m <= a && m <= b && m <= c
    ensures m == a || m == b || m == c
  {
    if a <= b && a <= c then a else if b <= c then b else c
  }

  /** The power that reaches the cells: a charge is derated by the efficiency, a discharge is not. */
  function Stored(p: BessParams, dispatch: real): real {
    if dispatch > 0.0 then dispatch * p.efficiency else dispatch
  }

  /** No action is possible: no net, an empty battery on a deficit, or a full one on a surplus. */
  predicate Idle(p: BessParams, soc: real, net: real) {
    || net == 0.0
    || (net > 0.0 && soc <= 0.0)
    || (net < 0.0 && soc >= p.capacityKwh)
  }

  /** The state of charge after an instant and the dispatch recorded for it. */
  datatype StepOut = StepOut(soc: real, dispatch: real)

  /** One instant of the greedy policy, from state of charge `soc` with net demand `net`, over `dt` hours. */
  function Step(p: BessParams, dt: real, soc: real, net: real): StepOut
    requires dt > 0.0
  {
    if net > 0.0 && soc > 0.0 then
      var discharge := Min3(p.powerKw, soc / dt, net);
      StepOut(soc - discharge * dt, -discharge)
    else if net < 0.0 && soc < p.capacityKwh then
      var charge := Min3(p.powerKw, (p.capacityKwh - soc) / dt, -net);
      StepOut(soc + charge * dt * p.efficiency, charge)
    else
      StepOut(soc, 0.0)
  }

  /** What one instant promises. */
  lemma StepRules(p: BessParams, dt: real, soc: real, net: real)
    requires dt > 0.0
    ensures var r := Step(p, dt, soc, net);
      // nothing to do, or a battery without power: nothing changes
      && (Idle(p, soc, net) || p.powerKw == 0.0 ==> r == StepOut(soc, 0.0))
      // the dispatch never exceeds the power rating
      && (p.powerKw >= 0.0 ==> -p.powerKw <= r.dispatch <= p.powerKw)
      // discharge only on a deficit, from a non-empty battery, and never more than the deficit
      && (p.powerKw >= 0.0 && r.dispatch < 0.0 ==> net > 0.0 && soc > 0.0 && -r.dispatch <= net)
      // charge only on a surplus, into a battery with room, and never more than the surplus
      && (p.powerKw >= 0.0 && r.dispatch > 0.0 ==> net < 0.0 && soc < p.capacityKwh && r.dispatch <= -net)
      // energy bookkeeping: the state of charge moves by exactly the stored power times dt
      && (p.powerKw >= 0.0 ==> r.soc == soc + Stored(p, r.dispatch) * dt)
      // the state of charge stays within [0, capacity]
      && (Sane(p) && 0.0 <= soc <= p.capacityKwh ==> 0.0 <= r.soc <= p.capacityKwh)
      // with power, a deficit from a non-empty battery is met by a discharge ...
      && (p.powerKw > 0.0 && net > 0.0 && soc > 0.0 ==> r.dispatch < 0.0)
      // ... and a surplus into a battery with room by a charge
      && (p.powerKw > 0.0 && net < 0.0 && soc < p.capacityKwh ==> r.dispatch > 0.0)
      // greedy: the discharge never empties more than the battery holds and reaches one of its three caps
      && (net > 0.0 && soc > 0.0 ==>
            -r.dispatch * dt <= soc && (-r.dispatch == p.powerKw || -r.dispatch * dt == soc || -r.dispatch == net))
      // greedy: the charge never fills more than the headroom and reaches one of its three caps
      && (net < 0.0 && soc < p.capacityKwh ==>
            r.dispatch * dt <= p.capacityKwh - soc
            && (r.dispatch == p.powerKw || r.dispatch * dt == p.capacityKwh - soc || r.dispatch == -net))
  {
    if net > 0.0 && soc > 0.0 {
      DischargeStep(p, dt, soc, net);
    } else if net < 0.0 && soc < p.capacityKwh {
      ChargeStep(p, dt, soc, net);
    } else {
      assert Step(p, dt, soc, net) == StepOut(soc, 0.0);
    }
  }

  /** A discharging instant, stated on its result. */
  lemma DischargeStep(p: BessParams, dt: real, soc: real, net: real)
    requires dt > 0.0 && net > 0.0 && soc > 0.0
    ensures var r := Step(p, dt, soc, net);
      && (p.powerKw == 0.0 ==> r == StepOut(soc, 0.0))
      && (p.powerKw >= 0.0 ==> -p.powerKw <= r.dispatch <= 0.0 && -r.dispatch <= net)
      && (p.powerKw >= 0.0 ==> r.soc == soc + Stored(p, r.dispatch) * dt)
      && (Sane(p) && soc <= p.capacityKwh ==> 0.0 <= r.soc <= p.capacityKwh)
      && (p.powerKw > 0.0 ==> r.dispatch < 0.0)
      && -r.dispatch * dt <= soc
      && (-r.dispatch == p.powerKw || -r.dispatch * dt == soc || -r.dispatch == net)
  {
    var discharge := Min3(p.powerKw, soc / dt, net);
    DischargeFacts(p, dt, soc, net, discharge);
    assert Step(p, dt, soc, net) == StepOut(soc - discharge * dt, -discharge);
  }

  /** A charging instant, stated on its result. */
  lemma ChargeStep(p: BessParams, dt: real, soc: real, net: real)
    requires dt > 0.0 && net < 0.0 && soc < p.capacityKwh
    ensures var r := Step(p, dt, soc, net);
      && (p.powerKw == 0.0 ==> r == StepOut(soc, 0.0))
      && (p.powerKw >= 0.0 ==> 0.0 <= r.dispatch <= p.powerKw && r.dispatch <= -net)
      && (p.powerKw >= 0.0 ==> r.soc == soc + Stored(p, r.dispatch) * dt)
      && (Sane(p) && 0.0 <= soc ==> 0.0 <= r.soc <= p.capacityKwh)
      && (p.powerKw > 0.0 ==> r.dispatch > 0.0)
      && r.dispatch * dt <= p.capacityKwh - soc
      && (r.dispatch == p.powerKw || r.dispatch * dt == p.capacityKwh - soc || r.dispatch == -net)
  {
    var charge := Min3(p.powerKw, (p.capacityKwh - soc) / dt, -net);
    ChargeFacts(p, dt, soc, net, charge);
    assert Step(p, dt, soc, net) == StepOut(soc + charge * dt * p.efficiency, charge);
  }

  /** The discharge branch, on the discharged power `d`. */
  lemma DischargeFacts(p: BessParams, dt: real, soc: real, net: real, d: real)
    requires dt > 0.0 && net > 0.0 && soc > 0.0 && d == Min3(p.powerKw, soc / dt, net)
    ensures p.powerKw == 0.0 ==> d == 0.0
    ensures p.powerKw >= 0.0 ==> 0.0 <= d <= p.powerKw && d <= net
    ensures p.powerKw >= 0.0 ==> soc - d * dt == soc + Stored(p, -d) * dt
    ensures Sane(p) && soc <= p.capacityKwh ==> 0.0 <= soc - d * dt <= p.capacityKwh
    ensures p.powerKw > 0.0 ==> d > 0.0
    ensures d * dt <= soc
    ensures d == p.powerKw || d * dt == soc || d == net
  {
    ScaledBound(d, soc, dt);
    HitsQuotient(d, soc, dt);
  }

  /** The charge branch, on the charged power `c`. */
  lemma ChargeFacts(p: BessParams, dt: real, soc: real, net: real, c: real)
    requires dt > 0.0 && net < 0.0 && soc < p.capacityKwh && c == Min3(p.powerKw, (p.capacityKwh - soc) / dt, -net)
    ensures p.powerKw == 0.0 ==> c == 0.0
    ensures p.powerKw >= 0.0 ==> 0.0 <= c <= p.powerKw && c <= -net
    ensures p.powerKw >= 0.0 ==> soc + c * dt * p.efficiency == soc + Stored(p, c) * dt
    ensures Sane(p) && 0.0 <= soc ==> 0.0 <= soc + c * dt * p.efficiency <= p.capacityKwh
    ensures p.powerKw > 0.0 ==> c > 0.0
    ensures c * dt <= p.capacityKwh - soc
    ensures c == p.powerKw || c * dt == p.capacityKwh - soc || c == -net
  {
    ScaledBound(c, p.capacityKwh - soc, dt);
    HitsQuotient(c, p.capacityKwh - soc, dt);
    ChargeBound(c, soc, p.capacityKwh, dt, p.efficiency);
    if c > 0.0 {
      assert c * dt * p.efficiency == c * p.efficiency * dt;
    }
  }

  /** A power at most `e / dt` delivers at most `e` over `dt` hours. */
  lemma ScaledBound(x: real, e: real, dt: real)
    requires dt > 0.0 && x <= e / dt
    ensures x * dt <= e
    ensures x >= 0.0 ==> x * dt >= 0.0
    ensures e > 0.0 ==> e / dt > 0.0
  {
    assert x * dt <= (e / dt) * dt;
  }

  /** A power equal to `e / dt` delivers exactly `e` over `dt` hours. */
  lemma HitsQuotient(x: real, e: real, dt: real)
    requires dt > 0.0
    ensures x == e / dt ==> x * dt == e
  {
  }

  /** Charging at most `(cap - soc) / dt`, derated by an efficiency in [0, 1], never overfills. */
  lemma ChargeBound(charge: real, soc: real, cap: real, dt: real, eff: real)
    requires dt > 0.0 && charge <= (cap - soc) / dt
    ensures charge >= 0.0 && 0.0 <= eff <= 1.0 && soc >= 0.0 ==>
      0.0 <= soc + charge * dt * eff <= cap
  {
    if charge >= 0.0 && 0.0 <= eff <= 1.0 && soc >= 0.0 {
      ScaledBound(charge, cap - soc, dt);
      DeratedCharge(charge * dt, eff, soc, cap);
    }
  }

  /** Storing a derated share of at most the headroom never overfills. */
  lemma DeratedCharge(energy: real, eff: real, soc: real, cap: real)
    requires 0.0 <= energy <= cap - soc && 0.0 <= eff <= 1.0 && soc >= 0.0
    ensures 0.0 <= soc + energy * eff <= cap
  {
    assert energy * eff <= energy * 1.0;
  }

  /** The dispatch series and the state-of-charge trace, one entry per instant. */
  datatype Trace = Trace(dispatchKw: seq<real>, socKwh: seq<real>)

  /** The fold of `Step` over the net-demand series `nets`, starting from `soc`. */
  function Run(p: BessParams, dt: real, soc: real, nets: seq<real>): (r: Trace)
    requires dt > 0.0
    ensures |r.dispatchKw| == |nets| && |r.socKwh| == |nets|
    decreases |nets|
  {
    if nets == [] then Trace([], [])
    else
      var s := Step(p, dt, soc, nets[0]);
      var rest := Run(p, dt, s.soc, nets[1..]);
      Trace([s.dispatch] + rest.dispatchKw, [s.soc] + rest.socKwh)
  }

  /** Entry `i > 0` of a run is entry `i - 1` of the run that starts after the first instant. */
  lemma RunTail(p: BessParams, dt: real, soc: real, nets: seq<real>, i: nat)
    requires dt > 0.0 && 0 < i < |nets|
    ensures var s := Step(p, dt, soc, nets[0]);
      && Run(p, dt, soc, nets).dispatchKw[i] == Run(p, dt, s.soc, nets[1..]).dispatchKw[i - 1]
      && Run(p, dt, soc, nets).socKwh[i] == Run(p, dt, s.soc, nets[1..]).socKwh[i - 1]
  {
  }

  /** The state of charge before instant `i`: the initial one, then the previous trace entry. */
  function SocBefore(soc0: real, t: Trace, i: nat): real
    requires i <= |t.socKwh|
  {
    if i == 0 then soc0 else t.socKwh[i - 1]
  }

  /** Entry `i` of both traces is what `Step` gives from the state of charge before instant `i`. */
  lemma {:induction false} RunSteps(p: BessParams, dt: real, soc0: real, nets: seq<real>, i: nat)
    requires dt > 0.0 && i < |nets|
    ensures Step(p, dt, SocBefore(soc0, Run(p, dt, soc0, nets), i), nets[i])
         == StepOut(Run(p, dt, soc0, nets).socKwh[i], Run(p, dt, soc0, nets).dispatchKw[i])
    decreases i
  {
    if i > 0 {
      var s := Step(p, dt, soc0, nets[0]);
      RunSteps(p, dt, s.soc, nets[1..], i - 1);
      RunTail(p, dt, soc0, nets, i);
      if i > 1 {
        RunTail(p, dt, soc0, nets, i - 1);
      }
    }
  }

  /** With sane parameters and a start within [0, capacity], every trace entry stays within [0, capacity]. */
  lemma {:induction false} RunSocBounds(p: BessParams, dt: real, soc0: real, nets: seq<real>)
    requires dt > 0.0 && Sane(p) && 0.0 <= soc0 <= p.capacityKwh
    ensures forall i :: 0 <= i < |nets| ==> 0.0 <= Run(p, dt, soc0, nets).socKwh[i] <= p.capacityKwh
    decreases |nets|
  {
    if nets != [] {
      var s := Step(p, dt, soc0, nets[0]);
      StepRules(p, dt, soc0, nets[0]);
      RunSocBounds(p, dt, s.soc, nets[1..]);
      forall i | 0 < i < |nets| {
        RunTail(p, dt, soc0, nets, i);
      }
    }
  }

  /**
   * The dispatch rules of one instant that went from `before` to `after`
   * dispatching `d` on net demand `net`: the dispatch is within the power
   * rating; it is negative only on a deficit from a non-empty battery and
   * never more than the deficit, positive only on a surplus into a battery
   * with room and never more than the surplus; an idle instant keeps the
   * state of charge; with power, a deficit from a non-empty battery is met by
   * a discharge and a surplus into a battery with room by a charge; and each
   * is greedy: it stays within the energy held or the headroom, and reaches
   * one of its three caps.
   */
  predicate FollowsRules(p: BessParams, dt: real, before: real, net: real, after: real, d: real) {
    && -p.powerKw <= d <= p.powerKw
    && (d < 0.0 ==> net > 0.0 && before > 0.0 && -d <= net)
    && (d > 0.0 ==> net < 0.0 && before < p.capacityKwh && d <= -net)
    && (Idle(p, before, net) ==> d == 0.0 && after == before)
    && (p.powerKw > 0.0 && net > 0.0 && before > 0.0 ==> d < 0.0)
    && (p.powerKw > 0.0 && net < 0.0 && before < p.capacityKwh ==> d > 0.0)
    && (net > 0.0 && before > 0.0 ==>
          -d * dt <= before && (-d == p.powerKw || -d * dt == before || -d == net))
    && (net < 0.0 && before < p.capacityKwh ==>
          d * dt <= p.capacityKwh - before && (d == p.powerKw || d * dt == p.capacityKwh - before || d == -net))
  }

  /** Every instant of a run follows the dispatch rules, from the state of charge before it. */
  lemma RunDispatchRules(p: BessParams, dt: real, soc0: real, nets: seq<real>, i: nat)
    requires dt > 0.0 && p.powerKw >= 0.0 && i < |nets|
    ensures FollowsRules(p, dt, SocBefore(soc0, Run(p, dt, soc0, nets), i), nets[i],
                         Run(p, dt, soc0, nets).socKwh[i], Run(p, dt, soc0, nets).dispatchKw[i])
  {
    var t := Run(p, dt, soc0, nets);
    RunSteps(p, dt, soc0, nets, i);
    StepOutcome(p, dt, SocBefore(soc0, t, i), nets[i], t.socKwh[i], t.dispatchKw[i]);
  }

  /** One instant follows the dispatch rules. */
  lemma StepOutcome(p: BessParams, dt: real, before: real, net: real, after: real, d: real)
    requires dt > 0.0 && p.powerKw >= 0.0 && Step(p, dt, before, net) == StepOut(after, d)
    ensures FollowsRules(p, dt, before, net, after, d)
  {
    StepRules(p, dt, before, net);
  }

  /** The energy stored at each instant of a dispatch series, in kWh (negative while discharging). */
  function StoredEnergy(p: BessParams, dt: real, d: seq<real>): seq<real> {
    seq(|d|, i requires 0 <= i < |d| => Stored(p, d[i]) * dt)
  }

  lemma StoredEnergyAt(p: BessParams, dt: real, ds: seq<real>, i: nat, d: real)
    requires i < |ds| && d == ds[i]
    ensures StoredEnergy(p, dt, ds)[i] == Stored(p, d) * dt
  {
  }

  /** The state of charge after the last instant (the initial one for an empty run). */
  function FinalSoc(soc0: real, t: Trace): real {
    Last(soc0, t.socKwh)
  }

  /** The energy bookkeeping of one instant, on its own. */
  lemma StepEnergy(p: BessParams, dt: real, soc: real, net: real)
    requires dt > 0.0 && p.powerKw >= 0.0
    ensures Step(p, dt, soc, net).soc == soc + Stored(p, Step(p, dt, soc, net).dispatch) * dt
  {
    StepRules(p, dt, soc, net);
  }

  /** The bookkeeping of one instant, for a result already known to be that instant's step. */
  lemma EnergyOf(p: BessParams, dt: real, before: real, net: real, after: real, d: real)
    requires dt > 0.0 && p.powerKw >= 0.0 && Step(p, dt, before, net) == StepOut(after, d)
    ensures after == before + Stored(p, d) * dt
  {
    StepEnergy(p, dt, before, net);
  }

  /**
   * Energy balance of any trace whose every entry is the entry before it
   * plus the energy stored at that instant.
   */
  lemma TraceEnergyBalance(p: BessParams, dt: real, soc0: real, t: Trace)
    requires |t.socKwh| == |t.dispatchKw|
    requires forall i :: 0 <= i < |t.socKwh| ==>
      t.socKwh[i] == SocBefore(soc0, t, i) + StoredEnergy(p, dt, t.dispatchKw)[i]
    ensures FinalSoc(soc0, t) == soc0 + Sum(StoredEnergy(p, dt, t.dispatchKw))
  {
    var energy := StoredEnergy(p, dt, t.dispatchKw);
    forall i | 0 < i < |t.socKwh|
      ensures t.socKwh[i] == t.socKwh[i - 1] + energy[i]
    {
      assert SocBefore(soc0, t, i) == t.socKwh[i - 1];
    }
    if |t.socKwh| > 0 {
      assert SocBefore(soc0, t, 0) == soc0;
    }
    Telescope(soc0, t.socKwh, energy);
  }

  /** Energy balance of any trace made of dispatch steps, one per net demand. */
  lemma StepsEnergyBalance(p: BessParams, dt: real, soc0: real, nets: seq<real>, t: Trace)
    requires dt > 0.0 && p.powerKw >= 0.0
    requires |t.socKwh| == |t.dispatchKw| <= |nets|
    requires forall i :: 0 <= i < |t.socKwh| ==>
      Step(p, dt, SocBefore(soc0, t, i), nets[i]) == StepOut(t.socKwh[i], t.dispatchKw[i])
    ensures FinalSoc(soc0, t) == soc0 + Sum(StoredEnergy(p, dt, t.dispatchKw))
  {
    forall i | 0 <= i < |t.socKwh|
      ensures t.socKwh[i] == SocBefore(soc0, t, i) + StoredEnergy(p, dt, t.dispatchKw)[i]
    {
      var before, after, d := SocBefore(soc0, t, i), t.socKwh[i], t.dispatchKw[i];
      EnergyOf(p, dt, before, nets[i], after, d);
      StoredEnergyAt(p, dt, t.dispatchKw, i, d);
    }
    TraceEnergyBalance(p, dt, soc0, t);
  }

  /**
   * Energy balance of a whole run: the final state of charge is the initial
   * one plus the energy stored over all instants.
   */
  lemma RunEnergyBalance(p: BessParams, dt: real, soc0: real, nets: seq<real>)
    requires dt > 0.0 && p.powerKw >= 0.0
    ensures FinalSoc(soc0, Run(p, dt, soc0, nets))
         == soc0 + Sum(StoredEnergy(p, dt, Run(p, dt, soc0, nets).dispatchKw))
  {
    forall i | 0 <= i < |nets|
      ensures Step(p, dt, SocBefore(soc0, Run(p, dt, soc0, nets), i), nets[i])
           == StepOut(Run(p, dt, soc0, nets).socKwh[i], Run(p, dt, soc0, nets).dispatchKw[i])
    {
      RunSteps(p, dt, soc0, nets, i);
    }
    StepsEnergyBalance(p, dt, soc0, nets, Run(p, dt, soc0, nets));
  }

  /** A battery without power, or an empty one without capacity, never dispatches and keeps its charge. */
  lemma {:induction false} RunIdleBattery(p: BessParams, dt: real, soc0: real, nets: seq<real>)
    requires dt > 0.0
    requires p.powerKw == 0.0 || (p.capacityKwh == 0.0 && soc0 == 0.0)
    ensures forall i :: 0 <= i < |nets| ==>
      Run(p, dt, soc0, nets).dispatchKw[i] == 0.0 && Run(p, dt, soc0, nets).socKwh[i] == soc0
    decreases |nets|
  {
    if nets != [] {
      assert Idle(p, soc0, nets[0]) || p.powerKw == 0.0;
      StepRules(p, dt, soc0, nets[0]);
      assert Step(p, dt, soc0, nets[0]) == StepOut(soc0, 0.0);
      RunIdleBattery(p, dt, soc0, nets[1..]);
      forall i | 0 < i < |nets| {
        RunTail(p, dt, soc0, nets, i);
      }
    }
  }

  /** The simulation starts half full. */
  function InitialSoc(p: BessParams): real {
    0.5 * p.capacityKwh
  }

  /** `net = l - p` over `zip(load, pv)`, which stops at the shorter series. */
  function Nets(demand: seq<real>, pv: seq<real>): seq<real> {
    var n := if |demand| <= |pv| then |demand| else |pv|;
    seq(n, i requires 0 <= i < n => demand[i] - pv[i])
  }

  /** The traces `simulate_bess_dispatch` returns for a demand series and a PV series. */
  function Dispatch(p: BessParams, dt: real, demand: seq<real>, pv: seq<real>): Trace
    requires dt > 0.0
  {
    Run(p, dt, InitialSoc(p), Nets(demand, pv))
  }

  /**
   * The whole simulation: the traces hold one entry per demand instant, and
   * entry `i` is the step taken at instant `i` on `demand[i] - pv[i]` from
   * the state of charge before it, which for the first instant is half the
   * capacity.
   */
  lemma DispatchSteps(p: BessParams, dt: real, demand: seq<real>, pv: seq<real>, i: nat)
    requires dt > 0.0 && |pv| >= |demand| && i < |demand|
    ensures |Dispatch(p, dt, demand, pv).dispatchKw| == |demand|
    ensures |Dispatch(p, dt, demand, pv).socKwh| == |demand|
    ensures Step(p, dt, SocBefore(0.5 * p.capacityKwh, Dispatch(p, dt, demand, pv), i), demand[i] - pv[i])
         == StepOut(Dispatch(p, dt, demand, pv).socKwh[i], Dispatch(p, dt, demand, pv).dispatchKw[i])
  {
    RunSteps(p, dt, InitialSoc(p), Nets(demand, pv), i);
  }

  /** With sane parameters the state of charge stays within [0, capacity] and the dispatch within the rating. */
  lemma DispatchBounds(p: BessParams, dt: real, demand: seq<real>, pv: seq<real>)
    requires dt > 0.0 && Sane(p)
    ensures forall i :: 0 <= i < |Dispatch(p, dt, demand, pv).socKwh| ==>
      && 0.0 <= Dispatch(p, dt, demand, pv).socKwh[i] <= p.capacityKwh
      && -p.powerKw <= Dispatch(p, dt, demand, pv).dispatchKw[i] <= p.powerKw
  {
    var nets := Nets(demand, pv);
    RunSocBounds(p, dt, InitialSoc(p), nets);
    forall i | 0 <= i < |nets| {
      RunDispatchRules(p, dt, InitialSoc(p), nets, i);
    }
  }

  /** With zero capacity or zero power, every dispatch is 0 and the state of charge never moves. */
  lemma NoBatteryNoDispatch(p: BessParams, dt: real, demand: seq<real>, pv: seq<real>)
    requires dt > 0.0
    requires p.capacityKwh == 0.0 || p.powerKw == 0.0
    ensures forall i :: 0 <= i < |Dispatch(p, dt, demand, pv).dispatchKw| ==>
      && Dispatch(p, dt, demand, pv).dispatchKw[i] == 0.0
      && Dispatch(p, dt, demand, pv).socKwh[i] == InitialSoc(p)
  {
    RunIdleBattery(p, dt, InitialSoc(p), Nets(demand, pv));
  }

  /** Two worked instants: capacity 100, power 50, efficiency 1, half full, one-hour steps. */
  lemma StepExamples()
    ensures Step(BessParams(100.0, 50.0, 1.0), 1.0, 50.0, -60.0) == StepOut(100.0, 50.0)
    ensures Step(BessParams(100.0, 50.0, 1.0), 1.0, 50.0, 30.0) == StepOut(20.0, -30.0)
  {
  }

  /**
   * The source's loop: walks `zip(demand, pv)` carrying the state of charge,
   * appending the dispatch and the new state of charge at each instant.
   * The source reads the second timestamp of `demand` to find `dt`, and
   * pandas rejects a result shorter than the demand index, hence the
   * length requirements.
   */
  method SimulateBessDispatch(demand: seq<real>, pv: seq<real>, cfg: ParseInputs.Input, dt: real)
    returns (dispatchKw: seq<real>, socKwh: seq<real>)
    requires cfg.bess.Some?
    requires |demand| >= 2 && |pv| >= |demand|
    requires dt > 0.0
    ensures |dispatchKw| == |demand| && |socKwh| == |demand|
    ensures Trace(dispatchKw, socKwh) == Dispatch(ParamsOf(cfg.bess.value), dt, demand, pv)
  {
    var p := ParamsOf(cfg.bess.value);
    ghost var nets := Nets(demand, pv);
    var soc := 0.5 * p.capacityKwh;
    dispatchKw, socKwh := [], [];
    var i := 0;
    while i < |demand|
      invariant 0 <= i <= |demand|
      invariant |dispatchKw| == i && |socKwh| == i
      invariant Run(p, dt, InitialSoc(p), nets)
             == Trace(dispatchKw + Run(p, dt, soc, nets[i..]).dispatchKw,
                      socKwh + Run(p, dt, soc, nets[i..]).socKwh)
    {
      var net := demand[i] - pv[i];
      ghost var before, doneD, doneS := soc, dispatchKw, socKwh;
      var d: real;
      soc, d := DispatchInstant(p, dt, soc, net);
      dispatchKw := dispatchKw + [d];
      socKwh := socKwh + [soc];
      i := i + 1;
      LoopStep(p, dt, before, nets, i - 1, net, soc, d, doneD, doneS);
    }
    assert nets[i..] == [];
  }

  /**
   * The body of the source's loop for one instant: the discharge, charge or
   * idle branch, giving the new state of charge and the recorded dispatch.
   */
  method DispatchInstant(p: BessParams, dt: real, soc: real, net: real) returns (soc': real, d: real)
    requires dt > 0.0
    ensures StepOut(soc', d) == Step(p, dt, soc, net)
  {
    if net > 0.0 && soc > 0.0 {
      var discharge := Min3(p.powerKw, soc / dt, net);
      soc' := soc - discharge * dt;
      d := -discharge;
    } else if net < 0.0 && soc < p.capacityKwh {
      var charge := Min3(p.powerKw, (p.capacityKwh - soc) / dt, -net);
      soc' := soc + charge * dt * p.efficiency;
      d := charge;
    } else {
      soc', d := soc, 0.0;
    }
  }

  /** One loop iteration extends the finished prefix by the step it took. */
  lemma LoopStep(p: BessParams, dt: real, before: real, nets: seq<real>, i: nat, net: real,
                 soc: real, d: real, doneD: seq<real>, doneS: seq<real>)
    requires dt > 0.0 && i < |nets| && nets[i] == net
    requires Step(p, dt, before, net) == StepOut(soc, d)
    ensures Trace(doneD + Run(p, dt, before, nets[i..]).dispatchKw, doneS + Run(p, dt, before, nets[i..]).socKwh)
         == Trace((doneD + [d]) + Run(p, dt, soc, nets[i + 1..]).dispatchKw,
                  (doneS + [soc]) + Run(p, dt, soc, nets[i + 1..]).socKwh)
  {
    assert nets[i..][0] == net && nets[i..][1..] == nets[i + 1..];
    var rest := Run(p, dt, soc, nets[i + 1..]);
    assert Run(p, dt, before, nets[i..]) == Trace([d] + rest.dispatchKw, [soc] + rest.socKwh);
    assert doneD + ([d] + rest.dispatchKw) == (doneD + [d]) + rest.dispatchKw;
    assert doneS + ([soc] + rest.socKwh) == (doneS + [soc]) + rest.socKwh;
  }
}
