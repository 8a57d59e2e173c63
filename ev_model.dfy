/**
 * EV fleet charging demand (`simulate_ev_charging`): the energy of the whole
 * fleet spread evenly over an hour-of-day window `[start, end)`, and zero
 * outside it.
 */
module EvModel {
  import opened Wrappers
  import opened TimeSeries
  import ParseInputs

  /** The EV settings as the simulator reads them. */
  datatype EvParams = EvParams(fleetSize: real, batteryKwh: real, window: ParseInputs.Window)

  /** The charging window used when the `ev` section names none. */
  const DefaultWindow := ParseInputs.Window(9.0, 17.0)

  /** Reads the `ev` section; the simulator's own defaults are 10 vehicles of 50 kWh and `[9, 17)`. */
  function ParamsOf(sec: ParseInputs.EvSection): EvParams {
    EvParams(
      sec.fleetSize.GetOr(10.0),
      sec.batteryCapacityKwh.GetOr(50.0),
      sec.chargingWindow.GetOr(DefaultWindow))
  }

  lemma ParamsOfDefaults(sec: ParseInputs.EvSection)
    ensures sec.fleetSize.None? ==> ParamsOf(sec).fleetSize == 10.0
    ensures sec.batteryCapacityKwh.None? ==> ParamsOf(sec).batteryKwh == 50.0
    ensures sec.chargingWindow.None? ==> ParamsOf(sec).window == ParseInputs.Window(9.0, 17.0)
    ensures sec.fleetSize.Some? ==> ParamsOf(sec).fleetSize == sec.fleetSize.value
    ensures sec.batteryCapacityKwh.Some? ==> ParamsOf(sec).batteryKwh == sec.batteryCapacityKwh.value
    ensures sec.chargingWindow.Some? ==> ParamsOf(sec).window == sec.chargingWindow.value
  {
  }

  /**
   * Through the configuration defaults the simulator's own fallbacks never
   * apply: a configured fleet of unknown size has no vehicles.
   */
  lemma ConfiguredParams(u: ParseInputs.Input)
    ensures var ev := u.ev.GetOr(ParseInputs.EmptyEv);
      ParamsOf(ParseInputs.GetConfig(u).ev.value)
        == EvParams(ev.fleetSize.GetOr(0.0), ev.batteryCapacityKwh.GetOr(50.0), ev.chargingWindow.GetOr(DefaultWindow))
  {
  }

  /** Length of the charging window in hours; the charging power divides by it. */
  function ChargeHours(ev: EvParams): real {
    ev.window.end - ev.window.start
  }

  /** The energy needed to charge every vehicle's battery in full. */
  function TotalEnergy(ev: EvParams): real {
    ev.fleetSize * ev.batteryKwh
  }

  /** The constant fleet charging power: total energy over window length. */
  function ChargePower(ev: EvParams): (cp: real)
    requires ChargeHours(ev) != 0.0
    ensures cp * ChargeHours(ev) == TotalEnergy(ev)
  {
    TotalEnergy(ev) / ChargeHours(ev)
  }

  /** Whether instant `t` falls in the half-open window. */
  predicate InWindow(w: ParseInputs.Window, t: Timestamp) {
    w.start <= HourOfDay(t) < w.end
  }

  /** The charging power at each instant. */
  function ChargingDemand(ev: EvParams, ts: seq<Timestamp>): (s: seq<real>)
    requires ChargeHours(ev) != 0.0
    ensures |s| == |ts|
    ensures forall i :: 0 <= i < |s| ==> s[i] == 0.0 || s[i] == ChargePower(ev)
  {
    seq(|ts|, i requires 0 <= i < |ts| => if InWindow(ev.window, ts[i]) then ChargePower(ev) else 0.0)
  }

  /** With a nonzero charging power, an entry is that power exactly when its instant is in the window. */
  lemma ChargingExactlyInWindow(ev: EvParams, ts: seq<Timestamp>, i: nat)
    requires ChargeHours(ev) != 0.0 && i < |ts|
    ensures InWindow(ev.window, ts[i]) ==> ChargingDemand(ev, ts)[i] == ChargePower(ev)
    ensures !InWindow(ev.window, ts[i]) ==> ChargingDemand(ev, ts)[i] == 0.0
    ensures ChargePower(ev) != 0.0 ==>
      (ChargingDemand(ev, ts)[i] == ChargePower(ev) <==> InWindow(ev.window, ts[i]))
  {
  }

  /** An inverted window (ending before it starts) contains no instant. */
  lemma InvertedWindowIdle(ev: EvParams, ts: seq<Timestamp>)
    requires ev.window.end < ev.window.start
    ensures ChargingDemand(ev, ts) == Constant(|ts|, 0.0)
  {
    assert forall i :: 0 <= i < |ts| ==> !InWindow(ev.window, ts[i]);
  }

  /** A fleet without vehicles draws nothing. */
  lemma EmptyFleetIdle(ev: EvParams, ts: seq<Timestamp>)
    requires ChargeHours(ev) != 0.0 && ev.fleetSize == 0.0
    ensures ChargingDemand(ev, ts) == Constant(|ts|, 0.0)
  {
    assert ChargePower(ev) == 0.0;
  }

  /** Instant `h` of the series is `h` hours past midnight, on the hour. */
  predicate HourlyFromMidnight(ts: seq<Timestamp>) {
    forall h :: 0 <= h < |ts| ==> HourOfDay(ts[h]) == h as real
  }

  /** One day of hourly instants, on the hour. */
  function HourlyDay(): (day: seq<Timestamp>)
    ensures |day| == 24 && HourlyFromMidnight(day)
  {
    seq(24, h => Timestamp(h, 0))
  }

  /** How many of the hours `0 .. k-1` fall in `[start, end)`. */
  function HoursIn(start: int, end: int, k: int): int {
    if k <= start then 0 else if k <= end then k - start else end - start
  }

  lemma {:induction false} HourlyPrefix(ev: EvParams, start: int, end: int, ts: seq<Timestamp>, k: nat)
    requires 0 <= start < end && k <= |ts| && HourlyFromMidnight(ts)
    requires ev.window == ParseInputs.Window(start as real, end as real)
    ensures Sum(ChargingDemand(ev, ts)[..k]) == ChargePower(ev) * HoursIn(start, end, k) as real
  {
    var s, cp := ChargingDemand(ev, ts), ChargePower(ev);
    if k == 0 {
      assert s[..0] == [];
    } else {
      var before := HoursIn(start, end, k - 1) as real;
      HourlyPrefix(ev, start, end, ts, k - 1);
      SumPrefix(s, k - 1);
      assert HourOfDay(ts[k - 1]) == (k - 1) as real;
      if start <= k - 1 < end {
        assert s[k - 1] == cp;
        assert HoursIn(start, end, k) as real == before + 1.0;
        MultiplySucc(cp, before);
      } else {
        assert s[k - 1] == 0.0;
        assert HoursIn(start, end, k) as real == before;
      }
    }
  }

  lemma MultiplySucc(a: real, h: real)
    ensures a * (h + 1.0) == a * h + a
  {
  }

  /**
   * "Spread evenly": over hourly instants from midnight that cover the
   * window, a window of whole hours delivers exactly the energy of a full
   * fleet charge.
   */
  lemma WindowEnergy(ev: EvParams, start: int, end: int, ts: seq<Timestamp>)
    requires 0 <= start < end <= |ts| && HourlyFromMidnight(ts)
    requires ev.window == ParseInputs.Window(start as real, end as real)
    ensures Sum(ChargingDemand(ev, ts)) == TotalEnergy(ev)
  {
    var s := ChargingDemand(ev, ts);
    HourlyPrefix(ev, start, end, ts, |ts|);
    assert s[..|ts|] == s;
    assert HoursIn(start, end, |ts|) as real == ChargeHours(ev);
  }

  /** One day of hourly instants, with a window of whole hours inside the day, delivers a full fleet charge. */
  lemma DailyEnergy(ev: EvParams, start: int, end: int)
    requires 0 <= start < end <= 24
    requires ev.window == ParseInputs.Window(start as real, end as real)
    ensures Sum(ChargingDemand(ev, HourlyDay())) == TotalEnergy(ev)
  {
    WindowEnergy(ev, start, end, HourlyDay());
  }

  /** `simulate_ev_charging`: the window test and power, instant by instant. */
  method SimulateEvCharging(config: ParseInputs.Input, timestamps: seq<Timestamp>) returns (power: seq<real>)
    requires config.ev.Some?
    requires ChargeHours(ParamsOf(config.ev.value)) != 0.0
    ensures power == ChargingDemand(ParamsOf(config.ev.value), timestamps)
  {
    var ev := ParamsOf(config.ev.value);
    var totalEnergy := ev.fleetSize * ev.batteryKwh;
    var chargeHours := ev.window.end - ev.window.start;
    var chargePower := totalEnergy / chargeHours;
    power := [];
    for i := 0 to |timestamps|
      invariant |power| == i
      invariant forall j :: 0 <= j < i ==> power[j] == ChargingDemand(ev, timestamps)[j]
    {
      var hour := timestamps[i].hour as real + timestamps[i].minute as real / 60.0;
      if ev.window.start <= hour < ev.window.end {
        power := power + [chargePower];
      } else {
        power := power + [0.0];
      }
    }
  }
}
