/**
 * Configuration defaulting (`get_config_from_user_input`).
 *
 * The user input and the configuration it produces are the same kind of
 * nested dictionary. Each dictionary is a datatype whose fields are optional:
 * `None` is a key that is absent. `site`, `costs` and `constraints` are passed
 * through unread, so their contents are modelled as string maps, and
 * `priorities` as a list of strings.
 */
module ParseInputs {
  import opened Wrappers

  type Dict = map<string, string>

  /** A charging window `[start, end)` in hours of the day. */
  datatype Window = Window(start: real, end: real)

  datatype PvSection = PvSection(
    kwpPref: Option<real>,
    shadingFactor: Option<real>,
    orientation: Option<string>,
    tilt: Option<real>)

  datatype BessSection = BessSection(
    capacityKwh: Option<real>,
    powerKw: Option<real>,
    roundTripEfficiency: Option<real>)

  datatype EvSection = EvSection(
    fleetSize: Option<real>,
    batteryCapacityKwh: Option<real>,
    chargingWindow: Option<Window>)

  /** The top-level dictionary: seven possible keys. */
  datatype Input = Input(
    pv: Option<PvSection>,
    bess: Option<BessSection>,
    ev: Option<EvSection>,
    site: Option<Dict>,
    priorities: Option<seq<string>>,
    costs: Option<Dict>,
    constraints: Option<Dict>)

  const EmptyPv := PvSection(None, None, None, None)
  const EmptyBess := BessSection(None, None, None)
  const EmptyEv := EvSection(None, None, None)
  const EmptyInput := Input(None, None, None, None, None, None, None)

  /** Every section and every field of a section is present. */
  predicate Complete(c: Input) {
    && c.pv.Some? && c.bess.Some? && c.ev.Some?
    && c.site.Some? && c.priorities.Some? && c.costs.Some? && c.constraints.Some?
    && c.pv.value.kwpPref.Some? && c.pv.value.shadingFactor.Some?
    && c.pv.value.orientation.Some? && c.pv.value.tilt.Some?
    && c.bess.value.capacityKwh.Some? && c.bess.value.powerKw.Some?
    && c.bess.value.roundTripEfficiency.Some?
    && c.ev.value.fleetSize.Some? && c.ev.value.batteryCapacityKwh.Some?
    && c.ev.value.chargingWindow.Some?
  }

  /** The fixed efficiency every configuration carries. */
  const RoundTripEfficiency: real := 0.9

  /**
   * Fills every missing key with its default. Supplied values are copied as
   * they are: nothing is range-checked. The efficiency is never read from the
   * input.
   */
  function GetConfig(u: Input): (c: Input)
    ensures Complete(c)
    ensures c.bess.value.roundTripEfficiency == Some(RoundTripEfficiency)
  {
    var pv := u.pv.GetOr(EmptyPv);
    var bess := u.bess.GetOr(EmptyBess);
    var ev := u.ev.GetOr(EmptyEv);
    Input(
      pv := Some(PvSection(
        kwpPref := Some(pv.kwpPref.GetOr(100.0)),
        shadingFactor := Some(pv.shadingFactor.GetOr(1.0)),
        orientation := Some(pv.orientation.GetOr("south")),
        tilt := Some(pv.tilt.GetOr(30.0)))),
      bess := Some(BessSection(
        capacityKwh := Some(bess.capacityKwh.GetOr(0.0)),
        powerKw := Some(bess.powerKw.GetOr(0.0)),
        roundTripEfficiency := Some(RoundTripEfficiency))),
      ev := Some(EvSection(
        fleetSize := Some(ev.fleetSize.GetOr(0.0)),
        batteryCapacityKwh := Some(ev.batteryCapacityKwh.GetOr(50.0)),
        chargingWindow := Some(ev.chargingWindow.GetOr(Window(9.0, 17.0))))),
      site := Some(u.site.GetOr(map[])),
      priorities := Some(u.priorities.GetOr([])),
      costs := Some(u.costs.GetOr(map[])),
      constraints := Some(u.constraints.GetOr(map[])))
  }

  /** The configuration built from an input with no keys at all. */
  lemma DefaultConfig()
    ensures GetConfig(EmptyInput) == Input(
      Some(PvSection(Some(100.0), Some(1.0), Some("south"), Some(30.0))),
      Some(BessSection(Some(0.0), Some(0.0), Some(0.9))),
      Some(EvSection(Some(0.0), Some(50.0), Some(Window(9.0, 17.0)))),
      Some(map[]), Some([]), Some(map[]), Some(map[]))
  {
  }

  /** Each missing field takes its fixed default, whatever the other fields hold. */
  lemma MissingFieldsDefaulted(u: Input)
    ensures var c := GetConfig(u); var pv := u.pv.GetOr(EmptyPv);
      && (pv.kwpPref.None? ==> c.pv.value.kwpPref == Some(100.0))
      && (pv.shadingFactor.None? ==> c.pv.value.shadingFactor == Some(1.0))
      && (pv.orientation.None? ==> c.pv.value.orientation == Some("south"))
      && (pv.tilt.None? ==> c.pv.value.tilt == Some(30.0))
    ensures var c := GetConfig(u); var bess := u.bess.GetOr(EmptyBess);
      && (bess.capacityKwh.None? ==> c.bess.value.capacityKwh == Some(0.0))
      && (bess.powerKw.None? ==> c.bess.value.powerKw == Some(0.0))
    ensures var c := GetConfig(u); var ev := u.ev.GetOr(EmptyEv);
      && (ev.fleetSize.None? ==> c.ev.value.fleetSize == Some(0.0))
      && (ev.batteryCapacityKwh.None? ==> c.ev.value.batteryCapacityKwh == Some(50.0))
      && (ev.chargingWindow.None? ==> c.ev.value.chargingWindow == Some(Window(9.0, 17.0)))
    ensures var c := GetConfig(u);
      && (u.site.None? ==> c.site == Some(map[]))
      && (u.priorities.None? ==> c.priorities == Some([]))
      && (u.costs.None? ==> c.costs == Some(map[]))
      && (u.constraints.None? ==> c.constraints == Some(map[]))
  {
  }

  /** Each supplied field is copied unchanged, with no range check. */
  lemma SuppliedFieldsKept(u: Input)
    ensures var c := GetConfig(u); var pv := u.pv.GetOr(EmptyPv);
      && (pv.kwpPref.Some? ==> c.pv.value.kwpPref == pv.kwpPref)
      && (pv.shadingFactor.Some? ==> c.pv.value.shadingFactor == pv.shadingFactor)
      && (pv.orientation.Some? ==> c.pv.value.orientation == pv.orientation)
      && (pv.tilt.Some? ==> c.pv.value.tilt == pv.tilt)
    ensures var c := GetConfig(u); var bess := u.bess.GetOr(EmptyBess);
      && (bess.capacityKwh.Some? ==> c.bess.value.capacityKwh == bess.capacityKwh)
      && (bess.powerKw.Some? ==> c.bess.value.powerKw == bess.powerKw)
    ensures var c := GetConfig(u); var ev := u.ev.GetOr(EmptyEv);
      && (ev.fleetSize.Some? ==> c.ev.value.fleetSize == ev.fleetSize)
      && (ev.batteryCapacityKwh.Some? ==> c.ev.value.batteryCapacityKwh == ev.batteryCapacityKwh)
      && (ev.chargingWindow.Some? ==> c.ev.value.chargingWindow == ev.chargingWindow)
    ensures var c := GetConfig(u);
      && (u.site.Some? ==> c.site == u.site)
      && (u.priorities.Some? ==> c.priorities == u.priorities)
      && (u.costs.Some? ==> c.costs == u.costs)
      && (u.constraints.Some? ==> c.constraints == u.constraints)
  {
  }

  /** A section that is absent gives the same configuration as one that is present but empty. */
  lemma MissingSectionIsEmpty(u: Input)
    ensures GetConfig(u.(pv := None)) == GetConfig(u.(pv := Some(EmptyPv)))
    ensures GetConfig(u.(bess := None)) == GetConfig(u.(bess := Some(EmptyBess)))
    ensures GetConfig(u.(ev := None)) == GetConfig(u.(ev := Some(EmptyEv)))
  {
  }

  /** Whatever efficiency the input states, the configuration carries 0.9. */
  lemma EfficiencyIgnored(u: Input, eff: real)
    requires u.bess.Some?
    ensures GetConfig(u.(bess := Some(u.bess.value.(roundTripEfficiency := Some(eff)))))
         == GetConfig(u)
  {
  }

  /**
   * A complete input is returned unchanged apart from its efficiency, so
   * defaulting is idempotent: a configuration is its own configuration.
   */
  lemma CompleteInputKept(u: Input)
    requires Complete(u)
    ensures GetConfig(u) == u.(bess := Some(u.bess.value.(roundTripEfficiency := Some(RoundTripEfficiency))))
    ensures GetConfig(GetConfig(u)) == GetConfig(u)
  {
  }

  lemma Idempotent(u: Input)
    ensures GetConfig(GetConfig(u)) == GetConfig(u)
  {
    CompleteInputKept(GetConfig(u));
  }
}
