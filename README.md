# PV / BESS / EV dispatch engine, modelled in Dafny

This project models the time-series engine of a sizing tool for a site that
combines solar generation (PV), a battery energy storage system (BESS) and
electric-vehicle (EV) charging against a measured load. Python floats are
modelled as Dafny `real`. A time series is a `seq<real>`, one entry per
timestamp. The step length Δt, in hours, is a positive real parameter.

- `ParseInputs` (parse_inputs.dfy): `get_config_from_user_input`. A nested
  dictionary with optional keys becomes a datatype with `Option` fields, and
  `GetConfig` fills in every missing key with its default.
- `BessModel` (bess_model.dfy): `simulate_bess_dispatch`, the greedy battery.
  `Step` is one instant of the policy. `Run` folds it over the net-demand
  series. `SimulateBessDispatch` is the source's loop, which carries a mutable
  state of charge and appends to two lists; it is proved equal to the fold.
  The lemmas cover the bound on the state of charge, the bound on the
  dispatch, the sign rules, the energy bookkeeping and the idle cases.
- `EvModel` (ev_model.dfy): `simulate_ev_charging`. It draws a constant power
  inside the hour-of-day window `[start, end)` and nothing outside it. The
  method `SimulateEvCharging` is the source's loop, proved equal to
  `ChargingDemand`. `WindowEnergy` proves the "spread evenly" claim of the
  source comment.
- `Optimizer` (optimizer.dfy): `run_optimization`. Gross demand is load plus
  EV. The battery runs on gross demand and PV. The grid exchange is what is
  left after the battery.
- `KpiModule` (kpi_module.dfy): `calculate_kpis`. It computes grid import,
  solar generation, the self-consumption percentage and the peak.
- `TimeSeries` (series.dfy) holds the series helpers: `Sum`, `Max`,
  elementwise `Add`/`Sub` and timestamps as `(hour, minute)`.
- `Wrappers` (wrappers.dfy) defines `Option`.
- `Scenarios` (scenarios.dfy) proves what the whole pipeline gives on simple inputs.

Three behaviours of the code are kept as written:

- **Self-consumption percentage.** The code does not bound the
  self-consumption percentage at 100 %: `KpiModule.ExportCountsTwice` and
  `Scenarios.SurplusOver100` show a run that reports 200 %.
- **Dispatch sign.** The model keeps the code's dispatch signs. Dispatch is
  negative while discharging (bess_model.py:35), and the grid exchange subtracts it (optimizer.py:38).
  So a discharge raises `net_grid_kW`, and a charge lowers it. A charge that
  absorbs a whole surplus leaves a grid exchange of twice that surplus.
  `Optimizer.DispatchShiftsGrid` states this as written.
- **EV fleet size default.** The EV model's own default is 10 vehicles
  (`EvModel.ParamsOf`). The configuration step always supplies a fleet size,
  0 when the user gives none, so on the normal path that default never takes
  effect (`EvModel.ConfiguredParams`).

## Model

| member | source | states |
|---|---|---|
| ParseInputs.GetConfig | parse_inputs.py:20-50 | the configuration always has all seven top-level keys and every section field (`Complete`), and the efficiency is always 0.9 |
| ParseInputs.DefaultConfig | parse_inputs.py:20-50 | an empty input gives PV 100 kWp / 1.0 / "south" / 30, BESS 0 kWh / 0 kW / 0.9, EV 0 vehicles / 50 kWh / [9, 17), empty site, costs and constraints, and no priorities |
| ParseInputs.MissingFieldsDefaulted | parse_inputs.py:21-49 | each missing field takes its fixed default, whatever the others hold |
| ParseInputs.SuppliedFieldsKept | parse_inputs.py:21-49 | each supplied field is copied unchanged, with no range check |
| ParseInputs.MissingSectionIsEmpty | parse_inputs.py:21-38 | a missing `pv`, `bess` or `ev` section gives the same configuration as an empty one |
| ParseInputs.EfficiencyIgnored | parse_inputs.py:31 | changing the input's efficiency does not change the configuration |
| ParseInputs.CompleteInputKept | parse_inputs.py:20-50 | a complete input is returned unchanged except that its efficiency becomes 0.9 |
| ParseInputs.Idempotent | parse_inputs.py:20-50 | applying the defaulting to its own output changes nothing |
| BessModel.ParamsOfDefaults | bess_model.py:20-22 | a missing capacity or power reads as 0 and a missing efficiency as 0.9; supplied values are used as given |
| BessModel.Min3 | bess_model.py:33-37 | the three-way minimum is at most each argument and equal to one of them |
| BessModel.StepRules | bess_model.py:30-42 | one instant: when idle (no net, empty on a deficit, full on a surplus) or without power, nothing changes; the dispatch is within ±power; it is negative only on a deficit from a non-empty battery and never more than the deficit; it is positive only on a surplus into a battery with room and never more than the surplus; with power, a deficit from a non-empty battery is always met by a discharge and a surplus into a battery with room by a charge; the discharge never takes more than the battery holds over Δt and equals the power, the held energy over Δt or the deficit; the charge never exceeds the headroom over Δt and equals the power, the headroom over Δt or the surplus; the state of charge moves by exactly the stored power times Δt; with sane parameters it stays within [0, capacity] |
| BessModel.DischargeStep | bess_model.py:32-35 | on a deficit from a non-empty battery, the discharge is between 0 and the power and deficit, nonzero when the power is, at most the held energy over Δt, and equal to one of its three caps; the state of charge drops by discharge × Δt and stays within [0, capacity] |
| BessModel.ChargeStep | bess_model.py:36-39 | on a surplus into a battery with room, the charge is between 0 and the power and surplus, nonzero when the power is, at most the headroom over Δt, and equal to one of its three caps; the state of charge rises by charge × Δt × efficiency and stays within [0, capacity] |
| BessModel.DischargeFacts | bess_model.py:33-34 | the discharge `min(power, soc/Δt, net)` is at most the power and the deficit, positive when the power is, removes at most `soc` over Δt and equals one of the three caps; the state of charge stays at least 0 |
| BessModel.ChargeFacts | bess_model.py:37-38 | the charge `min(power, (cap−soc)/Δt, −net)` is at most the power and the surplus, positive when the power is, stores at most the headroom over Δt and equals one of the three caps; storing it derated never overfills |
| BessModel.ChargeBound | bess_model.py:37-38 | a charge at most `(cap − soc)/Δt`, derated by an efficiency in [0, 1], keeps the state of charge within [0, cap] |
| BessModel.Run | bess_model.py:30-43 | the dispatch and state-of-charge traces have one entry per instant |
| BessModel.RunSteps | bess_model.py:30-42 | entry i of both traces is the step taken at instant i from the state of charge after instant i−1, or from the start for i = 0 |
| BessModel.RunSocBounds | bess_model.py:32-39 | with sane parameters and a start in [0, capacity], every state-of-charge entry is in [0, capacity] |
| BessModel.StepOutcome | bess_model.py:31-41 | one instant follows `FollowsRules`: the dispatch is within ±power; a discharge happens only, and with power always, on a deficit from a non-empty battery; a charge only, and with power always, on a surplus into a battery with room; each is bounded by its net amount and by the energy held or the headroom over Δt, and reaches one of its three caps; an idle instant keeps the state of charge |
| BessModel.RunDispatchRules | bess_model.py:30-42 | every instant of a run follows `FollowsRules` from the state of charge before it: sign, power bound and greedy amount of each dispatch |
| BessModel.StepEnergy | bess_model.py:33-39 | the state of charge after an instant is the one before plus the stored energy: the discharge × Δt taken away, or charge × Δt × efficiency added |
| BessModel.TraceEnergyBalance | bess_model.py:34-42 | a trace whose entries each add that instant's stored energy ends at the start plus the total stored energy |
| BessModel.RunEnergyBalance | bess_model.py:30-42 | the final state of charge of a run is the initial one plus the sum of the energy stored at every instant |
| BessModel.RunIdleBattery | bess_model.py:32-41 | a battery without power, or an empty one without capacity, dispatches 0 and keeps its state of charge at every instant |
| BessModel.DispatchSteps | bess_model.py:25-42 | the simulation has one entry per demand instant, starts half full, and entry i is the step taken on `demand[i] − pv[i]` |
| BessModel.DispatchBounds | bess_model.py:25-39 | with sane parameters, every state of charge is in [0, capacity] and every dispatch within ±power |
| BessModel.NoBatteryNoDispatch | bess_model.py:25-41 | with zero capacity or zero power, every dispatch is 0 and every state of charge is the initial one |
| BessModel.StepExamples | bess_model.py:30-42 | with capacity 100, power 50, efficiency 1, half full and one-hour steps, a surplus of 60 charges 50 to 100 kWh, and a deficit of 30 discharges 30 to 20 kWh |
| BessModel.SimulateBessDispatch | bess_model.py:20-47 | the loop returns exactly the traces of the fold `Dispatch` over the configured parameters |
| BessModel.DispatchInstant | bess_model.py:31-41 | the loop body gives the new state of charge and dispatch of `Step` |
| EvModel.ParamsOfDefaults | ev_model.py:19-21 | missing keys default to 10 vehicles, 50 kWh and the window [9, 17); supplied values are used as given |
| EvModel.ConfiguredParams | ev_model.py:19-21 | read through the configuration defaults, the fleet size defaults to 0, the battery to 50 kWh and the window to [9, 17) |
| EvModel.ChargePower | ev_model.py:23-25 | the charging power times the window length is the fleet energy, fleet size × battery size |
| EvModel.ChargingDemand | ev_model.py:27-35 | one entry per timestamp, each 0 or the charging power |
| EvModel.ChargingExactlyInWindow | ev_model.py:29-33 | an entry is the charging power when its hour + minute/60 is in [start, end) and 0 otherwise; with nonzero power, it is that power exactly when in the window |
| EvModel.InvertedWindowIdle | ev_model.py:30 | a window ending before it starts gives the all-zero series |
| EvModel.EmptyFleetIdle | ev_model.py:23-25 | a fleet of 0 vehicles gives the all-zero series |
| EvModel.HourlyPrefix | ev_model.py:28-33 | over hourly timestamps from midnight, the first k entries sum to charging power × the number of hours among 0 .. k−1 inside the window |
| EvModel.WindowEnergy | ev_model.py:25-33 | over hourly timestamps from midnight that cover a whole-hour window, the entries sum to fleet size × battery size |
| EvModel.DailyEnergy | ev_model.py:25-33 | over one day of 24 hourly timestamps with integers 0 ≤ start < end ≤ 24, the entries sum to fleet size × battery size |
| EvModel.SimulateEvCharging | ev_model.py:19-35 | the loop returns exactly `ChargingDemand` on the configured parameters |
| Optimizer.RunOptimization | optimizer.py:22-45 | every result series has one entry per load instant, the PV series is passed through, the EV series is the charging demand, and net grid = load + EV − PV − dispatch at every instant |
| Optimizer.BatterySeesGrossDemand | optimizer.py:31-34 | the battery's step at instant i runs on load + EV − PV, starting half full |
| Optimizer.LoadRecoverable | optimizer.py:38 | net grid + PV + dispatch − EV gives back the load at every instant |
| Optimizer.NoBatteryPassThrough | optimizer.py:31-38 | with zero capacity or zero power, net grid = load + EV − PV at every instant |
| Optimizer.DispatchShiftsGrid | optimizer.py:38 | a charge lowers net grid below the surplus by the charge, to no less than twice the surplus; a discharge raises it above the deficit, to no more than twice the deficit; an idle instant leaves it at load + EV − PV |
| KpiModule.Positives | kpi_module.py:24 | the filtered series is no longer than the input and holds only positive entries |
| KpiModule.ClipLow | kpi_module.py:26 | the clipped series has the input's length, and each entry is the input entry or 0, whichever is larger |
| KpiModule.PositivesSum | kpi_module.py:24 | summing the positive entries equals summing the series clipped at 0 |
| KpiModule.GridImportKwh | kpi_module.py:24 | grid import is the clipped grid series summed times Δt, and is never negative for Δt ≥ 0 |
| KpiModule.Percentage | kpi_module.py:31 | the percentage is 0 when the whole is at most 0; otherwise percentage × whole = 100 × part |
| KpiModule.CalculateKpis | kpi_module.py:17-34 | import is the clipped grid sum × Δt and is nonnegative; generation is the PV sum × Δt; the percentage is self-consumed kWh as a percentage of generation, 0 when generation ≤ 0; the peak is the maximum grid exchange |
| KpiModule.PeakDemand | kpi_module.py:32 | the peak is at least every grid entry and equal to one of them |
| KpiModule.SelfConsumedNonnegative | kpi_module.py:26 | the self-consumed energy is never negative |
| KpiModule.ImportIgnoresExport | kpi_module.py:24 | two grid series that agree wherever either is positive give the same import |
| KpiModule.FlatDrawKpis | kpi_module.py:22-33 | a flat draw of `level` over n ≥ 2 instants with no PV gives import n × level × Δt, generation 0, percentage 0 and peak `level` |
| KpiModule.ExportCountsTwice | kpi_module.py:26-31 | a steady PV of x exported in full (grid −x) reports 200 % self-consumption |
| TimeSeries.Max | kpi_module.py:32 | the maximum of a non-empty series is one of its entries and at least every entry |
| Scenarios.DefaultConfigIdle | parse_inputs.py:29-38 | the default configuration gives a battery of 0 kWh and 0 kW with efficiency 0.9, and no vehicles, so nothing is dispatched |
| Scenarios.IdleRun | optimizer.py:22-45 | with no vehicles and no usable battery, net grid is load − PV |
| Scenarios.FlatLoad | optimizer.py:22-45 | a flat load of `level` over n instants, with no PV, no vehicles and no battery, gives net grid `level` everywhere, import n × level × Δt, percentage 0 and peak `level` (24 hourly steps of 100 kW give 2400 kWh) |
| Scenarios.SurplusOver100 | optimizer.py:22-45 | a steady PV of x with no load, no vehicles and no battery gives net grid −x everywhere and a self-consumption of 200 % |

## Left out

- The PV generator (`simulate_pv_generation`) uses `sin`, which has no counterpart over `real`. The PV series is an input of `Optimizer.RunOptimization`.
- The user interface, the dashboard charts and the CSV load-profile reader are not part of this model.
- Floating-point behaviour is not modelled: no rounding, no `-0` in the dispatch list (its `0` is `0.0` here), no NaN.
- Δt is a parameter. The source derives it from the first two timestamps through `timedelta.seconds`, which ignores whole days. The model neither derives it nor checks uniform spacing.
- pandas index alignment is not modelled: series are aligned by position.
- Source exceptions become preconditions:
  - `config["bess"]` raises a KeyError without a `bess` section, hence `cfg.bess.Some?` in `BessModel.SimulateBessDispatch` and `config.bess.Some?` in `Optimizer.Runnable`;
  - `config["ev"]` raises a KeyError without an `ev` section, hence `config.ev.Some?` in `EvModel.SimulateEvCharging` and in `Optimizer.Runnable`;
  - indexing the second timestamp needs at least two samples;
  - an EV window with end = start divides by zero;
  - a PV series shorter than the demand makes pandas reject the dispatch series, hence `|pv| >= |demand|`.
- `zip` stops at the shorter series. `BessModel.Nets` models that truncation, but the callers above require the PV series to be at least as long.
- KpiModule.CalculateKpis: the `ev` and `bess` entries of the result are read but unused by the source, so no contract mentions them. The peak is stated as `Max` of the grid series; `KpiModule.PeakDemand` states what that value is.
- KpiModule.CalculateKpis: the percentage is stated as `Percentage` of self-consumed energy and generation. `KpiModule.Percentage` states its meaning, 0 or part × 100 / whole. No upper bound of 100 % is claimed, because the code does not keep one.
- The simulation functions do not check the ranges of the configuration, so the lemmas that need ranges take them as hypotheses, for example `BessModel.Sane`. On the app's path the input widgets bound them: capacity and power are at least 0 (ui.py:28-29), the efficiency is fixed at 0.9 (parse_inputs.py:31), so `BessModel.Sane` holds there, and the window slider keeps 0 ≤ start ≤ end ≤ 24 (ui.py:34). The slider still allows start = end; the resulting ZeroDivisionError is caught with every other error at streamlit_app.py:52. The widgets are not part of this model.
