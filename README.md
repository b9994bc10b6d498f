# Outside-depot tick of the electric fleet simulator

The fleet simulator advances an electric vehicle fleet in ticks, `chunks` ticks per hour.
At each tick, every car that is outside the depot either drives, waits or rapid charges,
and one row is appended to the simulation trace for it. Two drivers run
that tick:

- `driving` first runs `checkRC`, the rapid-charge commitment check. It then rapid charges
  every car the check left charging (`rapidCharge`) and drives every other car
  (`decreaseBatt`).
- `rcSmartDriving` has no fixed commitment. A car rapid charges only while its battery is
  short of what the rest of its shift needs, at an assumed 4 kWh per hour plus a 5% reserve.

`breakTime` decides whether the tick falls in the configured non-charging break. During the
break, cars that are not rapid charging wait instead of driving.

The project has these modules:

- `Fleet` (fleet.dfy) holds the data. The car table is a sequence of `Car` rows. It also
  holds the trace record, the rapid-charge parameters and the drive profiles.
- `Breaks` (breaks.dfy) holds the break test.
- `RapidChargeCheck` (rapid_charge_check.dfy) holds the commitment state machine. `CheckRC`
  updates the table in place; it is an `array<Car>`.
- `Battery` (battery.dfy) holds the two battery updates. `Drained` and `RapidCharged` are
  pure functions. The in-place methods `DecreaseBatt` and `RapidCharge` are proved against
  them.
- `Driving` (driving.dfy) holds the per-car steps and the two drivers. `Driving` and
  `RcSmartDriving` update the table in place and return the extended trace. Their contracts
  tie them to the pure `OutsideDepotTick`.
- `DrivingProperties` (driving_properties.dfy) holds the properties of a whole tick.

Times are whole seconds. The time of day is the time modulo 86400. A break window is either
absent (the "None" setting) or a pair of times of day. Car `c` reads drive profile `c % 4`, at
row `ind` modulo the length of profile 0. `ValidDriveData` states which rows must exist and
that their efficiency must be non-zero.

The model follows the code in four places where a reader might expect otherwise:

- The battery has no lower bound of zero; see `DrainHasNoFloor`.
- The rapid-charge trigger is a strict `<`. A 40 kWh car at exactly 20% does not rapid
  charge; see `ThresholdIsStrict`.
- Driving 6 miles an hour at 4 miles per kWh drains 0.375 kWh per quarter-hour tick; see
  `DrainPerTick`.
- A car that is still below the trigger when its commitment ends starts, and is counted for,
  a new episode at once. The comment at ver10/drivingFunctions.py:46 speaks of a car that has
  not been rapid charging, but the test at line 47 does not check that. So one unbroken run of
  rapid charging can count more than once; see `RecountWhenCommitmentEnds`.

## Model

| member | source | states |
|---|---|---|
| Breaks.TimeOfDay | ver10/drivingFunctions.py:20 | the time of day `time.time()` reads lies in [0, 86400) and differs from the time by whole days |
| Breaks.BreakTime | ver10/drivingFunctions.py:15-21 | true exactly when a break is configured and its start <= time of day < its end; with the "None" setting, never true |
| Breaks.BreakTimeIsDaily | ver10/drivingFunctions.py:15-21 | the break test gives the same answer a day later |
| RapidChargeCheck.RcCommitTicks | ver10/drivingFunctions.py:27 | the commitment length is the ceiling of `rcDuration * chunks`: the least integer >= it |
| RapidChargeCheck.RcCheck | ver10/drivingFunctions.py:36-56 | only the two counters change; part-way through a commitment: +1 tick and no new episode; otherwise below the trigger: +1 tick and +1 episode; otherwise the ticks reset to 0; the car is left charging iff it is part-way through a commitment or below the trigger; the count rises by at most 1 |
| RapidChargeCheck.CheckedFleet | ver10/drivingFunctions.py:32-58 | the table keeps its length; what happens to each row is stated by `CheckedFleetFrame` and `RcCheck` |
| RapidChargeCheck.CheckRC | ver10/drivingFunctions.py:25-58 | the loop over the listed (distinct) cars leaves the table equal to `CheckedFleet` of the old table, with the commitment length from `RcCommitTicks` |
| RapidChargeCheck.CheckedFleetFrame | ver10/drivingFunctions.py:32-56 | unlisted cars are untouched; a listed car changes only its two counters; no episode count falls or rises by more than one |
| RapidChargeCheck.InCommitment | ver10/drivingFunctions.py:42 | a car that is not rapid charging is in no commitment, and a one-tick commitment never continues |
| RapidChargeCheck.BelowThreshold | ver10/drivingFunctions.py:47 | a trigger at or below 0% never fires for a non-negative battery; a trigger at 100% fires exactly when the battery is not full |
| RapidChargeCheck.RecountWhenCommitmentEnds | ver10/drivingFunctions.py:42-51 | a car whose commitment has run its length and which is still below the trigger gets +1 tick and is counted again |
| Battery.Drained | ver10/drivingFunctions.py:61-83 | kwphr is mileage/mpkw, with mileage 0 during a break; the battery falls by kwphr/chunks and the distance rises by mileage/chunks, and nothing else changes; the reported change equals the battery change, at no cost; kwphr is 0 iff break or mileage 0; a sane row never raises the battery or lowers the distance |
| Battery.RapidCharged | ver10/drivingFunctions.py:86-107 | the increase is the smaller of rcRate/chunks and the room left; the cost is rcPrice times the increase and is added to the car's cost; a battery within capacity stays within capacity; the battery ends exactly full iff a full-rate step would reach capacity; for a battery within capacity, with non-negative price and rate, the increase and cost are non-negative |
| Battery.DrainHasNoFloor | ver10/drivingFunctions.py:80 | a 0.1 kWh battery driven 8 miles an hour at 4 miles per kWh ends the tick at -0.4 kWh |
| Battery.DecreaseBatt | ver10/drivingFunctions.py:61-83 | updates only row `car` of the table, to `Drained` of the old row and the car's profile row, and returns its kwphr, change and zero cost |
| Battery.RapidCharge | ver10/drivingFunctions.py:86-107 | updates only row `car` of the table, to `RapidCharged` of the old row; adds the cost to the running total and returns the change and the cost |
| Fleet.DriveRowFor | ver10/drivingFunctions.py:65-70 | the profile row a car reads has a non-zero efficiency |
| Fleet.SaneRow | ver10/drivingFunctions.py:65-70 | with sane profiles, the row any car reads has mileage >= 0 and efficiency > 0 |
| Fleet.OutsideAmong | ver10/drivingFunctions.py:123 | among the first n rows, only cars outside the depot are listed |
| Fleet.OutsideCars | ver10/drivingFunctions.py:123 | every listed index is a row of the table whose car is outside the depot |
| Fleet.OutsideAmongComplete | ver10/drivingFunctions.py:123 | among the first n rows, a row is listed iff its car is outside the depot, and the list is strictly increasing |
| Fleet.OutsideCarsComplete | ver10/drivingFunctions.py:180 | a row is listed iff its car is outside the depot; the list is in table order with no repeats |
| Fleet.SumCost | ver10/drivingFunctions.py:131 | the column sum of the cars' costs: 0 for an empty table and the car's own cost for a single car; `SumCostNonNegative`, `SumCostUpdate` and `SumCostMonotone` state how it behaves |
| Fleet.SumCostNonNegative | ver10/drivingFunctions.py:131 | a fleet in which no car has a negative cost has a non-negative total |
| Fleet.SumCostUpdate | ver10/drivingFunctions.py:131 | replacing one row changes the fleet total cost by that row's change in cost |
| Fleet.SumCostMonotone | ver10/drivingFunctions.py:185 | a table whose rows all cost at least as much has at least the same fleet total |
| Driving.BattNeeded | ver10/drivingFunctions.py:196-199 | the need is the 5% reserve plus 1 kWh for every 900 seconds of shift left (4 kWh an hour); while the shift lasts it is at least the reserve |
| Driving.NeedsTopUp | ver10/drivingFunctions.py:202 | only a car with room in its battery is topped up; once the shift is over, a car that holds its reserve is not |
| Driving.DrivingStep | ver10/drivingFunctions.py:139-153 | RC iff the check left the car charging; a car that is not charging waits iff on break or mileage 0, and pays nothing; the counters are untouched; the reported change equals the battery change; the cost is added to the car; during a break a non-charging car is unchanged apart from a zero tick count; costs are non-negative and the battery stays within capacity under sane inputs |
| Driving.SmartStep | ver10/drivingFunctions.py:190-227 | RC iff the battery is below the need, the need is below capacity, and the car is already charging or below the trigger; RC gives +1 tick; otherwise ticks 0, no cost, and wait iff break or mileage 0; +1 episode iff RC starting from 0 ticks; the same change, cost, break and capacity facts as `DrivingStep` |
| Driving.CarStep | ver10/drivingFunctions.py:139-153 | the facts both steps share: the reported change is the battery change, the cost is added to the car, a non-charging car on break is unchanged, and costs and capacity are bounded under sane inputs |
| Driving.AppendCar | ver10/drivingFunctions.py:133-164 | one more car's step keeps the table size and adds exactly one record; `RunCarsPointwise` and `TickRecordsPointwise` state each row and record against the table the tick started from |
| Driving.RunCars | ver10/drivingFunctions.py:133-164 | a pass over n listed cars keeps the table size and writes exactly n records |
| Driving.TickStart | ver10/drivingFunctions.py:126 | the table the pass starts from has as many rows as the fleet; `TickStartKeepsTotals` states what it keeps |
| Driving.OutsideDepotTick | ver10/drivingFunctions.py:122-164 | the whole tick keeps the table size and writes one record per car outside the depot; `TickRowsPointwise`, `TickRecordsPointwise` and `TickCostAccounting` state its rows, records and totals |
| Driving.DrivingCar | ver10/drivingFunctions.py:134-164 | updates only the car's row, to its `DrivingStep`; returns the new running total and the record for the step |
| Driving.SmartCar | ver10/drivingFunctions.py:188-238 | updates only the car's row, to its `SmartStep`; returns the new running total and the record for the step |
| Driving.CarTick | ver10/drivingFunctions.py:134-164 | extends a pass by one car exactly as `AppendCar` does, on the table, the running total and the record |
| Driving.DriveOutsideCars | ver10/drivingFunctions.py:133-164 | the loop leaves the table and the trace exactly as `RunCars` over all listed cars does |
| Driving.Driving | ver10/drivingFunctions.py:115-166 | the table after the call, and the records appended to the trace, are those of `OutsideDepotTick` in the committed-duration mode |
| Driving.RcSmartDriving | ver10/drivingFunctions.py:172-240 | the table after the call, and the records appended to the trace, are those of `OutsideDepotTick` in the predictive mode |
| DrivingProperties.RunCarsUntouched | ver10/drivingFunctions.py:133-164 | a pass leaves every row that it does not list unchanged |
| DrivingProperties.RunCarsPointwise | ver10/drivingFunctions.py:133-164 | over distinct listed cars, each listed row ends as its own step on the starting table, and record k describes the step of the k-th listed car |
| DrivingProperties.ChargesPrefix | ver10/drivingFunctions.py:156-164 | appending records does not change the cost summed over the earlier ones |
| DrivingProperties.RunCarsRunningTotal | ver10/drivingFunctions.py:131-151 | after a pass, the running total and the fleet total both equal the starting total plus the recorded costs |
| DrivingProperties.RunCarsRecordTotals | ver10/drivingFunctions.py:156-164 | the running total in record k is the starting total plus the costs of records 0..k |
| DrivingProperties.RecordTotalsExtend | ver10/drivingFunctions.py:156-164 | appending a record whose total is the prefix sum keeps every record's total equal to its prefix sum |
| DrivingProperties.TickStartKeepsTotals | ver10/drivingFunctions.py:126-131 | the check changes no battery, capacity, cost, distance, depot flag or shift end, and so keeps the fleet total |
| DrivingProperties.TickRowsPointwise | ver10/drivingFunctions.py:123-153 | in-depot cars are untouched; each outside car ends as its own step on the table as the tick began (after `checkRC` in `driving`) |
| DrivingProperties.TickRecordsPointwise | ver10/drivingFunctions.py:133-164 | one record per outside car, in table order, each reporting that car's step and the battery it started the tick with |
| DrivingProperties.TickTraceOnePerOutsideCar | ver10/drivingFunctions.py:133-164 | every record has the tick's time, names an outside car and its battery before the tick; car numbers strictly increase; every outside car has a record |
| DrivingProperties.DrivingTickEvents | ver10/drivingFunctions.py:115-166 | in `driving`: RC iff part-way through a commitment or below the trigger; the counters are those `checkRC` gives; a non-RC record costs nothing and is a wait iff on break or mileage 0 |
| DrivingProperties.SmartTickEvents | ver10/drivingFunctions.py:172-240 | in `rcSmartDriving`: RC iff short of the need, the need fits, and already charging or below the trigger; ticks become +1 or 0; +1 episode iff RC from 0 ticks; the same wait rule |
| DrivingProperties.BreakMeansWait | ver10/drivingFunctions.py:68-81 | during a break every non-RC record is a wait with no change and no cost; the car's battery and distance do not move and its tick count is 0 |
| DrivingProperties.TickCostAccounting | ver10/drivingFunctions.py:131-163 | the final running total is the fleet total after the tick; that total is the one before plus all recorded costs; each record's total is the one before plus the costs so far |
| DrivingProperties.ChargesMonotone | ver10/drivingFunctions.py:97 | with non-negative costs, a longer prefix of the records sums to at least as much |
| DrivingProperties.TickCostMonotone | ver10/drivingFunctions.py:96-101 | with non-negative price and rate and batteries within capacity, no car's cost and not the fleet total goes down |
| DrivingProperties.TickChargesNonNegative | ver10/drivingFunctions.py:96-105 | under the same conditions every record reports a non-negative cost |
| DrivingProperties.PrefixTotalsNeverFall | ver10/drivingFunctions.py:97 | totals that are prefix sums of non-negative costs are at least the base and never fall from one record to the next |
| DrivingProperties.TickRunningTotalNeverFalls | ver10/drivingFunctions.py:131-163 | under the same conditions the running total the trace reports starts at or above the fleet total before the tick and never falls from record to record |
| DrivingProperties.TickBatteryCap | ver10/drivingFunctions.py:80-100 | with sane profiles, a tick that starts with every battery within capacity ends with every battery within capacity |
| DrivingProperties.TickRcCountNeverFalls | ver10/drivingFunctions.py:49-51 | a tick raises each car's rapid-charge count by 0 or 1, under either driver (the predictive driver's increment is at line 215) |
| DrivingProperties.ThresholdIsStrict | ver10/drivingFunctions.py:47 | at exactly 8/40 kWh with a 20% trigger the car drives; at 7.9 it rapid charges, to 20.4 kWh |
| DrivingProperties.DrainPerTick | ver10/drivingFunctions.py:73-80 | 35 kWh, driving 6 miles an hour at 4 miles per kWh, becomes 34.625 kWh after a quarter-hour tick |

## Left out

- Rounding of the trace fields is left out. `chargeDiff` is rounded to 0.1, `batt` to 0.1, and `costPerCharge` and `totalCost` to 0.01. The model records exact values.
- All arithmetic is on exact reals, not floating point.
- Reading the configuration is not part of this model. That covers `getData`, `readTime` and the pandas frames. The break window, the rapid-charge parameters and the drive profiles are passed in as values.
- The position data (`latLongDF`, geopy) is passed to `decreaseBatt` but never used, so it is left out.
- The car table is an array of rows; pandas' index labels are row positions. The trace is a sequence that the drivers return extended.
- A drive profile with a zero efficiency is excluded by `ValidDriveData`. numpy would give an infinite or undefined drain. `ValidDriveData` also excludes missing profile rows, where pandas would raise a `KeyError`.
- The rest of the simulator is not part of this model. That covers the depot charging, the shift changes and the main loop in ver9/simulation.py and ver11/mainFunction.py.
- Date arithmetic on datetimes is not modelled. The shift's end is stored as seconds, and the predictive driver's hours left are that end minus the tick's time, divided by 3600.
