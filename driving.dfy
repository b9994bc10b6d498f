/**
 * The per-tick pass over the cars outside the depot, in its two variants: `Driving`, which
 * commits to rapid charges of a fixed length, and `RcSmartDriving`, which rapid charges only
 * while the battery is short of what the rest of the shift needs.
 */
module Driving {
  import opened Fleet
  import opened Breaks
  import opened RapidChargeCheck
  import opened Battery

  /** Which of the two drivers runs the tick. */
  datatype Mode = Standard | RcSmart

  /** What one car's tick yields: its new row and the fields of its trace record. */
  datatype StepOutcome = StepOutcome(car: Car, chargeDiff: real, event: Event, costPerCharge: real)

  /** The consumption rate (kWh per hour) the predictive variant assumes for the rest of a shift. */
  const AssumedKwPerHour: real := 4.0
  /** The reserve the predictive variant keeps, as a percentage of capacity. */
  const BufferPercent: real := 5.0

  /** The battery the car needs to finish its shift at `time`, reserve included. */
  function BattNeeded(c: Car, time: int): (r: real)
    // the reserve plus 1 kWh for every 900 seconds of shift left
    ensures (r - c.battSize * BufferPercent / 100.0) * 900.0 == (c.latestEndShift - time) as real
    ensures time <= c.latestEndShift ==> r >= c.battSize / 20.0
  {
    ((c.latestEndShift - time) as real / 3600.0) * AssumedKwPerHour + c.battSize * BufferPercent / 100.0
  }

  /** The predictive variant's guard: the battery is short of the need, and the need fits the battery. */
  function NeedsTopUp(c: Car, time: int): (r: bool)
    // only a car with room in its battery is topped up
    ensures r ==> c.battkW < c.battSize
    // once the shift is over, a car holding its reserve is not topped up
    ensures time >= c.latestEndShift && c.battkW >= c.battSize / 20.0 ==> !r
  {
    c.battkW < BattNeeded(c, time) < c.battSize
  }

  /** One car's tick in `Driving`, for the car as the rapid-charge check left it. */
  function DrivingStep(c: Car, row: DriveRow, nonChargingBreak: bool, rc: RcData, chunks: Chunks): (r: StepOutcome)
    requires row.mpkw != 0.0
    ensures r.event == RC <==> c.rcChunks != 0
    ensures r.event != RC ==>
              (r.event == Wait <==> nonChargingBreak || row.mileage == 0.0) && r.costPerCharge == 0.0
    ensures r.car.rcChunks == c.rcChunks && r.car.rcCount == c.rcCount
    ensures r.chargeDiff == r.car.battkW - c.battkW
    ensures r.car.totalCost == c.totalCost + r.costPerCharge
    ensures r.car.battSize == c.battSize && r.car.inDepot == c.inDepot && r.car.latestEndShift == c.latestEndShift
    // during a break a car that is not rapid charging waits where it is
    ensures nonChargingBreak && r.event != RC ==> r.event == Wait && r.car == c.(rcChunks := 0) && r.chargeDiff == 0.0
    // with sane prices and a sane profile, costs never fall and the battery stays within capacity
    ensures rc.rcPrice >= 0.0 && rc.rcRate >= 0.0 && c.battkW <= c.battSize ==> r.costPerCharge >= 0.0
    ensures c.battkW <= c.battSize && row.mileage >= 0.0 && row.mpkw > 0.0 ==> r.car.battkW <= c.battSize
  {
    if c.rcChunks == 0 then
      var d := Drained(c, row, nonChargingBreak, chunks);
      StepOutcome(d.car.(rcChunks := 0), d.chargeDiff, if d.kwphr == 0.0 then Wait else Drive, d.costPerCharge)
    else
      var q := RapidCharged(c, rc.rcRate, rc.rcPrice, chunks);
      StepOutcome(q.car, q.chargeDiff, RC, q.costPerCharge)
  }

  /** One car's tick in `RcSmartDriving`. */
  function SmartStep(c: Car, time: int, row: DriveRow, nonChargingBreak: bool, rc: RcData, chunks: Chunks): (r: StepOutcome)
    requires row.mpkw != 0.0
    // rapid charge only while short of the need, and only to continue a charge or below the trigger
    ensures r.event == RC <==> NeedsTopUp(c, time) && (c.rcChunks > 0 || BelowThreshold(c, rc.rcPerc))
    ensures r.event == RC ==> r.car.rcChunks == c.rcChunks + 1
    ensures r.event != RC ==>
              r.car.rcChunks == 0 && r.costPerCharge == 0.0 &&
              (r.event == Wait <==> nonChargingBreak || row.mileage == 0.0)
    // at most one new episode, and only when the car was not already rapid charging
    ensures c.rcCount <= r.car.rcCount <= c.rcCount + 1
    ensures r.car.rcCount == c.rcCount + 1 <==> r.event == RC && c.rcChunks == 0
    ensures r.chargeDiff == r.car.battkW - c.battkW
    ensures r.car.totalCost == c.totalCost + r.costPerCharge
    ensures r.car.battSize == c.battSize && r.car.inDepot == c.inDepot && r.car.latestEndShift == c.latestEndShift
    // during a break a car that is not rapid charging waits where it is
    ensures nonChargingBreak && r.event != RC ==> r.event == Wait && r.car == c.(rcChunks := 0) && r.chargeDiff == 0.0
    // with sane prices and a sane profile, costs never fall and the battery stays within capacity
    ensures rc.rcPrice >= 0.0 && rc.rcRate >= 0.0 && c.battkW <= c.battSize ==> r.costPerCharge >= 0.0
    ensures c.battkW <= c.battSize && row.mileage >= 0.0 && row.mpkw > 0.0 ==> r.car.battkW <= c.battSize
  {
    if c.rcChunks > 0 && NeedsTopUp(c, time) then
      var q := RapidCharged(c, rc.rcRate, rc.rcPrice, chunks);
      StepOutcome(q.car.(rcChunks := c.rcChunks + 1), q.chargeDiff, RC, q.costPerCharge)
    else if BelowThreshold(c, rc.rcPerc) && NeedsTopUp(c, time) then
      var q := RapidCharged(c, rc.rcRate, rc.rcPrice, chunks);
      var count := if c.rcChunks == 0 then c.rcCount + 1 else c.rcCount;
      StepOutcome(q.car.(rcCount := count, rcChunks := c.rcChunks + 1), q.chargeDiff, RC, q.costPerCharge)
    else
      var d := Drained(c, row, nonChargingBreak, chunks);
      StepOutcome(d.car.(rcChunks := 0), d.chargeDiff, if d.kwphr == 0.0 then Wait else Drive, d.costPerCharge)
  }

  /** One car's tick under `mode`. */
  function CarStep(mode: Mode, c: Car, time: int, row: DriveRow, nonChargingBreak: bool, rc: RcData, chunks: Chunks): (r: StepOutcome)
    requires row.mpkw != 0.0
    ensures r.chargeDiff == r.car.battkW - c.battkW
    ensures r.car.totalCost == c.totalCost + r.costPerCharge
    ensures r.car.battSize == c.battSize && r.car.inDepot == c.inDepot && r.car.latestEndShift == c.latestEndShift
    // during a break a car that is not rapid charging waits where it is
    ensures nonChargingBreak && r.event != RC ==> r.event == Wait && r.car == c.(rcChunks := 0) && r.chargeDiff == 0.0
    // with sane prices and a sane profile, costs never fall and the battery stays within capacity
    ensures rc.rcPrice >= 0.0 && rc.rcRate >= 0.0 && c.battkW <= c.battSize ==> r.costPerCharge >= 0.0
    ensures c.battkW <= c.battSize && row.mileage >= 0.0 && row.mpkw > 0.0 ==> r.car.battkW <= c.battSize
  {
    match mode
    case Standard => DrivingStep(c, row, nonChargingBreak, rc, chunks)
    case RcSmart => SmartStep(c, time, row, nonChargingBreak, rc, chunks)
  }

  /** The pass so far, extended by car `car`'s step on the table as the earlier steps left it. */
  function AppendCar(mode: Mode, prev: TickResult, car: nat, time: int, driveData: seq<seq<DriveRow>>,
                     ind: nat, nonChargingBreak: bool, rc: RcData, chunks: Chunks): (r: TickResult)
    requires car < |prev.fleet|
    requires ValidDriveData(driveData, |prev.fleet|)
    ensures |r.fleet| == |prev.fleet| && |r.records| == |prev.records| + 1
  {
    var c := prev.fleet[car];
    var s := CarStep(mode, c, time, DriveRowFor(driveData, car, ind, |prev.fleet|), nonChargingBreak, rc, chunks);
    var cost := prev.totalCost + s.costPerCharge;
    TickResult(prev.fleet[car := s.car],
               prev.records + [TraceRecord(time, car, s.chargeDiff, c.battkW, s.event, s.costPerCharge, cost)],
               cost)
  }

  /**
   * The first `n` cars listed in `idxs` take their tick one after another, each reading its
   * row as the earlier steps left the table; every step appends one trace record and adds its
   * cost to the running total.
   */
  function RunCars(mode: Mode, fleet: seq<Car>, idxs: seq<nat>, n: nat, time: int, driveData: seq<seq<DriveRow>>,
                   ind: nat, nonChargingBreak: bool, rc: RcData, chunks: Chunks, totalCost: real): (r: TickResult)
    requires n <= |idxs|
    requires forall k :: 0 <= k < |idxs| ==> idxs[k] < |fleet|
    requires ValidDriveData(driveData, |fleet|)
    ensures |r.fleet| == |fleet| && |r.records| == n
    decreases n
  {
    if n == 0 then TickResult(fleet, [], totalCost)
    else
      var prev := RunCars(mode, fleet, idxs, n - 1, time, driveData, ind, nonChargingBreak, rc, chunks, totalCost);
      AppendCar(mode, prev, idxs[n - 1], time, driveData, ind, nonChargingBreak, rc, chunks)
  }

  /** The three parts of one car's step, as the loops of the two drivers build them. */
  lemma AppendCarParts(mode: Mode, prev: TickResult, car: nat, time: int, driveData: seq<seq<DriveRow>>,
                       ind: nat, nonChargingBreak: bool, rc: RcData, chunks: Chunks)
    requires car < |prev.fleet|
    requires ValidDriveData(driveData, |prev.fleet|)
    ensures var r := AppendCar(mode, prev, car, time, driveData, ind, nonChargingBreak, rc, chunks);
            var s := CarStep(mode, prev.fleet[car], time, DriveRowFor(driveData, car, ind, |prev.fleet|), nonChargingBreak, rc, chunks);
            && r.fleet == prev.fleet[car := s.car]
            && r.totalCost == prev.totalCost + s.costPerCharge
            && r.records == prev.records + [TraceRecord(time, car, s.chargeDiff, prev.fleet[car].battkW, s.event, s.costPerCharge, r.totalCost)]
  {
  }

  /** The table the pass starts from: `Driving` first runs the rapid-charge check. */
  function TickStart(mode: Mode, fleet: seq<Car>, rc: RcData, chunks: Chunks): (r: seq<Car>)
    ensures |r| == |fleet|
  {
    match mode
    case Standard => CheckedFleet(fleet, OutsideCars(fleet), RcCommitTicks(rc.rcDuration, chunks), rc.rcPerc)
    case RcSmart => fleet
  }

  /** A whole outside-depot tick under `mode`; the running total starts at the fleet total. */
  function OutsideDepotTick(mode: Mode, fleet: seq<Car>, time: int, driveData: seq<seq<DriveRow>>,
                            breaks: BreakWindow, rc: RcData, ind: nat, chunks: Chunks): (r: TickResult)
    requires ValidDriveData(driveData, |fleet|)
    ensures |r.fleet| == |fleet| && |r.records| == |OutsideCars(fleet)|
  {
    var start := TickStart(mode, fleet, rc, chunks);
    var idxs := OutsideCars(fleet);
    RunCars(mode, start, idxs, |idxs|, time, driveData, ind, BreakTime(time, breaks), rc, chunks, SumCost(start))
  }

  /** One car's tick in `driving`: rapid charge it if the check left it charging, otherwise drive it. */
  method DrivingCar(time: int, car: nat, fleet: array<Car>, driveData: seq<seq<DriveRow>>, nonChargingBreak: bool,
                    rc: RcData, ind: nat, chunks: Chunks, totalCost: real)
    returns (newTotalCost: real, record: TraceRecord)
    requires car < fleet.Length
    requires ValidDriveData(driveData, fleet.Length)
    modifies fleet
    ensures var s := DrivingStep(old(fleet[car]), DriveRowFor(driveData, car, ind, fleet.Length), nonChargingBreak, rc, chunks);
            && fleet[..] == old(fleet[..])[car := s.car]
            && newTotalCost == totalCost + s.costPerCharge
            && record == TraceRecord(time, car, s.chargeDiff, old(fleet[car]).battkW, s.event, s.costPerCharge, newTotalCost)
  {
    var batt := fleet[car].battkW;
    var chargeDiff, costPerCharge, event;
    newTotalCost := totalCost;
    if fleet[car].rcChunks == 0 {
      var kwphr;
      kwphr, chargeDiff, costPerCharge := DecreaseBatt(car, fleet, driveData, ind, nonChargingBreak, chunks);
      fleet[car] := fleet[car].(rcChunks := 0);
      event := if kwphr == 0.0 then Wait else Drive;
    } else {
      newTotalCost, chargeDiff, costPerCharge := RapidCharge(car, fleet, rc.rcRate, rc.rcPrice, totalCost, chunks);
      event := RC;
    }
    record := TraceRecord(time, car, chargeDiff, batt, event, costPerCharge, newTotalCost);
  }

  /** One car's tick in `rcSmartDriving`. */
  method SmartCar(time: int, car: nat, fleet: array<Car>, driveData: seq<seq<DriveRow>>, nonChargingBreak: bool,
                  rc: RcData, ind: nat, chunks: Chunks, totalCost: real)
    returns (newTotalCost: real, record: TraceRecord)
    requires car < fleet.Length
    requires ValidDriveData(driveData, fleet.Length)
    modifies fleet
    ensures var s := SmartStep(old(fleet[car]), time, DriveRowFor(driveData, car, ind, fleet.Length), nonChargingBreak, rc, chunks);
            && fleet[..] == old(fleet[..])[car := s.car]
            && newTotalCost == totalCost + s.costPerCharge
            && record == TraceRecord(time, car, s.chargeDiff, old(fleet[car]).battkW, s.event, s.costPerCharge, newTotalCost)
  {
    var batt := fleet[car].battkW;
    var battSize := fleet[car].battSize;
    var rcChunks := fleet[car].rcChunks;
    var hrsLeft := (fleet[car].latestEndShift - time) as real / 3600.0;
    var buffer := battSize * BufferPercent / 100.0;
    var kwphr := AssumedKwPerHour;
    var battNeeded := hrsLeft * kwphr + buffer;
    assert battNeeded == BattNeeded(fleet[car], time);
    assert batt < battSize * (rc.rcPerc / 100.0) <==> BelowThreshold(fleet[car], rc.rcPerc);
    var chargeDiff, costPerCharge, event;
    newTotalCost := totalCost;
    if rcChunks > 0 && batt < battNeeded < battSize {
      newTotalCost, chargeDiff, costPerCharge := RapidCharge(car, fleet, rc.rcRate, rc.rcPrice, totalCost, chunks);
      fleet[car] := fleet[car].(rcChunks := fleet[car].rcChunks + 1);
      event := RC;
    } else if batt < battSize * (rc.rcPerc / 100.0) && batt < battNeeded < battSize {
      newTotalCost, chargeDiff, costPerCharge := RapidCharge(car, fleet, rc.rcRate, rc.rcPrice, totalCost, chunks);
      if rcChunks == 0 {
        fleet[car] := fleet[car].(rcCount := fleet[car].rcCount + 1);
      }
      fleet[car] := fleet[car].(rcChunks := fleet[car].rcChunks + 1);
      event := RC;
    } else {
      kwphr, chargeDiff, costPerCharge := DecreaseBatt(car, fleet, driveData, ind, nonChargingBreak, chunks);
      fleet[car] := fleet[car].(rcChunks := 0);
      event := if kwphr == 0.0 then Wait else Drive;
    }
    record := TraceRecord(time, car, chargeDiff, batt, event, costPerCharge, newTotalCost);
  }

  /** One car's tick under `mode`, extending the pass `done` that the table and running total reflect. */
  method CarTick(mode: Mode, time: int, car: nat, fleet: array<Car>, driveData: seq<seq<DriveRow>>, nonChargingBreak: bool,
                 rc: RcData, ind: nat, chunks: Chunks, totalCost: real, ghost done: TickResult)
    returns (newTotalCost: real, record: TraceRecord)
    requires car < fleet.Length
    requires ValidDriveData(driveData, fleet.Length)
    requires fleet[..] == done.fleet && totalCost == done.totalCost
    modifies fleet
    ensures var next := AppendCar(mode, done, car, time, driveData, ind, nonChargingBreak, rc, chunks);
            && fleet[..] == next.fleet
            && newTotalCost == next.totalCost
            && next.records == done.records + [record]
  {
    AppendCarParts(mode, done, car, time, driveData, ind, nonChargingBreak, rc, chunks);
    if mode == Standard {
      newTotalCost, record := DrivingCar(time, car, fleet, driveData, nonChargingBreak, rc, ind, chunks, totalCost);
    } else {
      newTotalCost, record := SmartCar(time, car, fleet, driveData, nonChargingBreak, rc, ind, chunks, totalCost);
    }
  }

  /**
   * The loop both drivers share: each listed car in turn takes its step under `mode`, its
   * record is appended to the trace and its cost to the running total.
   */
  method DriveOutsideCars(mode: Mode, time: int, fleet: array<Car>, drivingCars: seq<nat>, driveData: seq<seq<DriveRow>>,
                          nonChargingBreak: bool, rc: RcData, ind: nat, chunks: Chunks, totalCost: real, trace: seq<TraceRecord>)
    returns (newTrace: seq<TraceRecord>)
    requires forall k :: 0 <= k < |drivingCars| ==> drivingCars[k] < fleet.Length
    requires ValidDriveData(driveData, fleet.Length)
    modifies fleet
    ensures var r := RunCars(mode, old(fleet[..]), drivingCars, |drivingCars|, time, driveData, ind, nonChargingBreak, rc, chunks, totalCost);
            fleet[..] == r.fleet && newTrace == trace + r.records
  {
    ghost var start := fleet[..];
    ghost var done := RunCars(mode, start, drivingCars, 0, time, driveData, ind, nonChargingBreak, rc, chunks, totalCost);
    var cost := totalCost;
    newTrace := trace;
    var rows := 0;
    while rows < |drivingCars|
      invariant 0 <= rows <= |drivingCars|
      invariant done == RunCars(mode, start, drivingCars, rows, time, driveData, ind, nonChargingBreak, rc, chunks, totalCost)
      invariant fleet[..] == done.fleet && newTrace == trace + done.records && cost == done.totalCost
    {
      var car := drivingCars[rows];
      ghost var next := AppendCar(mode, done, car, time, driveData, ind, nonChargingBreak, rc, chunks);
      var record;
      cost, record := CarTick(mode, time, car, fleet, driveData, nonChargingBreak, rc, ind, chunks, cost, done);
      newTrace := newTrace + [record];
      assert newTrace == trace + next.records;
      done := next;
      rows := rows + 1;
    }
  }

  /** The committed-duration driver: check rapid charging, then drive or rapid charge each car outside. */
  method Driving(time: int, fleet: array<Car>, driveData: seq<seq<DriveRow>>, breaks: BreakWindow, rc: RcData,
                 trace: seq<TraceRecord>, ind: nat, chunks: Chunks)
    returns (newTrace: seq<TraceRecord>)
    requires ValidDriveData(driveData, fleet.Length)
    modifies fleet
    ensures var r := OutsideDepotTick(Standard, old(fleet[..]), time, driveData, breaks, rc, ind, chunks);
            fleet[..] == r.fleet && newTrace == trace + r.records
  {
    var drivingCars := OutsideCars(fleet[..]);
    OutsideCarsComplete(fleet[..]);
    CheckRC(fleet, drivingCars, rc.rcDuration, rc.rcPerc, chunks);
    var nonChargingBreak := BreakTime(time, breaks);
    var totalCost := SumCost(fleet[..]);
    newTrace := DriveOutsideCars(Standard, time, fleet, drivingCars, driveData, nonChargingBreak, rc, ind, chunks, totalCost, trace);
  }

  /** The predictive driver: rapid charge only while the battery is short of the shift's remaining need. */
  method RcSmartDriving(time: int, fleet: array<Car>, driveData: seq<seq<DriveRow>>, breaks: BreakWindow, rc: RcData,
                        trace: seq<TraceRecord>, ind: nat, chunks: Chunks)
    returns (newTrace: seq<TraceRecord>)
    requires ValidDriveData(driveData, fleet.Length)
    modifies fleet
    ensures var r := OutsideDepotTick(RcSmart, old(fleet[..]), time, driveData, breaks, rc, ind, chunks);
            fleet[..] == r.fleet && newTrace == trace + r.records
  {
    var drivingCars := OutsideCars(fleet[..]);
    var nonChargingBreak := BreakTime(time, breaks);
    var totalCost := SumCost(fleet[..]);
    newTrace := DriveOutsideCars(RcSmart, time, fleet, drivingCars, driveData, nonChargingBreak, rc, ind, chunks, totalCost, trace);
  }
}
