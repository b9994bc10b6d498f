/**
 * What a whole outside-depot tick guarantees: which rows it touches, the trace it writes,
 * the rapid-charge decisions of both drivers, the cost accounting, and the bounds it keeps.
 */
module DrivingProperties {
  import opened Fleet
  import opened Breaks
  import opened RapidChargeCheck
  import opened Battery
  import opened Driving

  /** Car `car`'s step on the table `fleet`, reading its own drive-profile row. */
  function StepOf(mode: Mode, fleet: seq<Car>, car: nat, time: int, driveData: seq<seq<DriveRow>>, ind: nat,
                  nonChargingBreak: bool, rc: RcData, chunks: Chunks): (r: StepOutcome)
    requires car < |fleet|
    requires ValidDriveData(driveData, |fleet|)
  {
    CarStep(mode, fleet[car], time, DriveRowFor(driveData, car, ind, |fleet|), nonChargingBreak, rc, chunks)
  }

  /** `rec` reports step `s` of car `car` at `time`, which started from battery `batt`. */
  predicate RecordsStep(rec: TraceRecord, time: int, car: nat, batt: real, s: StepOutcome)
  {
    && rec.time == time && rec.car == car && rec.batt == batt
    && rec.chargeDiff == s.chargeDiff && rec.event == s.event && rec.costPerCharge == s.costPerCharge
  }

  /** A pass leaves the rows it has not reached as they were. */
  lemma {:induction false} RunCarsUntouched(mode: Mode, fleet: seq<Car>, idxs: seq<nat>, n: nat, time: int,
                                            driveData: seq<seq<DriveRow>>, ind: nat, nonChargingBreak: bool,
                                            rc: RcData, chunks: Chunks, totalCost: real, j: nat)
    requires n <= |idxs|
    requires forall k :: 0 <= k < |idxs| ==> idxs[k] < |fleet|
    requires ValidDriveData(driveData, |fleet|)
    requires j < |fleet| && forall k :: 0 <= k < n ==> idxs[k] != j
    ensures RunCars(mode, fleet, idxs, n, time, driveData, ind, nonChargingBreak, rc, chunks, totalCost).fleet[j] == fleet[j]
    decreases n
  {
    if n > 0 {
      RunCarsUntouched(mode, fleet, idxs, n - 1, time, driveData, ind, nonChargingBreak, rc, chunks, totalCost, j);
    }
  }

  /**
   * When no car is listed twice, each listed car's step reads its row as it was before the
   * pass, and the record at position `k` reports the `k`-th listed car's step.
   */
  lemma {:induction false} RunCarsPointwise(mode: Mode, fleet: seq<Car>, idxs: seq<nat>, n: nat, time: int,
                                            driveData: seq<seq<DriveRow>>, ind: nat, nonChargingBreak: bool,
                                            rc: RcData, chunks: Chunks, totalCost: real, r: TickResult)
    requires n <= |idxs|
    requires DistinctIndices(idxs, |fleet|)
    requires ValidDriveData(driveData, |fleet|)
    requires r == RunCars(mode, fleet, idxs, n, time, driveData, ind, nonChargingBreak, rc, chunks, totalCost)
    ensures forall k :: 0 <= k < n ==>
              r.fleet[idxs[k]] == StepOf(mode, fleet, idxs[k], time, driveData, ind, nonChargingBreak, rc, chunks).car
    ensures forall k :: 0 <= k < n ==>
              RecordsStep(r.records[k], time, idxs[k], fleet[idxs[k]].battkW,
                          StepOf(mode, fleet, idxs[k], time, driveData, ind, nonChargingBreak, rc, chunks))
    decreases n
  {
    if n > 0 {
      var last := idxs[n - 1];
      var prev := RunCars(mode, fleet, idxs, n - 1, time, driveData, ind, nonChargingBreak, rc, chunks, totalCost);
      RunCarsPointwise(mode, fleet, idxs, n - 1, time, driveData, ind, nonChargingBreak, rc, chunks, totalCost, prev);
      RunCarsUntouched(mode, fleet, idxs, n - 1, time, driveData, ind, nonChargingBreak, rc, chunks, totalCost, last);
      AppendCarParts(mode, prev, last, time, driveData, ind, nonChargingBreak, rc, chunks);
      var s := StepOf(mode, fleet, last, time, driveData, ind, nonChargingBreak, rc, chunks);
      forall k | 0 <= k < n - 1
        ensures r.fleet[idxs[k]] == StepOf(mode, fleet, idxs[k], time, driveData, ind, nonChargingBreak, rc, chunks).car
        ensures RecordsStep(r.records[k], time, idxs[k], fleet[idxs[k]].battkW,
                            StepOf(mode, fleet, idxs[k], time, driveData, ind, nonChargingBreak, rc, chunks))
      {
        assert idxs[k] != last;
        assert r.records[k] == prev.records[k];
      }
      assert RecordsStep(r.records[n - 1], time, last, fleet[last].battkW, s);
    }
  }

  /** The costs the first `n` records report, added up. */
  function Charges(records: seq<TraceRecord>, n: nat): (r: real)
    requires n <= |records|
    decreases n
  {
    if n == 0 then 0.0 else Charges(records, n - 1) + records[n - 1].costPerCharge
  }

  /** Partial sums of reported costs depend only on the records they cover. */
  lemma {:induction false} ChargesPrefix(records: seq<TraceRecord>, more: seq<TraceRecord>, n: nat)
    requires n <= |records|
    ensures Charges(records + more, n) == Charges(records, n)
    decreases n
  {
    if n > 0 {
      ChargesPrefix(records, more, n - 1);
    }
  }

  /**
   * Each step adds its cost both to the running total and to its car, so the running total
   * and the fleet total both grow by exactly the costs the records report.
   */
  lemma {:induction false} RunCarsRunningTotal(mode: Mode, fleet: seq<Car>, idxs: seq<nat>, n: nat, time: int,
                                               driveData: seq<seq<DriveRow>>, ind: nat, nonChargingBreak: bool,
                                               rc: RcData, chunks: Chunks, totalCost: real, r: TickResult)
    requires n <= |idxs|
    requires forall k :: 0 <= k < |idxs| ==> idxs[k] < |fleet|
    requires ValidDriveData(driveData, |fleet|)
    requires r == RunCars(mode, fleet, idxs, n, time, driveData, ind, nonChargingBreak, rc, chunks, totalCost)
    ensures r.totalCost == totalCost + Charges(r.records, n)
    ensures SumCost(r.fleet) == SumCost(fleet) + Charges(r.records, n)
    decreases n
  {
    if n > 0 {
      var last := idxs[n - 1];
      var prev := RunCars(mode, fleet, idxs, n - 1, time, driveData, ind, nonChargingBreak, rc, chunks, totalCost);
      RunCarsRunningTotal(mode, fleet, idxs, n - 1, time, driveData, ind, nonChargingBreak, rc, chunks, totalCost, prev);
      AppendCarParts(mode, prev, last, time, driveData, ind, nonChargingBreak, rc, chunks);
      var s := StepOf(mode, prev.fleet, last, time, driveData, ind, nonChargingBreak, rc, chunks);
      SumCostUpdate(prev.fleet, last, s.car);
      ChargesPrefix(prev.records, [r.records[n - 1]], n - 1);
    }
  }

  /** The total a record reports is the starting total plus the costs reported up to and including it. */
  lemma {:induction false} RunCarsRecordTotals(mode: Mode, fleet: seq<Car>, idxs: seq<nat>, n: nat, time: int,
                                               driveData: seq<seq<DriveRow>>, ind: nat, nonChargingBreak: bool,
                                               rc: RcData, chunks: Chunks, totalCost: real, r: TickResult)
    requires n <= |idxs|
    requires forall k :: 0 <= k < |idxs| ==> idxs[k] < |fleet|
    requires ValidDriveData(driveData, |fleet|)
    requires r == RunCars(mode, fleet, idxs, n, time, driveData, ind, nonChargingBreak, rc, chunks, totalCost)
    ensures forall k :: 0 <= k < n ==> r.records[k].totalCost == totalCost + Charges(r.records, k + 1)
    decreases n
  {
    if n > 0 {
      var prev := RunCars(mode, fleet, idxs, n - 1, time, driveData, ind, nonChargingBreak, rc, chunks, totalCost);
      RunCarsRunningTotal(mode, fleet, idxs, n - 1, time, driveData, ind, nonChargingBreak, rc, chunks, totalCost, prev);
      RunCarsRecordTotals(mode, fleet, idxs, n - 1, time, driveData, ind, nonChargingBreak, rc, chunks, totalCost, prev);
      AppendCarParts(mode, prev, idxs[n - 1], time, driveData, ind, nonChargingBreak, rc, chunks);
      RecordTotalsExtend(prev.records, r.records[n - 1], totalCost);
    }
  }

  /** Appending a record whose total adds its own cost keeps every reported total a prefix sum. */
  lemma RecordTotalsExtend(records: seq<TraceRecord>, rec: TraceRecord, base: real)
    requires forall k :: 0 <= k < |records| ==> records[k].totalCost == base + Charges(records, k + 1)
    requires rec.totalCost == base + Charges(records, |records|) + rec.costPerCharge
    ensures forall k :: 0 <= k < |records| + 1 ==> (records + [rec])[k].totalCost == base + Charges(records + [rec], k + 1)
  {
    var all := records + [rec];
    ChargesPrefix(records, [rec], |records|);
    forall k | 0 <= k < |records|
      ensures all[k].totalCost == base + Charges(all, k + 1)
    {
      ChargesPrefix(records, [rec], k + 1);
    }
  }

  /** The rapid-charge check changes counters only, so the table keeps its fleet total. */
  lemma {:induction false} TickStartKeepsTotals(mode: Mode, fleet: seq<Car>, rc: RcData, chunks: Chunks)
    ensures forall i :: 0 <= i < |fleet| ==>
              var c := TickStart(mode, fleet, rc, chunks)[i];
              && c.battkW == fleet[i].battkW && c.battSize == fleet[i].battSize && c.totalCost == fleet[i].totalCost
              && c.totalDistance == fleet[i].totalDistance && c.inDepot == fleet[i].inDepot
              && c.latestEndShift == fleet[i].latestEndShift
    ensures SumCost(TickStart(mode, fleet, rc, chunks)) == SumCost(fleet)
  {
    var start := TickStart(mode, fleet, rc, chunks);
    assert forall i :: 0 <= i < |fleet| ==> start[i].totalCost == fleet[i].totalCost;
    SumCostMonotone(start, fleet);
    SumCostMonotone(fleet, start);
  }

  /**
   * One tick touches only the cars outside the depot, and gives each exactly its own step on
   * the table as the tick began (after the check, in `Driving`).
   */
  lemma TickRowsPointwise(mode: Mode, fleet: seq<Car>, time: int, driveData: seq<seq<DriveRow>>, breaks: BreakWindow,
                          rc: RcData, ind: nat, chunks: Chunks, r: TickResult)
    requires ValidDriveData(driveData, |fleet|)
    requires r == OutsideDepotTick(mode, fleet, time, driveData, breaks, rc, ind, chunks)
    ensures |r.fleet| == |fleet|
    ensures forall i :: 0 <= i < |fleet| && fleet[i].inDepot ==> r.fleet[i] == fleet[i]
    ensures forall i :: 0 <= i < |fleet| && !fleet[i].inDepot ==>
              r.fleet[i] == StepOf(mode, TickStart(mode, fleet, rc, chunks), i, time, driveData, ind,
                                   BreakTime(time, breaks), rc, chunks).car
  {
    var start := TickStart(mode, fleet, rc, chunks);
    var idxs := OutsideCars(fleet);
    OutsideCarsComplete(fleet);
    TickStartKeepsTotals(mode, fleet, rc, chunks);
    RunCarsPointwise(mode, start, idxs, |idxs|, time, driveData, ind, BreakTime(time, breaks), rc, chunks, SumCost(start), r);
    forall i | 0 <= i < |fleet| && fleet[i].inDepot
      ensures r.fleet[i] == fleet[i]
    {
      assert i !in idxs;
      RunCarsUntouched(mode, start, idxs, |idxs|, time, driveData, ind, BreakTime(time, breaks), rc, chunks, SumCost(start), i);
      assert start[i] == fleet[i];
    }
    forall i | 0 <= i < |fleet| && !fleet[i].inDepot
      ensures r.fleet[i] == StepOf(mode, start, i, time, driveData, ind, BreakTime(time, breaks), rc, chunks).car
    {
      assert i in idxs;
      var k :| 0 <= k < |idxs| && idxs[k] == i;
    }
  }

  /**
   * One tick writes one record per car outside the depot, in table order, each reporting that
   * car's step and the battery the car started the tick with.
   */
  lemma TickRecordsPointwise(mode: Mode, fleet: seq<Car>, time: int, driveData: seq<seq<DriveRow>>, breaks: BreakWindow,
                             rc: RcData, ind: nat, chunks: Chunks, r: TickResult)
    requires ValidDriveData(driveData, |fleet|)
    requires r == OutsideDepotTick(mode, fleet, time, driveData, breaks, rc, ind, chunks)
    ensures |r.records| == |OutsideCars(fleet)|
    ensures forall k :: 0 <= k < |r.records| ==>
              OutsideCars(fleet)[k] < |fleet| &&
              RecordsStep(r.records[k], time, OutsideCars(fleet)[k], fleet[OutsideCars(fleet)[k]].battkW,
                          StepOf(mode, TickStart(mode, fleet, rc, chunks), OutsideCars(fleet)[k], time, driveData, ind,
                                 BreakTime(time, breaks), rc, chunks))
  {
    var start := TickStart(mode, fleet, rc, chunks);
    var idxs := OutsideCars(fleet);
    OutsideCarsComplete(fleet);
    TickStartKeepsTotals(mode, fleet, rc, chunks);
    RunCarsPointwise(mode, start, idxs, |idxs|, time, driveData, ind, BreakTime(time, breaks), rc, chunks, SumCost(start), r);
  }

  /**
   * The trace of one tick: one record per car outside the depot, each stamped with the tick's
   * time, in increasing car order, and no car outside the depot is skipped.
   */
  lemma TickTraceOnePerOutsideCar(mode: Mode, fleet: seq<Car>, time: int, driveData: seq<seq<DriveRow>>,
                                  breaks: BreakWindow, rc: RcData, ind: nat, chunks: Chunks, r: TickResult)
    requires ValidDriveData(driveData, |fleet|)
    requires r == OutsideDepotTick(mode, fleet, time, driveData, breaks, rc, ind, chunks)
    ensures forall k :: 0 <= k < |r.records| ==>
              r.records[k].time == time && r.records[k].car < |fleet| && !fleet[r.records[k].car].inDepot
              && r.records[k].batt == fleet[r.records[k].car].battkW
    ensures forall a, b :: 0 <= a < b < |r.records| ==> r.records[a].car < r.records[b].car
    ensures forall i :: 0 <= i < |fleet| && !fleet[i].inDepot ==>
              exists k :: 0 <= k < |r.records| && r.records[k].car == i
  {
    TickRecordsPointwise(mode, fleet, time, driveData, breaks, rc, ind, chunks, r);
    var idxs := OutsideCars(fleet);
    OutsideCarsComplete(fleet);
    assert forall k :: 0 <= k < |r.records| ==> r.records[k].car == idxs[k];
    forall a, b | 0 <= a < b < |r.records|
      ensures r.records[a].car < r.records[b].car
    {
    }
    forall i | 0 <= i < |fleet| && !fleet[i].inDepot
      ensures exists k :: 0 <= k < |r.records| && r.records[k].car == i
    {
      assert i in idxs;
      var k :| 0 <= k < |idxs| && idxs[k] == i;
      assert r.records[k].car == i;
    }
  }

  /**
   * In `Driving` a car outside the depot rapid charges exactly when the check leaves it charging:
   * part-way through a commitment or below the trigger; its counters are the check's; a car
   * that does not rapid charge waits exactly when it is on break or its profile has no miles.
   */
  lemma DrivingTickEvents(fleet: seq<Car>, time: int, driveData: seq<seq<DriveRow>>, breaks: BreakWindow,
                          rc: RcData, ind: nat, chunks: Chunks, r: TickResult)
    requires ValidDriveData(driveData, |fleet|)
    requires r == OutsideDepotTick(Standard, fleet, time, driveData, breaks, rc, ind, chunks)
    ensures forall k :: 0 <= k < |r.records| ==>
              var i := r.records[k].car;
              var commitTicks := RcCommitTicks(rc.rcDuration, chunks);
              && i < |fleet|
              && (r.records[k].event == RC <==> InCommitment(fleet[i], commitTicks) || BelowThreshold(fleet[i], rc.rcPerc))
              && r.fleet[i].rcChunks == RcCheck(fleet[i], commitTicks, rc.rcPerc).rcChunks
              && r.fleet[i].rcCount == RcCheck(fleet[i], commitTicks, rc.rcPerc).rcCount
              && (r.records[k].event != RC ==>
                    r.records[k].costPerCharge == 0.0 &&
                    (r.records[k].event == Wait <==>
                       BreakTime(time, breaks) || DriveRowFor(driveData, i, ind, |fleet|).mileage == 0.0))
  {
    TickRowsPointwise(Standard, fleet, time, driveData, breaks, rc, ind, chunks, r);
    TickRecordsPointwise(Standard, fleet, time, driveData, breaks, rc, ind, chunks, r);
    var start := TickStart(Standard, fleet, rc, chunks);
    var idxs := OutsideCars(fleet);
    var commitTicks := RcCommitTicks(rc.rcDuration, chunks);
    forall k | 0 <= k < |r.records|
      ensures var i := r.records[k].car;
              && i < |fleet|
              && (r.records[k].event == RC <==> InCommitment(fleet[i], commitTicks) || BelowThreshold(fleet[i], rc.rcPerc))
              && r.fleet[i].rcChunks == RcCheck(fleet[i], commitTicks, rc.rcPerc).rcChunks
              && r.fleet[i].rcCount == RcCheck(fleet[i], commitTicks, rc.rcPerc).rcCount
              && (r.records[k].event != RC ==>
                    r.records[k].costPerCharge == 0.0 &&
                    (r.records[k].event == Wait <==>
                       BreakTime(time, breaks) || DriveRowFor(driveData, i, ind, |fleet|).mileage == 0.0))
    {
      var i := idxs[k];
      assert i in idxs;
      assert start[i] == RcCheck(fleet[i], commitTicks, rc.rcPerc);
      var row := DriveRowFor(driveData, i, ind, |fleet|);
      var s := DrivingStep(start[i], row, BreakTime(time, breaks), rc, chunks);
      assert StepOf(Standard, start, i, time, driveData, ind, BreakTime(time, breaks), rc, chunks) == s;
    }
  }

  /**
   * In `RcSmartDriving` a car outside the depot rapid charges exactly when it is short of the
   * shift's remaining need (and the need fits its battery) and it is either already charging
   * or below the trigger; a new episode is counted only when it was not already charging.
   */
  lemma SmartTickEvents(fleet: seq<Car>, time: int, driveData: seq<seq<DriveRow>>, breaks: BreakWindow,
                        rc: RcData, ind: nat, chunks: Chunks, r: TickResult)
    requires ValidDriveData(driveData, |fleet|)
    requires r == OutsideDepotTick(RcSmart, fleet, time, driveData, breaks, rc, ind, chunks)
    ensures forall k :: 0 <= k < |r.records| ==>
              var i := r.records[k].car;
              && i < |fleet|
              && (r.records[k].event == RC <==>
                    NeedsTopUp(fleet[i], time) && (fleet[i].rcChunks > 0 || BelowThreshold(fleet[i], rc.rcPerc)))
              && r.fleet[i].rcChunks == (if r.records[k].event == RC then fleet[i].rcChunks + 1 else 0)
              && r.fleet[i].rcCount == (if r.records[k].event == RC && fleet[i].rcChunks == 0 then fleet[i].rcCount + 1
                                        else fleet[i].rcCount)
              && (r.records[k].event != RC ==>
                    r.records[k].costPerCharge == 0.0 &&
                    (r.records[k].event == Wait <==>
                       BreakTime(time, breaks) || DriveRowFor(driveData, i, ind, |fleet|).mileage == 0.0))
  {
    TickRowsPointwise(RcSmart, fleet, time, driveData, breaks, rc, ind, chunks, r);
    TickRecordsPointwise(RcSmart, fleet, time, driveData, breaks, rc, ind, chunks, r);
    var idxs := OutsideCars(fleet);
    forall k | 0 <= k < |r.records|
      ensures var i := r.records[k].car;
              && i < |fleet|
              && (r.records[k].event == RC <==>
                    NeedsTopUp(fleet[i], time) && (fleet[i].rcChunks > 0 || BelowThreshold(fleet[i], rc.rcPerc)))
              && r.fleet[i].rcChunks == (if r.records[k].event == RC then fleet[i].rcChunks + 1 else 0)
              && r.fleet[i].rcCount == (if r.records[k].event == RC && fleet[i].rcChunks == 0 then fleet[i].rcCount + 1
                                        else fleet[i].rcCount)
              && (r.records[k].event != RC ==>
                    r.records[k].costPerCharge == 0.0 &&
                    (r.records[k].event == Wait <==>
                       BreakTime(time, breaks) || DriveRowFor(driveData, i, ind, |fleet|).mileage == 0.0))
    {
      var i := idxs[k];
      assert i in idxs;
      var row := DriveRowFor(driveData, i, ind, |fleet|);
      var s := SmartStep(fleet[i], time, row, BreakTime(time, breaks), rc, chunks);
      assert StepOf(RcSmart, fleet, i, time, driveData, ind, BreakTime(time, breaks), rc, chunks) == s;
    }
  }

  /**
   * During a non-charging break every car outside the depot that is not rapid charging waits:
   * its battery and mileage do not move and its record shows no change.
   */
  lemma BreakMeansWait(mode: Mode, fleet: seq<Car>, time: int, driveData: seq<seq<DriveRow>>, breaks: BreakWindow,
                       rc: RcData, ind: nat, chunks: Chunks, r: TickResult)
    requires ValidDriveData(driveData, |fleet|)
    requires r == OutsideDepotTick(mode, fleet, time, driveData, breaks, rc, ind, chunks)
    requires BreakTime(time, breaks)
    ensures forall k :: 0 <= k < |r.records| && r.records[k].event != RC ==>
              && r.records[k].event == Wait && r.records[k].chargeDiff == 0.0 && r.records[k].costPerCharge == 0.0
              && r.records[k].car < |fleet|
              && r.fleet[r.records[k].car].battkW == fleet[r.records[k].car].battkW
              && r.fleet[r.records[k].car].totalDistance == fleet[r.records[k].car].totalDistance
              && r.fleet[r.records[k].car].rcChunks == 0
  {
    TickRowsPointwise(mode, fleet, time, driveData, breaks, rc, ind, chunks, r);
    TickRecordsPointwise(mode, fleet, time, driveData, breaks, rc, ind, chunks, r);
    TickStartKeepsTotals(mode, fleet, rc, chunks);
    var idxs := OutsideCars(fleet);
    forall k | 0 <= k < |r.records| && r.records[k].event != RC
      ensures && r.records[k].event == Wait && r.records[k].chargeDiff == 0.0 && r.records[k].costPerCharge == 0.0
              && r.records[k].car < |fleet|
              && r.fleet[r.records[k].car].battkW == fleet[r.records[k].car].battkW
              && r.fleet[r.records[k].car].totalDistance == fleet[r.records[k].car].totalDistance
              && r.fleet[r.records[k].car].rcChunks == 0
    {
      assert idxs[k] in idxs;
    }
  }

  /**
   * The running total after each record is the fleet total before the tick plus the costs
   * recorded so far, and after the last record it is the fleet total after the tick.
   */
  lemma TickCostAccounting(mode: Mode, fleet: seq<Car>, time: int, driveData: seq<seq<DriveRow>>, breaks: BreakWindow,
                           rc: RcData, ind: nat, chunks: Chunks, r: TickResult)
    requires ValidDriveData(driveData, |fleet|)
    requires r == OutsideDepotTick(mode, fleet, time, driveData, breaks, rc, ind, chunks)
    ensures r.totalCost == SumCost(r.fleet)
    ensures SumCost(r.fleet) == SumCost(fleet) + Charges(r.records, |r.records|)
    ensures forall k :: 0 <= k < |r.records| ==> r.records[k].totalCost == SumCost(fleet) + Charges(r.records, k + 1)
  {
    var start := TickStart(mode, fleet, rc, chunks);
    TickStartKeepsTotals(mode, fleet, rc, chunks);
    RunCarsRunningTotal(mode, start, OutsideCars(fleet), |OutsideCars(fleet)|, time, driveData, ind, BreakTime(time, breaks), rc, chunks,
                        SumCost(start), r);
    RunCarsRecordTotals(mode, start, OutsideCars(fleet), |OutsideCars(fleet)|, time, driveData, ind, BreakTime(time, breaks), rc, chunks,
                        SumCost(start), r);
  }

  /** With non-negative costs, a longer prefix of the records never sums to less. */
  lemma {:induction false} ChargesMonotone(records: seq<TraceRecord>, a: nat, b: nat)
    requires a <= b <= |records|
    requires forall k :: 0 <= k < |records| ==> records[k].costPerCharge >= 0.0
    ensures Charges(records, a) <= Charges(records, b)
    decreases b
  {
    if a < b {
      ChargesMonotone(records, a, b - 1);
    }
  }

  /**
   * With non-negative prices and rates and no battery above capacity, a tick never lowers a
   * car's cost or the fleet total.
   */
  lemma TickCostMonotone(mode: Mode, fleet: seq<Car>, time: int, driveData: seq<seq<DriveRow>>, breaks: BreakWindow,
                         rc: RcData, ind: nat, chunks: Chunks, r: TickResult)
    requires ValidDriveData(driveData, |fleet|)
    requires r == OutsideDepotTick(mode, fleet, time, driveData, breaks, rc, ind, chunks)
    requires rc.rcPrice >= 0.0 && rc.rcRate >= 0.0
    requires forall i :: 0 <= i < |fleet| ==> fleet[i].battkW <= fleet[i].battSize
    ensures forall i :: 0 <= i < |fleet| ==> fleet[i].totalCost <= r.fleet[i].totalCost
    ensures SumCost(fleet) <= SumCost(r.fleet)
  {
    TickRowsPointwise(mode, fleet, time, driveData, breaks, rc, ind, chunks, r);
    TickStartKeepsTotals(mode, fleet, rc, chunks);
    SumCostMonotone(fleet, r.fleet);
  }

  /** Under the same conditions, no record reports a negative cost. */
  lemma TickChargesNonNegative(mode: Mode, fleet: seq<Car>, time: int, driveData: seq<seq<DriveRow>>, breaks: BreakWindow,
                               rc: RcData, ind: nat, chunks: Chunks, r: TickResult)
    requires ValidDriveData(driveData, |fleet|)
    requires r == OutsideDepotTick(mode, fleet, time, driveData, breaks, rc, ind, chunks)
    requires rc.rcPrice >= 0.0 && rc.rcRate >= 0.0
    requires forall i :: 0 <= i < |fleet| ==> fleet[i].battkW <= fleet[i].battSize
    ensures forall k :: 0 <= k < |r.records| ==> r.records[k].costPerCharge >= 0.0
  {
    TickRecordsPointwise(mode, fleet, time, driveData, breaks, rc, ind, chunks, r);
    TickStartKeepsTotals(mode, fleet, rc, chunks);
  }

  /** Totals that are prefix sums of non-negative costs start at the base and never fall. */
  lemma PrefixTotalsNeverFall(records: seq<TraceRecord>, base: real)
    requires forall k :: 0 <= k < |records| ==> records[k].costPerCharge >= 0.0
    requires forall k :: 0 <= k < |records| ==> records[k].totalCost == base + Charges(records, k + 1)
    ensures forall k :: 0 <= k < |records| ==> base <= records[k].totalCost
    ensures forall a, b :: 0 <= a < b < |records| ==> records[a].totalCost <= records[b].totalCost
  {
    forall k | 0 <= k < |records|
      ensures base <= records[k].totalCost
    {
      ChargesMonotone(records, 0, k + 1);
    }
    forall a, b | 0 <= a < b < |records|
      ensures records[a].totalCost <= records[b].totalCost
    {
      ChargesMonotone(records, a + 1, b + 1);
    }
  }

  /**
   * Under the same conditions, the running total the trace reports never falls: it starts
   * at or above the fleet total before the tick and each record's total is at least the
   * previous one's.
   */
  lemma TickRunningTotalNeverFalls(mode: Mode, fleet: seq<Car>, time: int, driveData: seq<seq<DriveRow>>,
                                   breaks: BreakWindow, rc: RcData, ind: nat, chunks: Chunks, r: TickResult)
    requires ValidDriveData(driveData, |fleet|)
    requires r == OutsideDepotTick(mode, fleet, time, driveData, breaks, rc, ind, chunks)
    requires rc.rcPrice >= 0.0 && rc.rcRate >= 0.0
    requires forall i :: 0 <= i < |fleet| ==> fleet[i].battkW <= fleet[i].battSize
    ensures forall k :: 0 <= k < |r.records| ==> SumCost(fleet) <= r.records[k].totalCost
    ensures forall a, b :: 0 <= a < b < |r.records| ==> r.records[a].totalCost <= r.records[b].totalCost
  {
    TickChargesNonNegative(mode, fleet, time, driveData, breaks, rc, ind, chunks, r);
    TickCostAccounting(mode, fleet, time, driveData, breaks, rc, ind, chunks, r);
    PrefixTotalsNeverFall(r.records, SumCost(fleet));
  }

  /**
   * With sane drive profiles, a tick keeps every battery within capacity: rapid charging is
   * clamped at capacity and driving only drains.
   */
  lemma TickBatteryCap(mode: Mode, fleet: seq<Car>, time: int, driveData: seq<seq<DriveRow>>, breaks: BreakWindow,
                       rc: RcData, ind: nat, chunks: Chunks, r: TickResult)
    requires ValidDriveData(driveData, |fleet|)
    requires SaneProfiles(driveData)
    requires r == OutsideDepotTick(mode, fleet, time, driveData, breaks, rc, ind, chunks)
    requires forall i :: 0 <= i < |fleet| ==> fleet[i].battkW <= fleet[i].battSize
    ensures forall i :: 0 <= i < |r.fleet| ==> r.fleet[i].battkW <= r.fleet[i].battSize
  {
    TickRowsPointwise(mode, fleet, time, driveData, breaks, rc, ind, chunks, r);
    TickStartKeepsTotals(mode, fleet, rc, chunks);
    var start := TickStart(mode, fleet, rc, chunks);
    forall i | 0 <= i < |r.fleet|
      ensures r.fleet[i].battkW <= r.fleet[i].battSize
    {
      if !fleet[i].inDepot {
        SaneRow(driveData, i, ind, |fleet|);
        assert start[i].battkW <= start[i].battSize;
      }
    }
  }

  /** A tick never lowers a car's rapid-charge count and raises it by at most one. */
  lemma TickRcCountNeverFalls(mode: Mode, fleet: seq<Car>, time: int, driveData: seq<seq<DriveRow>>, breaks: BreakWindow,
                              rc: RcData, ind: nat, chunks: Chunks, r: TickResult)
    requires ValidDriveData(driveData, |fleet|)
    requires r == OutsideDepotTick(mode, fleet, time, driveData, breaks, rc, ind, chunks)
    ensures forall i :: 0 <= i < |fleet| ==> fleet[i].rcCount <= r.fleet[i].rcCount <= fleet[i].rcCount + 1
  {
    TickRowsPointwise(mode, fleet, time, driveData, breaks, rc, ind, chunks, r);
    var start := TickStart(mode, fleet, rc, chunks);
    var idxs := OutsideCars(fleet);
    OutsideCarsComplete(fleet);
    forall i | 0 <= i < |fleet|
      ensures fleet[i].rcCount <= r.fleet[i].rcCount <= fleet[i].rcCount + 1
    {
      if !fleet[i].inDepot {
        var s := StepOf(mode, start, i, time, driveData, ind, BreakTime(time, breaks), rc, chunks);
        var row := DriveRowFor(driveData, i, ind, |fleet|);
        if mode == Standard {
          assert start[i] == RcCheck(fleet[i], RcCommitTicks(rc.rcDuration, chunks), rc.rcPerc);
          assert s == DrivingStep(start[i], row, BreakTime(time, breaks), rc, chunks);
        } else {
          assert s == SmartStep(start[i], time, row, BreakTime(time, breaks), rc, chunks);
        }
      }
    }
  }

  /**
   * The trigger is strict: a 40 kWh car at exactly 20% does not rapid charge in `Driving`;
   * just below it, it rapid charges a quarter-hour at 50 kW, to 20.4 kWh.
   */
  lemma ThresholdIsStrict()
    ensures var rc := RcData(0.25, 0.5, 20.0, 50.0);
            var at := RcCheck(Car(8.0, 40.0, 0, 0, 0.0, 0.0, false, 0), RcCommitTicks(rc.rcDuration, 4), rc.rcPerc);
            var below := RcCheck(Car(7.9, 40.0, 0, 0, 0.0, 0.0, false, 0), RcCommitTicks(rc.rcDuration, 4), rc.rcPerc);
            && DrivingStep(at, DriveRow(6.0, 4.0), false, rc, 4).event == Drive
            && DrivingStep(below, DriveRow(6.0, 4.0), false, rc, 4).event == RC
            && DrivingStep(below, DriveRow(6.0, 4.0), false, rc, 4).car.battkW == 20.4
  {
  }

  /** Driving 6 miles an hour at 4 miles per kWh drains a quarter-hour tick by 0.375 kWh. */
  lemma DrainPerTick()
    ensures DrivingStep(Car(35.0, 40.0, 0, 0, 0.0, 0.0, false, 0), DriveRow(6.0, 4.0), false,
                        RcData(0.25, 0.5, 20.0, 50.0), 4).car.battkW == 34.625
  {
  }
}
