/** The car table, the trace records and the configuration the outside-depot tick reads. */
module Fleet {

  /** Ticks per hour: the simulator's `chunks` setting, always positive. */
  type Chunks = n: int | n > 0 witness 4

  /** One row of the car table. */
  datatype Car = Car(
    battkW: real,          // battery level (kWh)
    battSize: real,        // battery capacity (kWh)
    rcChunks: nat,         // ticks spent in the current rapid charge
    rcCount: nat,          // rapid-charge episodes counted so far
    totalCost: real,       // money spent on charging so far
    totalDistance: real,   // miles driven so far
    inDepot: bool,
    latestEndShift: int)   // end of the current shift, in seconds

  /** The event label of a trace record written outside the depot. */
  datatype Event = Drive | Wait | RC

  /** One appended row of the simulation trace. */
  datatype TraceRecord = TraceRecord(
    time: int,
    car: nat,
    chargeDiff: real,      // battery change this tick
    batt: real,            // battery before this tick's change
    event: Event,
    costPerCharge: real,   // money spent this tick
    totalCost: real)       // running fleet total after this tick

  /** Rapid-charge parameters: price per kWh, commitment (hours), trigger (% of capacity), rate (kW). */
  datatype RcData = RcData(rcPrice: real, rcDuration: real, rcPerc: real, rcRate: real)

  /** One row of a drive profile: miles driven per hour and miles per kWh. */
  datatype DriveRow = DriveRow(mileage: real, mpkw: real)

  /** The result of a whole pass over the cars outside the depot. */
  datatype TickResult = TickResult(fleet: seq<Car>, records: seq<TraceRecord>, totalCost: real)

  /**
   * The drive data the tick may look up for a fleet of `fleetSize` cars: car `c` reads
   * profile `c % 4`, row `ind % n` where `n` is the length of profile 0; those rows exist
   * and have a non-zero efficiency (the battery drain divides by it).
   */
  predicate ValidDriveData(driveData: seq<seq<DriveRow>>, fleetSize: nat)
  {
    && |driveData| > 0
    && |driveData[0]| > 0
    && |driveData| >= (if fleetSize < 4 then fleetSize else 4)
    && (forall k :: 0 <= k < |driveData| && k < 4 ==> |driveData[k]| >= |driveData[0]|)
    && (forall k, j :: 0 <= k < |driveData| && k < 4 && 0 <= j < |driveData[k]| ==> driveData[k][j].mpkw != 0.0)
  }

  /** The drive-profile row car `car` uses at tick index `ind`. */
  function DriveRowFor(driveData: seq<seq<DriveRow>>, car: nat, ind: nat, fleetSize: nat): (r: DriveRow)
    requires ValidDriveData(driveData, fleetSize)
    requires car < fleetSize
    ensures r.mpkw != 0.0
  {
    driveData[car % 4][ind % |driveData[0]|]
  }

  /** Every drive profile a car may read has a non-negative mileage and a positive efficiency. */
  predicate SaneProfiles(driveData: seq<seq<DriveRow>>)
  {
    forall k, j :: 0 <= k < |driveData| && k < 4 && 0 <= j < |driveData[k]| ==>
      driveData[k][j].mileage >= 0.0 && driveData[k][j].mpkw > 0.0
  }

  /** With sane profiles, the row any car reads is sane. */
  lemma SaneRow(driveData: seq<seq<DriveRow>>, car: nat, ind: nat, fleetSize: nat)
    requires ValidDriveData(driveData, fleetSize) && car < fleetSize
    requires SaneProfiles(driveData)
    ensures DriveRowFor(driveData, car, ind, fleetSize).mileage >= 0.0
    ensures DriveRowFor(driveData, car, ind, fleetSize).mpkw > 0.0
  {
    var k := car % 4;
    var j := ind % |driveData[0]|;
    assert k < |driveData| && j < |driveData[k]|;
  }

  /** Every index is a row of the table and no index repeats. */
  predicate DistinctIndices(idxs: seq<nat>, n: nat)
  {
    && (forall k :: 0 <= k < |idxs| ==> idxs[k] < n)
    && (forall a, b :: 0 <= a < b < |idxs| ==> idxs[a] != idxs[b])
  }

  /** The indices of the cars outside the depot among the first `n` rows, in table order. */
  function OutsideAmong(fleet: seq<Car>, n: nat): (r: seq<nat>)
    requires n <= |fleet|
    ensures forall k :: 0 <= k < |r| ==> r[k] < n && !fleet[r[k]].inDepot
    decreases n
  {
    if n == 0 then []
    else if fleet[n - 1].inDepot then OutsideAmong(fleet, n - 1)
    else OutsideAmong(fleet, n - 1) + [n - 1]
  }

  /** The indices of the cars outside the depot, in table order. */
  function OutsideCars(fleet: seq<Car>): (r: seq<nat>)
    ensures forall k :: 0 <= k < |r| ==> r[k] < |fleet| && !fleet[r[k]].inDepot
  {
    OutsideAmong(fleet, |fleet|)
  }

  /** Among the first `n` rows, every car outside the depot is listed, in increasing order. */
  lemma {:induction false} OutsideAmongComplete(fleet: seq<Car>, n: nat)
    requires n <= |fleet|
    ensures forall i :: 0 <= i < n ==> (i in OutsideAmong(fleet, n) <==> !fleet[i].inDepot)
    ensures forall a, b :: 0 <= a < b < |OutsideAmong(fleet, n)| ==> OutsideAmong(fleet, n)[a] < OutsideAmong(fleet, n)[b]
    decreases n
  {
    if n > 0 {
      OutsideAmongComplete(fleet, n - 1);
    }
  }

  /** Every car outside the depot is listed, in increasing order, hence exactly once. */
  lemma OutsideCarsComplete(fleet: seq<Car>)
    ensures forall i :: 0 <= i < |fleet| ==> (i in OutsideCars(fleet) <==> !fleet[i].inDepot)
    ensures forall a, b :: 0 <= a < b < |OutsideCars(fleet)| ==> OutsideCars(fleet)[a] < OutsideCars(fleet)[b]
    ensures DistinctIndices(OutsideCars(fleet), |fleet|)
  {
    OutsideAmongComplete(fleet, |fleet|);
  }

  /** The sum of the first `n` cars' total costs. */
  function SumCostTo(fleet: seq<Car>, n: nat): (r: real)
    requires n <= |fleet|
    decreases n
  {
    if n == 0 then 0.0 else SumCostTo(fleet, n - 1) + fleet[n - 1].totalCost
  }

  /** When none of the first `n` rows has a negative cost, neither has their sum. */
  lemma {:induction false} SumCostToNonNegative(fleet: seq<Car>, n: nat)
    requires n <= |fleet|
    requires forall i :: 0 <= i < n ==> fleet[i].totalCost >= 0.0
    ensures SumCostTo(fleet, n) >= 0.0
    decreases n
  {
    if n > 0 {
      SumCostToNonNegative(fleet, n - 1);
    }
  }

  /** The sum of the cars' total costs: the fleet's spending so far. */
  function SumCost(fleet: seq<Car>): (r: real)
    ensures |fleet| == 0 ==> r == 0.0
    ensures |fleet| == 1 ==> r == fleet[0].totalCost
  {
    SumCostTo(fleet, |fleet|)
  }

  /** A fleet in which no car has a negative cost has a non-negative total. */
  lemma SumCostNonNegative(fleet: seq<Car>)
    requires forall i :: 0 <= i < |fleet| ==> fleet[i].totalCost >= 0.0
    ensures SumCost(fleet) >= 0.0
  {
    SumCostToNonNegative(fleet, |fleet|);
  }

  /** Replacing one row changes the fleet total by exactly that row's change in cost. */
  lemma {:induction false} SumCostToUpdate(fleet: seq<Car>, i: nat, c: Car, n: nat)
    requires i < |fleet| && n <= |fleet|
    ensures SumCostTo(fleet[i := c], n) == SumCostTo(fleet, n) - (if i < n then fleet[i].totalCost - c.totalCost else 0.0)
    decreases n
  {
    if n > 0 {
      SumCostToUpdate(fleet, i, c, n - 1);
    }
  }

  /** Replacing one row changes the fleet total by exactly that row's change in cost. */
  lemma SumCostUpdate(fleet: seq<Car>, i: nat, c: Car)
    requires i < |fleet|
    ensures SumCost(fleet[i := c]) == SumCost(fleet) - fleet[i].totalCost + c.totalCost
  {
    SumCostToUpdate(fleet, i, c, |fleet|);
  }

  /** If no car's total cost falls, the partial totals do not fall. */
  lemma {:induction false} SumCostToMonotone(before: seq<Car>, after: seq<Car>, n: nat)
    requires n <= |before| == |after|
    requires forall i :: 0 <= i < |before| ==> before[i].totalCost <= after[i].totalCost
    ensures SumCostTo(before, n) <= SumCostTo(after, n)
    decreases n
  {
    if n > 0 {
      SumCostToMonotone(before, after, n - 1);
    }
  }

  /** If no car's total cost falls, the fleet total does not fall. */
  lemma SumCostMonotone(before: seq<Car>, after: seq<Car>)
    requires |before| == |after|
    requires forall i :: 0 <= i < |before| ==> before[i].totalCost <= after[i].totalCost
    ensures SumCost(before) <= SumCost(after)
  {
    SumCostToMonotone(before, after, |before|);
  }
}
