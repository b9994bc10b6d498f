/** Battery physics for one tick outside the depot: driving drains, rapid charging refills. */
module Battery {
  import opened Fleet

  function Min(a: real, b: real): (r: real)
    ensures r <= a && r <= b && (r == a || r == b)
  {
    if a <= b then a else b
  }

  /** What draining one car for a tick yields, as `decreaseBatt` returns it. */
  datatype DrainOutcome = DrainOutcome(car: Car, kwphr: real, chargeDiff: real, costPerCharge: real)

  /** What rapid charging one car for a tick yields; `costPerCharge` is also the tick's `rcCost`. */
  datatype ChargeOutcome = ChargeOutcome(car: Car, chargeDiff: real, costPerCharge: real)

  /** One tick of driving (or, during a non-charging break, of waiting). */
  function Drained(c: Car, row: DriveRow, nonChargingBreak: bool, chunks: Chunks): (r: DrainOutcome)
    requires row.mpkw != 0.0
    ensures r.kwphr == (if nonChargingBreak then 0.0 else row.mileage) / row.mpkw
    ensures r.car.battkW == c.battkW - r.kwphr / chunks as real
    ensures r.car.totalDistance == c.totalDistance + (if nonChargingBreak then 0.0 else row.mileage) / chunks as real
    ensures r.car == c.(battkW := r.car.battkW, totalDistance := r.car.totalDistance)
    // the reported change is the change made, and driving costs nothing
    ensures r.chargeDiff == r.car.battkW - c.battkW
    ensures r.costPerCharge == 0.0
    // during a break nothing moves
    ensures nonChargingBreak ==> r.car == c && r.kwphr == 0.0
    ensures r.kwphr == 0.0 <==> nonChargingBreak || row.mileage == 0.0
    ensures row.mileage >= 0.0 && row.mpkw > 0.0 ==>
              r.car.battkW <= c.battkW && r.car.totalDistance >= c.totalDistance
  {
    var mileage := if nonChargingBreak then 0.0 else row.mileage;
    var kwphr := mileage / row.mpkw;
    assert kwphr == 0.0 ==> mileage == kwphr * row.mpkw == 0.0;
    DrainOutcome(
      c.(battkW := c.battkW - kwphr / chunks as real,
         totalDistance := c.totalDistance + mileage / chunks as real),
      kwphr, -kwphr / chunks as real, 0.0)
  }

  /** One tick of rapid charging: a full-rate step, cut short at capacity, paid at `rcPrice`. */
  function RapidCharged(c: Car, rcRate: real, rcPrice: real, chunks: Chunks): (r: ChargeOutcome)
    ensures r.chargeDiff == Min(rcRate / chunks as real, c.battSize - c.battkW)
    ensures r.costPerCharge == rcPrice * r.chargeDiff
    ensures r.car == c.(battkW := c.battkW + r.chargeDiff, totalCost := c.totalCost + r.costPerCharge)
    // the clamp: never above capacity, and exactly full when a full-rate step would reach it
    ensures c.battkW <= c.battSize ==> r.car.battkW <= c.battSize
    ensures r.car.battkW == c.battSize <==> c.battkW + rcRate / chunks as real >= c.battSize
    ensures rcPrice >= 0.0 && rcRate >= 0.0 && c.battkW <= c.battSize ==>
              r.chargeDiff >= 0.0 && r.car.totalCost >= c.totalCost
  {
    var increase := if c.battkW + rcRate / chunks as real > c.battSize then c.battSize - c.battkW
                    else rcRate / chunks as real;
    var rcCost := rcPrice * increase;
    ChargeOutcome(c.(battkW := c.battkW + increase, totalCost := c.totalCost + rcCost), increase, rcCost)
  }

  /** A battery with no charging and a positive drain goes on falling: there is no floor at zero. */
  lemma DrainHasNoFloor()
    ensures Drained(Car(0.1, 40.0, 0, 0, 0.0, 0.0, false, 0), DriveRow(8.0, 4.0), false, 4).car.battkW == -0.4
  {
  }

  /** Drains car `car` of the table for one tick, reading its drive-profile row. */
  method DecreaseBatt(car: nat, fleet: array<Car>, driveData: seq<seq<DriveRow>>, ind: nat,
                      nonChargingBreak: bool, chunks: Chunks)
    returns (kwphr: real, chargeDiff: real, costPerCharge: real)
    requires car < fleet.Length
    requires ValidDriveData(driveData, fleet.Length)
    modifies fleet
    ensures var d := Drained(old(fleet[car]), DriveRowFor(driveData, car, ind, fleet.Length), nonChargingBreak, chunks);
            && fleet[..] == old(fleet[..])[car := d.car]
            && kwphr == d.kwphr && chargeDiff == d.chargeDiff && costPerCharge == d.costPerCharge
  {
    var batt := fleet[car].battkW;
    var row := DriveRowFor(driveData, car, ind, fleet.Length);
    var mileage := if nonChargingBreak then 0.0 else row.mileage;
    var mpkw := row.mpkw;
    kwphr := mileage / mpkw;
    chargeDiff := -kwphr / chunks as real;
    costPerCharge := 0.0;
    fleet[car] := fleet[car].(battkW := batt - kwphr / chunks as real,
                              totalDistance := fleet[car].totalDistance + mileage / chunks as real);
  }

  /** Rapid charges car `car` of the table for one tick and adds the cost to the running total. */
  method RapidCharge(car: nat, fleet: array<Car>, rcRate: real, rcPrice: real, totalCost: real, chunks: Chunks)
    returns (newTotalCost: real, chargeDiff: real, costPerCharge: real)
    requires car < fleet.Length
    modifies fleet
    ensures var q := RapidCharged(old(fleet[car]), rcRate, rcPrice, chunks);
            && fleet[..] == old(fleet[..])[car := q.car]
            && newTotalCost == totalCost + q.costPerCharge
            && chargeDiff == q.chargeDiff && costPerCharge == q.costPerCharge
  {
    var batt := fleet[car].battkW;
    var battSize := fleet[car].battSize;
    var increase;
    if batt + rcRate / chunks as real > battSize {
      increase := battSize - batt;
    } else {
      increase := rcRate / chunks as real;
    }
    var rcCost := rcPrice * increase;
    newTotalCost := totalCost + rcCost;
    fleet[car] := fleet[car].(battkW := batt + increase, totalCost := fleet[car].totalCost + rcCost);
    assert fleet[car] == RapidCharged(old(fleet[car]), rcRate, rcPrice, chunks).car;
    chargeDiff := increase;
    costPerCharge := rcCost;
  }
}
