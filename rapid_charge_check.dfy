/** The rapid-charge commitment state machine run on every car outside the depot. */
module RapidChargeCheck {
  import opened Fleet

  /** The length of a rapid-charge commitment in ticks: the ceiling of `rcDuration * chunks`. */
  function RcCommitTicks(rcDuration: real, chunks: Chunks): (r: int)
    ensures r as real - 1.0 < rcDuration * chunks as real <= r as real
  {
    var x := rcDuration * chunks as real;
    if x.Floor as real == x then x.Floor else x.Floor + 1
  }

  /** The car is part-way through a commitment of `commitTicks` ticks. */
  function InCommitment(c: Car, commitTicks: int): (r: bool)
    // a car that is not rapid charging is in no commitment, and a one-tick commitment never continues
    ensures c.rcChunks == 0 ==> !r
    ensures commitTicks <= 1 ==> !r
  {
    0 < c.rcChunks < commitTicks
  }

  /** The battery is below the rapid-charge trigger, `rcPerc` percent of capacity. */
  function BelowThreshold(c: Car, rcPerc: real): (r: bool)
    // a trigger at or below 0% never fires for a battery that is not negative
    ensures c.battSize >= 0.0 && c.battkW >= 0.0 && rcPerc <= 0.0 ==> !r
    // a trigger at 100% fires exactly when the battery is not full
    ensures rcPerc == 100.0 ==> (r <==> c.battkW < c.battSize)
  {
    c.battkW < c.battSize * (rcPerc / 100.0)
  }

  /** One car's rapid-charge counters after the check. */
  function RcCheck(c: Car, commitTicks: int, rcPerc: real): (r: Car)
    // only the two counters change
    ensures r == c.(rcChunks := r.rcChunks, rcCount := r.rcCount)
    // inside a commitment: one more tick, no new episode
    ensures InCommitment(c, commitTicks) ==> r.rcChunks == c.rcChunks + 1 && r.rcCount == c.rcCount
    // outside a commitment with a low battery: one more tick and one more episode
    ensures !InCommitment(c, commitTicks) && BelowThreshold(c, rcPerc) ==>
              r.rcChunks == c.rcChunks + 1 && r.rcCount == c.rcCount + 1
    // otherwise the car stops rapid charging
    ensures !InCommitment(c, commitTicks) && !BelowThreshold(c, rcPerc) ==>
              r.rcChunks == 0 && r.rcCount == c.rcCount
    ensures c.rcCount <= r.rcCount <= c.rcCount + 1
    ensures r.rcChunks != 0 <==> InCommitment(c, commitTicks) || BelowThreshold(c, rcPerc)
  {
    if InCommitment(c, commitTicks) then c.(rcChunks := c.rcChunks + 1)
    else if BelowThreshold(c, rcPerc) then c.(rcChunks := c.rcChunks + 1, rcCount := c.rcCount + 1)
    else c.(rcChunks := 0)
  }

  /** The table after the check has run on the cars listed in `idxs`. */
  function CheckedFleet(fleet: seq<Car>, idxs: seq<nat>, commitTicks: int, rcPerc: real): (r: seq<Car>)
    ensures |r| == |fleet|
  {
    seq(|fleet|, i requires 0 <= i < |fleet| =>
      if i in idxs then RcCheck(fleet[i], commitTicks, rcPerc) else fleet[i])
  }

  /**
   * The check leaves every unlisted car as it was, changes nothing but the two counters of a
   * listed car, and raises no car's episode count by more than one.
   */
  lemma CheckedFleetFrame(fleet: seq<Car>, idxs: seq<nat>, commitTicks: int, rcPerc: real)
    ensures forall i :: 0 <= i < |fleet| && i !in idxs ==> CheckedFleet(fleet, idxs, commitTicks, rcPerc)[i] == fleet[i]
    ensures forall i :: 0 <= i < |fleet| ==>
              var c := CheckedFleet(fleet, idxs, commitTicks, rcPerc)[i];
              && c == fleet[i].(rcChunks := c.rcChunks, rcCount := c.rcCount)
              && fleet[i].rcCount <= c.rcCount <= fleet[i].rcCount + 1
  {
  }

  /**
   * A car that has finished its commitment but whose battery is still low starts a new
   * episode at once: a contiguous run of rapid-charge ticks can count more than once.
   */
  lemma RecountWhenCommitmentEnds(c: Car, commitTicks: int, rcPerc: real)
    requires c.rcChunks > 0 && c.rcChunks >= commitTicks
    requires BelowThreshold(c, rcPerc)
    ensures RcCheck(c, commitTicks, rcPerc).rcChunks == c.rcChunks + 1
    ensures RcCheck(c, commitTicks, rcPerc).rcCount == c.rcCount + 1
  {
  }

  /** Runs the check on each listed car of the table, in list order. */
  method CheckRC(fleet: array<Car>, drivingCars: seq<nat>, rcDuration: real, rcPerc: real, chunks: Chunks)
    requires DistinctIndices(drivingCars, fleet.Length)
    modifies fleet
    ensures fleet[..] == CheckedFleet(old(fleet[..]), drivingCars, RcCommitTicks(rcDuration, chunks), rcPerc)
  {
    var rcChunks := RcCommitTicks(rcDuration, chunks);
    var row := 0;
    while row < |drivingCars|
      invariant 0 <= row <= |drivingCars|
      invariant forall i :: 0 <= i < fleet.Length ==>
                  fleet[i] == if i in drivingCars[..row] then RcCheck(old(fleet[i]), rcChunks, rcPerc) else old(fleet[i])
    {
      var car := drivingCars[row];
      assert drivingCars[..row + 1] == drivingCars[..row] + [car];
      assert car !in drivingCars[..row];
      var batt := fleet[car].battkW;
      var battSize := fleet[car].battSize;
      var chunkCount := fleet[car].rcChunks;
      if 0 < chunkCount < rcChunks {
        fleet[car] := fleet[car].(rcChunks := fleet[car].rcChunks + 1);
      } else if batt < battSize * (rcPerc / 100.0) {
        fleet[car] := fleet[car].(rcChunks := fleet[car].rcChunks + 1);
        fleet[car] := fleet[car].(rcCount := fleet[car].rcCount + 1);
      } else {
        fleet[car] := fleet[car].(rcChunks := 0);
      }
      row := row + 1;
    }
    assert drivingCars[..row] == drivingCars;
  }
}
