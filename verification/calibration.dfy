/**
 * Accelerometer calibration of the older calibration program: the device is
 * read until every axis is close to 0 g or to ±1 g, so the knob is aligned
 * with gravity. The deviation of an axis is its distance, in LSB, from the
 * nearer of those two readings.
 */
module Calibration {
  import opened Words
  import Registers

  /**
   * `maxAcc`, the reading of 1 g: the sensitivity for ±2/4/8/16 g. The switch
   * has no default case, so any other range leaves it at Go's zero value.
   */
  function MaxAcc(fs: int): (m: nat)
    ensures fs in {2, 4, 8, 16} ==> m == Registers.AccelSensitivity(fs) && m * fs == 32768
    ensures !(fs in {2, 4, 8, 16}) ==> m == 0
  {
    if fs == 2 then 16384
    else if fs == 4 then 8192
    else if fs == 8 then 4096
    else if fs == 16 then 2048
    else 0
  }

  function Abs(a: int): nat
  {
    if a < 0 then -a else a
  }

  /**
   * One axis of the loop body: a reading whose magnitude does not exceed
   * maxAcc sets the deviation to |a| below maxAcc / 2 and to maxAcc - |a|
   * from there on; a larger reading keeps the previous deviation.
   */
  function Deviation(a: int, maxAcc: nat, prev: int): (d: int)
    ensures Abs(a) > maxAcc ==> d == prev
    ensures Abs(a) <= maxAcc ==> 0 <= d <= maxAcc - maxAcc / 2
    ensures Abs(a) <= maxAcc && maxAcc % 2 == 0 ==> d == Misalignment(a, maxAcc)
  {
    if Abs(a) <= maxAcc then
      if Abs(a) < maxAcc / 2 then Abs(a) else maxAcc - Abs(a)
    else prev
  }

  /** Distance of a reading from the nearer of 0 g and ±1 g (maxAcc), in LSB. */
  function Misalignment(a: int, maxAcc: nat): nat
  {
    var toZero := Abs(a);
    var toOne := Abs(maxAcc - Abs(a));
    if toZero <= toOne then toZero else toOne
  }

  /** The three deviations `devAx`, `devAy`, `devAz`. */
  datatype Devs = Devs(x: int, y: int, z: int)

  /** The loop condition: some axis is not yet within maxOfDev. */
  predicate Calibrating(d: Devs, maxOfDev: int)
  {
    d.x >= maxOfDev || d.y >= maxOfDev || d.z >= maxOfDev
  }

  /** One iteration on the accelerometer part of a `GetAccGyroData` result. */
  function CalibStep(d: Devs, r: Six, maxAcc: nat): (d': Devs)
    ensures Abs(r.ax) <= maxAcc ==> 0 <= d'.x <= maxAcc - maxAcc / 2
    ensures Abs(r.ay) <= maxAcc ==> 0 <= d'.y <= maxAcc - maxAcc / 2
    ensures Abs(r.az) <= maxAcc ==> 0 <= d'.z <= maxAcc - maxAcc / 2
  {
    Devs(Deviation(r.ax, maxAcc, d.x), Deviation(r.ay, maxAcc, d.y), Deviation(r.az, maxAcc, d.z))
  }

  /** The deviations after the given readings, all starting at maxOfDev. */
  function DevsAfter(rs: seq<Six>, maxAcc: nat, maxOfDev: int): Devs
    decreases |rs|
  {
    if rs == [] then Devs(maxOfDev, maxOfDev, maxOfDev)
    else CalibStep(DevsAfter(rs[..|rs| - 1], maxAcc, maxOfDev), rs[|rs| - 1], maxAcc)
  }

  /**
   * The calibration loop over the readings the device delivers, for as long
   * as they last: it reads at least once, stops right after the first reading
   * that brings all three deviations below maxOfDev, and otherwise consumes
   * every reading.
   */
  method Calibrate(rs: seq<Six>, maxAcc: nat, maxOfDev: int) returns (used: nat, finished: bool, d: Devs)
    ensures used <= |rs|
    ensures rs != [] ==> used >= 1
    ensures d == DevsAfter(rs[..used], maxAcc, maxOfDev)
    ensures finished <==> !Calibrating(d, maxOfDev)
    ensures !finished ==> used == |rs|
    ensures forall k :: 0 <= k < used ==> Calibrating(DevsAfter(rs[..k], maxAcc, maxOfDev), maxOfDev)
  {
    d := Devs(maxOfDev, maxOfDev, maxOfDev);
    used := 0;
    assert rs[..0] == [];
    while used < |rs| && Calibrating(d, maxOfDev)
      invariant used <= |rs|
      invariant d == DevsAfter(rs[..used], maxAcc, maxOfDev)
      invariant forall k :: 0 <= k < used ==> Calibrating(DevsAfter(rs[..k], maxAcc, maxOfDev), maxOfDev)
    {
      assert rs[..used + 1][..used] == rs[..used];
      d := CalibStep(d, rs[used], maxAcc);
      used := used + 1;
    }
    finished := !Calibrating(d, maxOfDev);
  }

  /**
   * A failed read yields all-zero outputs, which count as perfectly aligned:
   * with a known range and a positive tolerance, calibration finishes on it.
   */
  lemma FailedReadEndsCalibration(d: Devs, read: BusRead, fs: int, maxOfDev: int)
    requires fs in {2, 4, 8, 16} && maxOfDev > 0
    ensures var r := GetAccGyroData(false, read).0;
            CalibStep(d, r, MaxAcc(fs)) == Devs(0, 0, 0)
            && !Calibrating(CalibStep(d, r, MaxAcc(fs)), maxOfDev)
  {
  }

  /**
   * A reading of exactly 0 g or ±1 g on an axis gives that axis deviation 0,
   * and the deviation is symmetric in the sign of the reading.
   */
  lemma DeviationAligned(a: int, maxAcc: nat, prev: int)
    requires maxAcc >= 2
    ensures Deviation(0, maxAcc, prev) == 0
    ensures Deviation(maxAcc, maxAcc, prev) == 0 && Deviation(-(maxAcc as int), maxAcc, prev) == 0
    ensures Deviation(-a, maxAcc, prev) == Deviation(a, maxAcc, prev)
  {
  }
}
