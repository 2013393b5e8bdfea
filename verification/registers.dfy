/**
 * Register bit arithmetic of the MPU9250 driver code: the full-scale fields of
 * ACCEL_CONFIG and GYRO_CONFIG (bits 4:3), the FCHOICE_B bit of
 * ACCEL_CONFIG_2 and the SLEEP bit of PWR_MGMT_1, together with the
 * full-scale to sensitivity tables. Each driver reads a register, changes it
 * with a mask and writes it back; the bus accesses are left out and a
 * register read is an input byte.
 */
module Registers {

  /** Bits 4:3, the full-scale field of ACCEL_CONFIG and GYRO_CONFIG. */
  const FS_FIELD: bv8 := 0x18

  const ACCEL_FS_2G: bv8 := 0x00
  const ACCEL_FS_4G: bv8 := 0x08
  const ACCEL_FS_8G: bv8 := 0x10
  const ACCEL_FS_16G: bv8 := 0x18

  /** Bit 3 of ACCEL_CONFIG_2: bypass of the accelerometer low-pass filter. */
  const ACCEL_FCHOICE_B: bv8 := 0x08

  const GYRO_FS_250: bv8 := 0x00
  const GYRO_FS_500: bv8 := 0x08
  const GYRO_FS_1000: bv8 := 0x10
  const GYRO_FS_2000: bv8 := 0x18

  /** Bit 6 of PWR_MGMT_1. */
  const SLEEP_BIT: bv8 := 0x40

  /** Bit 7 of PWR_MGMT_1, which resets the device's registers. */
  const DEVICE_RESET_BIT: bv8 := 0x80

  /** The accelerometer range the drivers fall back to for an unknown argument: ±2 g. */
  function NormalAccelFs(fs: int): (g: int)
    ensures g in {2, 4, 8, 16}
    ensures fs in {2, 4, 8, 16} ==> g == fs
    ensures !(fs in {2, 4, 8, 16}) ==> g == 2
  {
    if fs == 4 || fs == 8 || fs == 16 then fs else 2
  }

  /** The gyroscope range the drivers fall back to for an unknown argument: ±250 °/s. */
  function NormalGyroDps(dps: int): (d: int)
    ensures d in {250, 500, 1000, 2000}
    ensures dps in {250, 500, 1000, 2000} ==> d == dps
    ensures !(dps in {250, 500, 1000, 2000}) ==> d == 250
  {
    if dps == 500 || dps == 1000 || dps == 2000 then dps else 250
  }

  /** The accelerometer range, in g, that the bits 4:3 of a register value select. */
  function AccelFsOf(b: bv8): int
  {
    var f := b & FS_FIELD;
    if f == ACCEL_FS_2G then 2
    else if f == ACCEL_FS_4G then 4
    else if f == ACCEL_FS_8G then 8
    else 16
  }

  /** The gyroscope range, in °/s, that the bits 4:3 of a register value select. */
  function GyroDpsOf(b: bv8): int
  {
    var f := b & FS_FIELD;
    if f == GYRO_FS_250 then 250
    else if f == GYRO_FS_500 then 500
    else if f == GYRO_FS_1000 then 1000
    else 2000
  }

  /** The switch of the accelerometer half of `Config`: the field value for a range in g. */
  function AccelFsParam(fs: int): (p: bv8)
    ensures p & FS_FIELD == p
    ensures AccelFsOf(p) == NormalAccelFs(fs)
  {
    if fs == 2 then ACCEL_FS_2G
    else if fs == 4 then ACCEL_FS_4G
    else if fs == 8 then ACCEL_FS_8G
    else if fs == 16 then ACCEL_FS_16G
    else ACCEL_FS_2G
  }

  /** The switch of the gyroscope half of `Config` in the current driver: the field value for a range in °/s. */
  function GyroFsParam(dps: int): (p: bv8)
    ensures p & FS_FIELD == p
    ensures GyroDpsOf(p) == NormalGyroDps(dps)
  {
    if dps == 250 then GYRO_FS_250
    else if dps == 500 then GYRO_FS_500
    else if dps == 1000 then GYRO_FS_1000
    else if dps == 2000 then GYRO_FS_2000
    else GYRO_FS_250
  }

  /** Every field value is the parameter of exactly the range it selects. */
  lemma FsParamRoundTrip(b: bv8)
    ensures AccelFsParam(AccelFsOf(b)) == b & FS_FIELD
    ensures GyroFsParam(GyroDpsOf(b)) == b & FS_FIELD
  {
  }

  /**
   * ACCEL_CONFIG as `Config` writes it: `(v | 0x18) & p`. The value read is
   * overwritten entirely: the written byte is the field value alone, so the
   * self-test bits 7:5 and bits 2:0 end up cleared.
   */
  function AccelConfig(v: bv8, fs: int): (r: bv8)
    ensures r == AccelFsParam(fs)
    ensures r & !FS_FIELD == 0
    ensures AccelFsOf(r) == NormalAccelFs(fs)
    ensures !(fs in {2, 4, 8, 16}) ==> r == ACCEL_FS_2G
  {
    (v | FS_FIELD) & AccelFsParam(fs)
  }

  /** GYRO_CONFIG as the current `Config` writes it: `(v | 0x18) & p`, switching on the range in °/s. */
  function GyroConfig(v: bv8, dps: int): (r: bv8)
    ensures r == GyroFsParam(dps)
    ensures r & !FS_FIELD == 0
    ensures GyroDpsOf(r) == NormalGyroDps(dps)
    ensures !(dps in {250, 500, 1000, 2000}) ==> r == GYRO_FS_250
  {
    (v | FS_FIELD) & GyroFsParam(dps)
  }

  /**
   * The gyroscope switch of the older calibration program: it compares the
   * range in °/s against the accelerometer's cases 2, 4, 8 and 16.
   */
  function CalibGyroFsParam(dps: int): (p: bv8)
  {
    if dps == 2 then GYRO_FS_250
    else if dps == 4 then GYRO_FS_500
    else if dps == 8 then GYRO_FS_1000
    else if dps == 16 then GYRO_FS_2000
    else GYRO_FS_250
  }

  /** GYRO_CONFIG as the older calibration program writes it. */
  function CalibGyroConfig(v: bv8, dps: int): (r: bv8)
    ensures r == CalibGyroFsParam(dps)
    ensures !(dps in {2, 4, 8, 16}) ==> r == GYRO_FS_250
  {
    (v | FS_FIELD) & CalibGyroFsParam(dps)
  }

  /**
   * Every range in °/s the program accepts selects ±250 °/s in the older
   * calibration program, while the current driver selects the range asked for.
   */
  lemma CalibGyroIgnoresDps(v: bv8, dps: int)
    requires dps in {250, 500, 1000, 2000}
    ensures GyroDpsOf(CalibGyroConfig(v, dps)) == 250
    ensures GyroDpsOf(GyroConfig(v, dps)) == dps
    ensures dps != 250 ==> CalibGyroConfig(v, dps) != GyroConfig(v, dps)
  {
  }

  /** The parameter complement the older experimental driver masks with: `^p`. */
  function ClobberingAccelMask(fs: int): (mask: bv8)
  {
    !AccelFsParam(fs)
  }

  /**
   * ACCEL_CONFIG as the older experimental driver writes it:
   * `v |= ^0x18; v &= ^p`. Every bit outside 4:3 becomes 1; bits 4:3 keep
   * what was read, minus the bits of the parameter.
   */
  function ClobberingAccelConfig(v: bv8, fs: int): (r: bv8)
    ensures r & !FS_FIELD == !FS_FIELD
    ensures r & FS_FIELD == v & FS_FIELD & !AccelFsParam(fs)
  {
    (v | !FS_FIELD) & ClobberingAccelMask(fs)
  }

  /**
   * The older driver never selects the range asked for from a cleared
   * register: from 0x00 every argument selects ±2 g, and asking for ±16 g
   * clears the field whatever was read. The written byte also sets the
   * self-test bits 7:5.
   */
  lemma ClobberingAccelConfigIgnoresRange(v: bv8, fs: int)
    ensures ClobberingAccelConfig(0x00, 2) == 0xE7
    ensures ClobberingAccelConfig(0x18, 2) == 0xFF
    ensures AccelFsOf(ClobberingAccelConfig(0x18, 2)) == 16
    ensures ClobberingAccelConfig(0x00, 16) == 0xE7
    ensures AccelFsOf(ClobberingAccelConfig(0x00, fs)) == 2
    ensures AccelFsOf(ClobberingAccelConfig(v, 16)) == 2
    ensures ClobberingAccelConfig(v, fs) & 0xE0 == 0xE0
    ensures AccelFsOf(AccelConfig(v, 16)) == 16
  {
  }

  /** ACCEL_CONFIG_2 after `v |= FCHOICE_B`: the filter-bypass bit set, every other bit as read. */
  function AccelFChoice(v: bv8): (r: bv8)
    ensures r & ACCEL_FCHOICE_B == ACCEL_FCHOICE_B
    ensures r & !ACCEL_FCHOICE_B == v & !ACCEL_FCHOICE_B
  {
    v | ACCEL_FCHOICE_B
  }

  /** Whether a PWR_MGMT_1 value puts the device in sleep mode. */
  predicate Asleep(v: bv8)
  {
    v & SLEEP_BIT != 0
  }

  /** `Wake`: PWR_MGMT_1 with bit 6 cleared and every other bit as read. */
  function Wake(v: bv8): (r: bv8)
    ensures !Asleep(r)
    ensures r & !SLEEP_BIT == v & !SLEEP_BIT
  {
    v & !SLEEP_BIT
  }

  /**
   * `Sleep` as the three drivers write it: `v |= ^0x40`. Every bit except bit
   * 6 becomes 1 (DEVICE_RESET among them) and bit 6 keeps what was read.
   */
  function SleepAsWritten(v: bv8): (r: bv8)
    ensures r & !SLEEP_BIT == !SLEEP_BIT
    ensures Asleep(r) <==> Asleep(v)
  {
    v | !SLEEP_BIT
  }

  /**
   * After `Wake`, the `Sleep` of the drivers leaves the device awake and
   * requests a device reset instead.
   */
  lemma SleepLeavesDeviceAwake(v: bv8)
    ensures !Asleep(SleepAsWritten(Wake(v)))
    ensures SleepAsWritten(Wake(v)) & DEVICE_RESET_BIT == DEVICE_RESET_BIT
    ensures SleepAsWritten(0x00) == 0xBF
  {
  }

  /** `Sleep` as evidently intended: bit 6 set and every other bit as read. */
  function Sleep(v: bv8): (r: bv8)
    ensures Asleep(r)
    ensures r & !SLEEP_BIT == v & !SLEEP_BIT
  {
    v | SLEEP_BIT
  }

  /**
   * Wake and Sleep only toggle bit 6: each undoes the other and both are
   * idempotent.
   */
  lemma WakeSleepInverse(v: bv8)
    ensures Wake(Sleep(v)) == Wake(v)
    ensures Sleep(Wake(v)) == Sleep(v)
    ensures Asleep(v) ==> Sleep(Wake(v)) == v
    ensures !Asleep(v) ==> Wake(Sleep(v)) == v
    ensures Wake(Wake(v)) == Wake(v) && Sleep(Sleep(v)) == Sleep(v)
  {
  }

  /**
   * Accelerometer sensitivity in LSB per g: 16384, 8192, 4096, 2048 for
   * ±2, ±4, ±8, ±16 g, and 16384 for any other range argument.
   */
  function AccelSensitivity(fs: int): (lsb: int)
    ensures lsb * NormalAccelFs(fs) == 32768
    ensures !(fs in {2, 4, 8, 16}) ==> lsb == 16384
  {
    if fs == 2 then 16384
    else if fs == 4 then 8192
    else if fs == 8 then 4096
    else if fs == 16 then 2048
    else 16384
  }

  /**
   * Gyroscope sensitivity in tenths of an LSB per °/s: 131, 65.5, 32.8, 16.4
   * for ±250, ±500, ±1000, ±2000 °/s, and 131 for any other range argument.
   * Each is 131 halved once per doubling of the range, rounded to one decimal
   * with ties rounded up.
   */
  function GyroSensitivityTenths(dps: int): (t: int)
    ensures var q := NormalGyroDps(dps) / 250;
            -q <= 2 * (1310 - t * q) < q
    ensures !(dps in {250, 500, 1000, 2000}) ==> t == 1310
  {
    if dps == 250 then 1310
    else if dps == 500 then 655
    else if dps == 1000 then 328
    else if dps == 2000 then 164
    else 1310
  }

  /** The sensitivities match the ranges the configured register selects. */
  lemma SensitivityMatchesRegister(v: bv8, fs: int, dps: int)
    ensures AccelSensitivity(fs) * AccelFsOf(AccelConfig(v, fs)) == 32768
    ensures GyroSensitivityTenths(dps) == GyroSensitivityTenths(GyroDpsOf(GyroConfig(v, dps)))
  {
  }
}
