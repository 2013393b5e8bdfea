/**
 * One six-axis sample of the acquisition loop (Go `TimAccGyr`) and its
 * decoding from a timestamped burst read.
 */
module Samples {
  import opened Words
  import Clock

  /** Three signed 16-bit axis values (Go `ThreeDData`). */
  datatype Axes = Axes(x: I16, y: I16, z: I16)

  /** A timestamped accelerometer and gyroscope reading (Go `TimAccGyr`). */
  datatype Sample = Sample(time: int, acc: Axes, gyr: Axes)

  /** Go's zero value of a sample: zero Time and all axes zero. */
  const ZERO_SAMPLE := Sample(Clock.ZERO_TIME, Axes(0, 0, 0), Axes(0, 0, 0))

  /**
   * What one device access yields to the loop: the fourteen bytes left in the
   * read buffer and the `time.Now()` taken right after the read. The loop
   * ignores bus errors, so on a failed read the buffer holds whatever it held
   * before; that is just another frame here.
   */
  datatype Reading = Reading(time: int, buf: Frame)

  /** Decode one reading into a sample: each axis word sign-recovered. */
  function Decode(rd: Reading): (s: Sample)
    ensures s.time == rd.time
    ensures Unsigned(s.acc.x) == Compose(rd.buf[0], rd.buf[1])
    ensures Unsigned(s.acc.y) == Compose(rd.buf[2], rd.buf[3])
    ensures Unsigned(s.acc.z) == Compose(rd.buf[4], rd.buf[5])
    ensures Unsigned(s.gyr.x) == Compose(rd.buf[8], rd.buf[9])
    ensures Unsigned(s.gyr.y) == Compose(rd.buf[10], rd.buf[11])
    ensures Unsigned(s.gyr.z) == Compose(rd.buf[12], rd.buf[13])
  {
    var b := rd.buf;
    UnsignedSigned(Compose(b[0], b[1]));
    UnsignedSigned(Compose(b[2], b[3]));
    UnsignedSigned(Compose(b[4], b[5]));
    UnsignedSigned(Compose(b[8], b[9]));
    UnsignedSigned(Compose(b[10], b[11]));
    UnsignedSigned(Compose(b[12], b[13]));
    Sample(rd.time,
           Axes(SignRecover(Compose(b[0], b[1])), SignRecover(Compose(b[2], b[3])), SignRecover(Compose(b[4], b[5]))),
           Axes(SignRecover(Compose(b[8], b[9])), SignRecover(Compose(b[10], b[11])), SignRecover(Compose(b[12], b[13]))))
  }

  /** The raw frame of a sample: the inverse of Decode on the axis bytes. */
  function Encode(s: Sample): (rd: Reading)
  {
    var ax, ay, az := Split(Unsigned(s.acc.x)), Split(Unsigned(s.acc.y)), Split(Unsigned(s.acc.z));
    var gx, gy, gz := Split(Unsigned(s.gyr.x)), Split(Unsigned(s.gyr.y)), Split(Unsigned(s.gyr.z));
    Reading(s.time, [ax.0, ax.1, ay.0, ay.1, az.0, az.1, 0, 0, gx.0, gx.1, gy.0, gy.1, gz.0, gz.1])
  }

  lemma DecodeEncode(s: Sample)
    ensures Decode(Encode(s)) == s
  {
    var rd := Encode(s);
    var d := Decode(rd);
    ComposeSplit(Unsigned(s.acc.x));
    ComposeSplit(Unsigned(s.acc.y));
    ComposeSplit(Unsigned(s.acc.z));
    ComposeSplit(Unsigned(s.gyr.x));
    ComposeSplit(Unsigned(s.gyr.y));
    ComposeSplit(Unsigned(s.gyr.z));
    SignedUnsigned(s.acc.x);
    SignedUnsigned(s.acc.y);
    SignedUnsigned(s.acc.z);
    SignedUnsigned(s.gyr.x);
    SignedUnsigned(s.gyr.y);
    SignedUnsigned(s.gyr.z);
  }

  /** Decoding agrees with GetAccGyroData on a successful read. */
  lemma DecodeAgreesWithGetAccGyroData(rd: Reading)
    ensures var six := GetAccGyroData(true, ReadOk(rd.buf)).0;
            var s := Decode(rd);
            six == Six(s.acc.x, s.acc.y, s.acc.z, s.gyr.x, s.gyr.y, s.gyr.z)
  {
  }
}
