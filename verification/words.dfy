/**
 * Decoding of the MPU9250 burst read: fourteen bytes starting at ACCEL_XOUT_H,
 * holding accelerometer X/Y/Z (bytes 0-5), temperature (bytes 6-7, unused)
 * and gyroscope X/Y/Z (bytes 8-13), each axis a big-endian 16-bit word.
 */
module Words {

  /** A signed 16-bit value (Go `int16`). */
  type I16 = x: int | -0x8000 <= x < 0x8000

  /** A Go `byte`. */
  type Byte = x: int | 0 <= x < 0x100

  /** The fourteen bytes returned by one burst read. */
  type Frame = s: seq<Byte> | |s| == 14 witness [0, 0, 0, 0, 0, 0, 0, 0, 0, 0, 0, 0, 0, 0]

  /** Byte offsets of the high bytes of the six axis words, in the order
      accX, accY, accZ, gyrX, gyrY, gyrZ. */
  const AXIS_OFFSETS: seq<int> := [0, 2, 4, 8, 10, 12]

  /** The six axis values produced by one decoding, as Go `int`s. */
  datatype Six = Six(ax: int, ay: int, az: int, gx: int, gy: int, gz: int)
  {
    function AsSeq(): seq<int> { [ax, ay, az, gx, gy, gz] }
  }

  const ZERO_SIX := Six(0, 0, 0, 0, 0, 0)

  /** Result of the bus read in a decoding routine. */
  datatype BusRead = ReadOk(buf: Frame) | ReadFailed

  /** A Go `uint16`. */
  type U16 = x: int | 0 <= x < 0x10000

  /**
   * `uint16(hi)<<8 | uint16(lo)`: the high byte lands in bits 15:8 and the low
   * byte in bits 7:0, which do not overlap, so the or is the sum.
   */
  function Compose(hi: Byte, lo: Byte): (w: U16)
    ensures w / 256 == hi && w % 256 == lo
  {
    hi * 256 + lo
  }

  /** High and low byte of a word; the inverse of Compose. */
  function Split(w: U16): (bytes: (Byte, Byte))
  {
    (w / 256, w % 256)
  }

  lemma ComposeSplit(w: U16)
    ensures Compose(Split(w).0, Split(w).1) == w
  {
  }

  lemma SplitCompose(hi: Byte, lo: Byte)
    ensures Split(Compose(hi, lo)) == (hi, lo)
  {
  }

  /** Go's `^w` on a `uint16`: every one of the sixteen bits flipped. */
  function Complement16(w: U16): U16
  {
    0xFFFF - w
  }

  /** Go's `w + 0x01` on a `uint16`, wrapping at 2^16. */
  function Increment16(w: U16): U16
  {
    (w + 1) % 0x10000
  }

  /** Go's conversion `int16(w)`: the same sixteen bits read as two's complement,
      which is exactly the reference reading `Signed` below. */
  function AsInt16(w: U16): I16
  {
    Signed(w)
  }

  /** Reduce an integer to `int16` the way Go's int16 arithmetic wraps. */
  function Wrap16(x: int): I16
  {
    (x + 0x8000) % 0x10000 - 0x8000
  }

  /** The reference meaning of a raw word: two's-complement reinterpretation. */
  function Signed(w: U16): I16
  {
    if w > 32767 then w - 65536 else w
  }

  /** The two's-complement bit pattern of a signed value (inverse of Signed). */
  function Unsigned(v: I16): U16
  {
    if v < 0 then v + 0x10000 else v
  }

  lemma SignedUnsigned(v: I16)
    ensures Signed(Unsigned(v)) == v
  {
  }

  lemma UnsignedSigned(w: U16)
    ensures Unsigned(Signed(w)) == w
  {
  }

  /**
   * Sign recovery as written in the acquisition loop: a word above 32767 is
   * negated with `^w + 0x01` on `uint16`, converted with `int16(...)` and
   * multiplied by -1 in `int16` arithmetic; otherwise it is converted directly.
   * For 0x8000 the negation gives 0x8000 again and `-1 * int16(0x8000)` wraps
   * back to -32768.
   */
  function SignRecover(w: U16): (v: I16)
    ensures v == Signed(w)
    ensures w > 32767 <==> v < 0
  {
    if w > 32767 then
      Wrap16(-1 * AsInt16(Increment16(Complement16(w))))
    else
      AsInt16(w)
  }

  /**
   * Sign recovery as written in GetAccGyroData: the negated word is converted
   * to a Go `int` (64-bit), so the multiplication by -1 cannot wrap.
   */
  function SignRecoverInt(w: U16): (v: int)
    ensures -32768 <= v <= 32767
    ensures v == Signed(w)
  {
    if w > 32767 then
      -1 * Increment16(Complement16(w))
    else
      w
  }

  /** The raw word of the axis whose high byte is at offset k. */
  function AxisWord(buf: Frame, k: int): U16
    requires 0 <= k < 13
  {
    Compose(buf[k], buf[k + 1])
  }

  /** The value v is an int16 whose two's-complement word is the big-endian word at offset k. */
  predicate EncodesAt(buf: Frame, k: int, v: int)
    requires 0 <= k < 13
  {
    -32768 <= v <= 32767 && Unsigned(v) == Compose(buf[k], buf[k + 1])
  }

  /** Each of the six values is the signed reading of its axis word in the frame. */
  predicate Encodes(buf: Frame, six: Six)
  {
    && EncodesAt(buf, 0, six.ax) && EncodesAt(buf, 2, six.ay) && EncodesAt(buf, 4, six.az)
    && EncodesAt(buf, 8, six.gx) && EncodesAt(buf, 10, six.gy) && EncodesAt(buf, 12, six.gz)
  }

  /**
   * GetAccGyroData: a failed register write or a failed read yields six
   * zeros and the error; otherwise each axis word is sign-recovered.
   */
  function GetAccGyroData(writeOk: bool, read: BusRead): (r: (Six, bool))
    ensures !writeOk || read.ReadFailed? <==> r.1
    ensures r.1 ==> r.0 == ZERO_SIX
    ensures !r.1 ==> Encodes(read.buf, r.0)
  {
    if !writeOk || read.ReadFailed? then
      (ZERO_SIX, true)
    else
      var buf := read.buf;
      (Six(SignRecoverInt(AxisWord(buf, 0)), SignRecoverInt(AxisWord(buf, 2)), SignRecoverInt(AxisWord(buf, 4)),
           SignRecoverInt(AxisWord(buf, 8)), SignRecoverInt(AxisWord(buf, 10)), SignRecoverInt(AxisWord(buf, 12))),
       false)
  }

  /** The temperature bytes 6 and 7 never influence the decoded axes. */
  lemma GetAccGyroDataIgnoresTemperature(b1: Frame, b2: Frame)
    requires forall i :: 0 <= i < 14 && i != 6 && i != 7 ==> b1[i] == b2[i]
    ensures GetAccGyroData(true, ReadOk(b1)) == GetAccGyroData(true, ReadOk(b2))
  {
  }

  /**
   * `uint16(buf[k]<<8) + uint16(buf[k+1])` as written in GetAllData: the shift
   * is evaluated on the byte before the conversion, so it yields zero.
   */
  function ByteShiftWord(hi: Byte, lo: Byte): (w: U16)
    ensures w == lo
  {
    Add16(ShiftLeft8(hi), lo)
  }

  /** Go's `b << 8` on a `byte`: the result keeps only the bits that stay below bit 8. */
  function ShiftLeft8(b: Byte): Byte
  {
    (b * 0x100) % 0x100
  }

  /** Go's `uint16` addition, wrapping at 2^16. */
  function Add16(a: U16, b: U16): U16
  {
    (a + b) % 0x10000
  }

  /** GetAllData as written: zeros on error, otherwise the ByteShiftWord of each axis. */
  function GetAllDataAsWritten(writeOk: bool, read: BusRead): (r: Six)
    ensures !writeOk || read.ReadFailed? ==> r == ZERO_SIX
    ensures forall i :: 0 <= i < 6 ==> 0 <= r.AsSeq()[i] <= 255
    ensures writeOk && read.ReadOk? ==>
              forall i :: 0 <= i < 6 ==> r.AsSeq()[i] == read.buf[AXIS_OFFSETS[i] + 1]
  {
    if !writeOk || read.ReadFailed? then
      ZERO_SIX
    else
      var b := read.buf;
      Six(ByteShiftWord(b[0], b[1]), ByteShiftWord(b[2], b[3]), ByteShiftWord(b[4], b[5]),
          ByteShiftWord(b[8], b[9]), ByteShiftWord(b[10], b[11]), ByteShiftWord(b[12], b[13]))
  }

  /** The high byte is lost: 0x12 0x34 decodes as 0x34 instead of 0x1234. */
  lemma GetAllDataDropsHighByte()
    ensures var buf: Frame := [0x12, 0x34, 0, 0, 0, 0, 0, 0, 0, 0, 0, 0, 0, 0];
            GetAllDataAsWritten(true, ReadOk(buf)).ax == 0x34 != 0x1234 == GetAllData(true, ReadOk(buf)).ax
  {
  }

  /** GetAllData as evidently intended: zeros on error, otherwise the unsigned big-endian words. */
  function GetAllData(writeOk: bool, read: BusRead): (r: Six)
    ensures !writeOk || read.ReadFailed? ==> r == ZERO_SIX
    ensures forall i :: 0 <= i < 6 ==> 0 <= r.AsSeq()[i] <= 65535
  {
    if !writeOk || read.ReadFailed? then
      ZERO_SIX
    else
      var w := UnsignedWords(read.buf);
      Six(w[0], w[1], w[2], w[3], w[4], w[5])
  }

  /** The unsigned words of the corrected GetAllData give back every axis byte. */
  lemma GetAllDataRoundTrip(buf: Frame)
    ensures var r := GetAllData(true, ReadOk(buf));
            forall i :: 0 <= i < 6 ==>
              Split(r.AsSeq()[i]) == (buf[AXIS_OFFSETS[i]], buf[AXIS_OFFSETS[i] + 1])
  {
    forall i | 0 <= i < 6
      ensures Split(GetAllData(true, ReadOk(buf)).AsSeq()[i]) == (buf[AXIS_OFFSETS[i]], buf[AXIS_OFFSETS[i] + 1])
    {
      var k := AXIS_OFFSETS[i];
      var w := Compose(buf[k], buf[k + 1]);
      assert GetAllData(true, ReadOk(buf)).AsSeq()[i] == w;
      SplitCompose(buf[k], buf[k + 1]);
    }
  }

  /**
   * The free-running loop of the bring-up program composes the six unsigned
   * words with no sign conversion.
   */
  function UnsignedWords(buf: Frame): (ws: seq<int>)
    ensures |ws| == 6
    ensures forall i :: 0 <= i < 6 ==> 0 <= ws[i] <= 65535
    ensures forall i :: 0 <= i < 6 ==> ws[i] == buf[AXIS_OFFSETS[i]] as int * 256 + buf[AXIS_OFFSETS[i] + 1]
  {
    seq(6, i requires 0 <= i < 6 => Compose(buf[AXIS_OFFSETS[i]], buf[AXIS_OFFSETS[i] + 1]))
  }
}
