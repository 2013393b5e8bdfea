# knobID acquisition core in Dafny

A model of the data-acquisition core of the knobID sensor platform. A Raspberry
Pi polls an MPU9250 accelerometer and gyroscope over I2C. A presence sensor
decides which samples are kept. While nobody is present, samples feed a
pre-roll ring of `margin` slots. While presence lasts, samples are appended to
a capture list. When presence ends, `margin` post-roll samples are read. Then
one record is written: the pre-roll rows, the captured rows and the post-roll
rows, all numbered contiguously. Each row carries an offset in microseconds
from a single shift time and a flag.

The model has these modules:

- `Words` (words.dfy): big-endian word composition, two's-complement sign
  recovery with Go's `uint16`/`int16` wrap-around, and the `GetAccGyroData`
  and `GetAllData` decoders. Bytes are integers in [0, 255] and words are
  integers in [0, 65535], with Go's wrap-around written out where it occurs.
- `Clock` (clock.dfy): `time.Time` as nanoseconds since Go's zero Time.
  `Time.Sub` saturates to int64, and `Duration / time.Microsecond` truncates
  toward zero.
- `Samples` (samples.dfy): the `TimAccGyr` sample and its decoding from a
  timestamped 14-byte burst read.
- `PreRoll` (preroll.dfy): the ring `preDataStore` with cursor `lastValue`,
  its writes and the order in which the flush reads it.
- `Acquisition` (acquisition.dfy): the loop of `main` in knobID.go as a pure
  `Step` over an immutable state, plus the `Flush` that builds a record and
  the method `WriteRecord` that runs the program's two writing loops.
- `Events` (events.dfy): runs of the loop over sequences of presence readings,
  and the end-to-end statement about one whole acquisition.
- `Registers` (registers.dfy): the `Config`, `Wake` and `Sleep` bit
  arithmetic on `bv8` in its three variants, and the full-scale to
  sensitivity tables.
- `Calibration` (calibration.dfy): `calibrateAcc` of the older calibration
  program.
- `CalibAcquisition` (calib_acquisition.dfy): the simpler acquisition loop of
  the older calibration program.
- `Wrappers` (wrappers.dfy): the shared `Option` type.

Inputs the program takes from hardware or the clock are parameters:

- each presence reading;
- the `time.Now()` of a rising edge;
- the device reads of one loop iteration, as a function from read index to
  (timestamp, 14 bytes);
- register values read before a read-modify-write.

Read errors in the acquisition loops are ignored by the program. A failed
read just leaves some buffer contents, so it is one more possible input frame.

**Flag column.** The code writes flag 1 on capture row i exactly when
`i < len(dataStore) - margin` (knobID.go:865-871). That marks the rows read
while presence lasted. It writes 0 on the pre-roll rows and on the trailing
`margin` post-roll rows. See `Acquisition.Flush`, `Acquisition.FlagPlacement`
and `Events.FlushExample`.

**Unwritten ring slots.** After program start the idle writes go to slots
1, 2, ..., margin-1, 0; after a flush they go to 0, 1, .... So whenever fewer
than `margin` idle writes have happened since the ring was empty, the first
slot the flush reads, `(lastValue + 1) % margin`, was never written and holds
Go's zero Time. The shift time is then Go's zero Time (knobID.go:833). The
never-written rows get offset 0. Every real pre-roll, capture and post-roll row
gets `Sub(t, zero)`, which saturates to the largest Duration and is written as
9223372036854775 µs (knobID.go:841, 858). The model keeps those slots as
zero-valued samples (`PreRoll.LiveSamples`, `Events.EventPreRoll`) and states
the consequence in `Acquisition.UnwrittenShift`.

## Model

| member | source | states |
|---|---|---|
| Words.Compose | knobID.go:681 | the word's high byte is its quotient by 256 and its low byte the remainder (big-endian) |
| Words.ComposeSplit | knobID.go:681 | splitting a word into bytes and composing them gives the word back |
| Words.SplitCompose | knobID.go:681 | composing two bytes and splitting the word gives the bytes back |
| Words.SignedUnsigned | knobID.go:682-687 | reading a value's two's-complement word as signed gives the value back |
| Words.UnsignedSigned | knobID.go:682-687 | every 16-bit word is the two's-complement pattern of its signed reading |
| Words.SignRecover | knobID.go:681-687 | the `^w + 1`, `int16`, `-1 *` sequence yields the two's-complement value of the word (0x8000 gives -32768), negative exactly when the word exceeds 32767 |
| Words.SignRecoverInt | old/calib.go:274-280 | the same recovery in Go `int` lies in [-32768, 32767] and equals the two's-complement value |
| Words.GetAccGyroData | old/calib.go:253-322 | an error is returned exactly when the write or the read fails, and then all six outputs are 0; otherwise each output is the int16 whose word is the big-endian pair at bytes 0, 2, 4, 8, 10, 12 |
| Words.GetAccGyroDataIgnoresTemperature | old/calib.go:274-320 | bytes 6 and 7 never affect the outputs |
| Words.ByteShiftWord | kn5.go:181 | `uint16(hi<<8) + uint16(lo)` with the shift on a byte equals the low byte |
| Words.GetAllDataAsWritten | kn5.go:168-190 | all outputs 0 on a failed write or read; otherwise each output is the low byte of its axis word, in [0, 255] |
| Words.GetAllDataDropsHighByte | kn5.go:181 | bytes 0x12 0x34 decode as 0x34, not 0x1234 |
| Words.GetAllData | kn5.go:168-190 | corrected decoder: zeros on error, otherwise unsigned words in [0, 65535] |
| Words.GetAllDataRoundTrip | kn5.go:181-187 | each output of the corrected decoder splits back into exactly its axis bytes |
| Words.UnsignedWords | kn5.go:275-281 | six unsigned words `buf[k]*256 + buf[k+1]` in [0, 65535] with no sign conversion |
| Clock.Saturate | knobID.go:841 | a difference is clipped to the int64 range and unchanged inside it |
| Clock.QuotRem | knobID.go:841 | Go's truncating quotient and remainder satisfy a = q*b + r with the remainder smaller than b and carrying the dividend's sign |
| Clock.QuotMonotone | knobID.go:858 | truncating division is monotone in the dividend |
| Clock.OffsetUs | knobID.go:841 | an instant equal to the shift time has offset 0; a non-negative unsaturated difference of d ns gives the whole microseconds of d |
| Clock.OffsetSaturated | knobID.go:841 | an instant more than the largest Duration after the shift time gets offset 9223372036854775 µs |
| Clock.OffsetMonotone | knobID.go:858 | a later instant never has an earlier offset |
| Samples.Decode | knobID.go:676-727 | the sample keeps the read's time, and each axis's two's-complement word is the big-endian pair at bytes 0-5 and 8-13 |
| Samples.DecodeEncode | knobID.go:681-727 | decoding the frame built from a sample gives the sample back |
| Samples.DecodeAgreesWithGetAccGyroData | old/calib.go:274-320 | the loop's inline decoding and GetAccGyroData give the same six values |
| PreRoll.Initial | knobID.go:504 | the ring at start (`margin` zero slots, cursor 0) is valid and reads as all zeros |
| PreRoll.FreshIsEmpty | knobID.go:881-882 | the ring after a flush (1000 zero slots, cursor -1) is valid for every margin and reads as all zeros |
| PreRoll.Slot | knobID.go:831-838 | the i-th slot read is `(lastValue + 1 + i) % margin`, below margin |
| PreRoll.Position | knobID.go:831-838 | every slot below margin is read at some position |
| PreRoll.SlotOrder | knobID.go:831-838 | the flush starts after the cursor, advances by one modulo margin, visits every slot exactly once and ends on the cursor's slot (slot margin-1 when the cursor is -1) |
| PreRoll.Push | knobID.go:945-947 | an idle write moves the cursor to `(lastValue + 1) % margin`, writes that slot only and leaves the ring alone when margin is 0 |
| PreRoll.Snapshot | knobID.go:835-838 | the flush reads m samples, the i-th from slot Slot(i) |
| PreRoll.PushSnapshot | knobID.go:945-947 | a write drops the oldest sample the flush would read and appends the new one |
| PreRoll.PushAllSnapshot | knobID.go:888-948 | after writes h the flush reads the last m samples of the old contents followed by h |
| PreRoll.LiveSamples | knobID.go:833-837 | from an empty ring the flush reads the min(n, m) latest writes, preceded by zero slots never written |
| PreRoll.FirstWriteAtStart | knobID.go:504 | the first write after program start lands in slot 1 % margin |
| PreRoll.FirstWriteAfterFlush | knobID.go:882 | the first write after a flush lands in slot 0 |
| Acquisition.ClampMargin | knobID.go:539-547 | an in-range argument is kept; the result always lies in [0, 1000] |
| Acquisition.ClampNearest | knobID.go:539-547 | the clamped margin is the admissible value nearest the argument, and clamping is idempotent |
| Acquisition.Start | knobID.go:504-549 | the state main enters the loop with satisfies the loop invariant and its ring reads as zeros |
| Acquisition.Flush | knobID.go:830-874 | the record has the acquisition number and margin + len(dataStore) rows numbered 1..; row i holds the i-th of pre-roll snapshot then capture list with its offset from the shift time; flag is 1 exactly on rows margin..len(dataStore)-1; with margin > 0 the shift time is the first pre-roll sample's time and row 1 has offset 0, with margin 0 it is the rising-edge instant |
| Acquisition.WriteRecord | knobID.go:830-874 | the program's cursor loop and capture loop produce exactly the record Flush describes |
| Acquisition.WritePreRoll | knobID.go:830-851 | the cursor loop's shift time is the first slot read and its margin rows are the snapshot in flush order, numbered from 1 with flag 0 |
| Acquisition.WriteCapture | knobID.go:853-874 | the capture loop gives one row per captured sample, numbered after the margin pre-roll rows, flag 1 exactly before the trailing margin rows |
| Acquisition.FlushOffsetsMonotone | knobID.go:841-858 | samples in time order give rows with non-decreasing offsets |
| Acquisition.UnwrittenShift | knobID.go:830-858 | with fewer than margin idle writes since the ring was empty (start or last flush), the shift time is Go's zero Time, the never-written rows get offset 0 and every row timed by a real clock reading gets the saturated offset |
| Acquisition.Reset | knobID.go:879-883 | after a record: no presence, empty capture list, a ring that reads as zeros and is read from slot 0, the next acquisition number |
| Acquisition.PostRoll | knobID.go:736-795 | the falling edge reads exactly margin more samples |
| Acquisition.Step | knobID.go:665-952 | the invariant is preserved; a record is written exactly on a falling edge; presence appends one sample and sets the shift time on a rising edge; a falling edge writes the Flush of capture plus post-roll and resets; an idle reading only pushes into the ring |
| Acquisition.IdleWrite | knobID.go:888-948 | an idle reading writes only when margin > 0, moving the cursor to `(lastValue + 1) % margin` in [0, margin), writing exactly that slot |
| Acquisition.FallingEdge | knobID.go:879-883 | a falling edge writes margin + len(dataStore) + margin rows, increments the acquisition number, empties the capture list, sets the cursor to -1 with 1000 slots, so the next idle write lands in slot 0 |
| Acquisition.FlagPlacement | knobID.go:848-871 | flag 1 exactly on the rows captured during presence; pre-roll and post-roll rows carry 0 |
| Events.Run | knobID.go:665-952 | the loop invariant holds after any sequence of presence readings |
| Events.RunNumbering | knobID.go:879 | records carry consecutive acquisition numbers and the counter grows by the number of records |
| Events.RunFromStart | knobID.go:510 | from program start the k-th record written is acquisition number k |
| Events.RunAppend | knobID.go:665-952 | running over a + b is running over a and continuing from its state |
| Events.RunIdle | knobID.go:888-948 | idle readings write no record and only push their samples into the ring |
| Events.RunCapture | knobID.go:667-729 | readings during presence write no record and append one sample each |
| Events.Event | knobID.go:665-952 | one acquisition writes one record of m + len(C) + m rows numbered 1.. holding, in order, the ring's last m samples, the capture C and the post-roll P; flag 1 exactly on C; shift time as in Flush; final state reset with the next number |
| Events.EventPreRoll | knobID.go:833-837 | from an empty ring the pre-roll rows are the latest idle samples, zero-padded in front when fewer than m were read |
| Events.FlushExample | knobID.go:830-874 | margin 2 with samples at 100..600 µs gives rows 1..6 with offsets 0..500 µs and flags 0,0,1,1,0,0 |
| Registers.NormalAccelFs | knobID.go:297-307 | 2/4/8/16 g are kept and every other argument falls back to ±2 g |
| Registers.NormalGyroDps | knobID.go:346-356 | 250/500/1000/2000 °/s are kept and every other argument falls back to ±250 °/s |
| Registers.AccelFsParam | knobID.go:296-307 | the field value lies in bits 4:3 and selects the normalised range |
| Registers.GyroFsParam | knobID.go:345-356 | the field value lies in bits 4:3 and selects the normalised range |
| Registers.FsParamRoundTrip | knobID.go:296-356 | every field value is the parameter of the range it selects |
| Registers.AccelConfig | knobID.go:295-307 | `(v | 0x18) & p` equals p whatever v was: only bits 4:3 can be set and they select the requested range; any other argument writes the ±2 g field 0x00 |
| Registers.GyroConfig | knobID.go:344-356 | the same for GYRO_CONFIG with ranges 250/500/1000/2000 °/s; any other argument writes the ±250 °/s field 0x00 |
| Registers.CalibGyroConfig | old/calib.go:193-205 | the older program writes the 250 °/s field for every argument outside 2/4/8/16 |
| Registers.CalibGyroIgnoresDps | old/calib.go:193-205 | every accepted range in °/s selects 250 °/s in the older program, while the current driver selects the range asked for |
| Registers.ClobberingAccelConfig | kn5.go:95-107 | `v |= ^0x18; v &= ^p` sets every bit outside 4:3, keeps bits 4:3 as read minus p's bits |
| Registers.ClobberingAccelConfigIgnoresRange | kn5.go:95-107 | the call kn5.go:241 makes (±2 g) writes 0xE7 over 0x00 and 0xFF over 0x18, which keeps ±16 g; from 0x00 every argument selects ±2 g, 16 g always selects ±2 g, and bits 7:5 are always set |
| Registers.AccelFChoice | knobID.go:324 | FCHOICE_B is set and every other bit is kept |
| Registers.Wake | kn5.go:127 | bit 6 is cleared and every other bit is kept |
| Registers.SleepAsWritten | kn5.go:145 | every bit except 6 becomes 1 and bit 6 keeps its value |
| Registers.SleepLeavesDeviceAwake | knobID.go:395 | after Wake the drivers' Sleep leaves the device awake and sets DEVICE_RESET |
| Registers.Sleep | knobID.go:389-403 | corrected Sleep: bit 6 set, every other bit kept |
| Registers.WakeSleepInverse | knobID.go:371-403 | Wake and corrected Sleep undo each other on bit 6 and are idempotent |
| Registers.AccelSensitivity | old/calib.go:510-521 | 16384/8192/4096/2048 LSB per g, 16384 by default; sensitivity times range is 32768 |
| Registers.GyroSensitivityTenths | old/calib.go:523-534 | 131, 65.5, 32.8, 16.4 LSB per °/s in tenths (131 by default), each 131 halved per range doubling, rounded half up |
| Registers.SensitivityMatchesRegister | knobID.go:556-590 | the sensitivities match the range the configured register selects |
| Calibration.MaxAcc | old/calib.go:399-412 | maxAcc is the 1 g reading for 2/4/8/16 g and 0 otherwise (no default case) |
| Calibration.Deviation | old/calib.go:426-433 | a reading above maxAcc in magnitude keeps the deviation; otherwise it lies in [0, maxAcc - maxAcc/2] and, for even maxAcc, is the distance from the nearer of 0 and ±maxAcc |
| Calibration.CalibStep | old/calib.go:426-451 | each axis's new deviation is bounded when its reading is in range |
| Calibration.Calibrate | old/calib.go:418-457 | the loop reads at least once, stops right after the first reading that brings all deviations below maxOfDev, otherwise consumes all readings; the deviations are those of the readings consumed |
| Calibration.FailedReadEndsCalibration | old/calib.go:265-273 | a failed read's zeros give all deviations 0, ending calibration for a known range and positive tolerance |
| Calibration.DeviationAligned | old/calib.go:426-433 | readings 0 and ±maxAcc have deviation 0; the deviation ignores the sign |
| CalibAcquisition.Capture | old/calib.go:635-693 | a captured sample is timed by the exact difference from the rising edge when it fits a Duration and by the saturated extreme otherwise; each axis is the two's-complement reading of its big-endian pair at bytes 0-5 and 8-13 |
| CalibAcquisition.CaptureDumpRow | old/calib.go:635-741 | a reading taken at or after the rising edge is dumped with the whole microseconds elapsed since the edge and the decoded axes |
| CalibAcquisition.Dump | old/calib.go:728-741 | rows numbered 0..len-1, one per capture, same axes, duration divided by 1 µs truncated toward zero |
| CalibAcquisition.DumpRow | old/calib.go:730-739 | row i carries the capture's axes and its duration in µs truncated toward zero, bounded on both signs |
| CalibAcquisition.WriteDump | old/calib.go:728-741 | the program's dump loop produces exactly the record Dump describes |
| CalibAcquisition.CStart | old/calib.go:474-481 | the loop starts outside presence with no captures, acquisition number 0 and time0 the start instant, satisfying the loop invariant |
| CalibAcquisition.CStep | old/calib.go:622-752 | a rising edge increments the number and resets time0; presence appends one sample; a falling edge dumps and empties the list; otherwise nothing changes |
| CalibAcquisition.CRun | old/calib.go:622-752 | the invariant holds after any sequence of presence readings |
| CalibAcquisition.CRunNumbering | old/calib.go:628 | files carry consecutive numbers after those already completed |
| CalibAcquisition.CRunFromStart | old/calib.go:628 | from program start the k-th file dumped is acquisition number k + 1 |

## Left out

- Bus and pin access (I2C, GPIO) are not modelled. Register reads and burst reads are inputs, and bus errors in the acquisition loops are ignored as the program ignores them.
- The `readIR`/`readCap` goroutines and the presence channel are not modelled. The loop consumes a given sequence of presence readings.
- MPR121 `Config` and `Touched` are not modelled: they are register writes and one `& 0x01` on a bus read.
- File creation, file names (`acquisitionConf`, `%02d` numbering) and header lines are not modelled. Rows carry the raw int16 axes instead of the `%f` text of `raw / sensitivity`.
- The acquisition-rate log line is not modelled: it is float arithmetic. Its read of the last captured sample is in range by `Acquisition.Inv`.
- `maxOfDev = int(precision * sensitivity)` is a parameter of `Calibration.Calibrate`, because it is floating point.
- The LED blink goroutine and its channel sends in `calibrateAcc` are not modelled. Neither is `old/kn3.go`.
- `time.Sleep`, `log.Fatal`/`checkError`, argument parsing and the order of the Wake/Config calls in `main` are not modelled.
- `GetData`, `GetAccel` and `GetGyro` are not modelled: they are 16-bit register reads, and no loop uses them.
- Go time instants carry a monotonic reading, and `Time.Sub` uses it when both instants have one. The model keeps a single nanosecond count per instant. Only differences involving a never-written slot at Go's zero Time differ, and those saturate in both.
- Calibration.Calibrate: the program's loop is unbounded. The model runs it over a finite sequence of readings and reports whether it finished.
- Calibration.Deviation: equality with the distance to the nearer of 0 and ±maxAcc is stated for even maxAcc only. All four real values are even; for odd maxAcc only the bounds are stated.
- Calibration.DeviationAligned: requires maxAcc >= 2, because with maxAcc 1 the reading 0 gets deviation 1.
- Clock.OffsetUs: the microsecond bounds are stated only for non-negative, unsaturated differences. Negative offsets follow `Clock.Quot`, whose sign rules are in `Clock.QuotRem`.
- Events.Run: runs are over finite sequences of presence readings; the program's loop never ends.

## Findings

| source | as written | input that shows it | evidently intended | confidence | as-written member | corrected member |
|---|---|---|---|---|---|---|
| old/calib.go:193-205 | gyro full-scale switch on `case 2, 4, 8, 16` | `-gyro 2000` (any of 500/1000/2000) writes the 250 °/s field 0x00 | switch on 250/500/1000/2000 as knobID.go:345-356 does | high; not executed | Registers.CalibGyroIgnoresDps | Registers.GyroConfig |
| kn5.go:181-187 (same in knobID.go:431-437) | `uint16(buf[k]<<8)` shifts the byte before widening | bytes 0x12 0x34 give 0x34 | `uint16(buf[k])<<8`, giving 0x1234 | high; not executed | Words.GetAllDataDropsHighByte | Words.GetAllData |
| kn5.go:95-107 | `v |= ^0x18; v &= ^p` | kn5's own `NewMPU9250(1, 2, 250)` (kn5.go:241) writes 0xE7 over 0x00 (self-test bits set) and 0xFF over 0x18 (±16 g kept although ±2 g was asked) | `v |= 0x18; v &= p` as in knobID.go:295-307 | high; not executed | Registers.ClobberingAccelConfigIgnoresRange | Registers.AccelConfig |
| knobID.go:395 (same in kn5.go:145 and old/calib.go:243) | `v |= ^0x40` | PWR_MGMT_1 0x00 becomes 0xBF: still awake, DEVICE_RESET set | `v |= 0x40` | high; not executed | Registers.SleepLeavesDeviceAwake | Registers.Sleep |
