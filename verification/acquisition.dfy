/**
 * The presence-triggered acquisition loop of the knob sensor platform as a
 * pure state machine. Each presence reading is one loop iteration:
 *
 * - presence: one sample is appended to the capture list; on a rising edge
 *   the shift time is first set to the current instant;
 * - falling edge: `margin` more samples are appended (post-roll), the record
 *   is produced from the pre-roll ring and the capture list, and both are reset;
 * - idle: one sample is written into the pre-roll ring, unless margin is 0.
 */
module Acquisition {
  import opened Samples
  import opened PreRoll
  import Clock
  import opened Wrappers

  /** The `-marg` argument after the two range checks of main. */
  function ClampMargin(arg: int): (m: Margin)
    ensures 0 <= arg <= PRE_DATA_CAP ==> m == arg
  {
    if arg < 0 then 0
    else if arg > PRE_DATA_CAP then PRE_DATA_CAP
    else arg
  }

  /** The clamped margin is the value of the admissible range closest to the argument. */
  lemma ClampNearest(arg: int)
    ensures forall k :: 0 <= k <= PRE_DATA_CAP ==> Dist(ClampMargin(arg), arg) <= Dist(k, arg)
    ensures ClampMargin(ClampMargin(arg)) == ClampMargin(arg)
  {
  }

  function Dist(a: int, b: int): nat
  {
    if a <= b then b - a else a - b
  }

  /**
   * The loop's variables: `presenceBefore`, the pre-roll ring (`preDataStore`
   * and `lastValue`), the capture list `dataStore`, `shiftTime` and
   * `acquisitionNum`.
   */
  datatype State = State(
    presenceBefore: bool,
    pre: Ring,
    dataStore: seq<Sample>,
    shiftTime: int,
    acquisitionNum: int)

  /**
   * What holds between loop iterations: the ring has its valid shape, and the
   * capture list is non-empty exactly while presence was last seen (so the
   * flush's read of the last captured sample is always in range).
   */
  predicate Inv(s: State, m: Margin)
  {
    && Valid(s.pre, m)
    && (s.presenceBefore <==> s.dataStore != [])
    && s.acquisitionNum >= 0
  }

  /** The variables as main initialises them before the loop. */
  function Start(m: Margin): (s: State)
    ensures Inv(s, m)
    ensures Snapshot(s.pre, m) == Zeros(m)
  {
    State(false, Initial(m), [], Clock.ZERO_TIME, 0)
  }

  /** One data line of the record: number, offset in µs, raw axes and the flag. */
  datatype Row = Row(num: int, offsetUs: int, acc: Axes, gyr: Axes, flag: int)

  /** The contents of one data file: its acquisition number, the shift time and the rows. */
  datatype Record = Record(num: int, shiftTime: int, rows: seq<Row>)

  function MakeRow(num: int, x: Sample, shift: int, flag: int): Row
  {
    Row(num, Clock.OffsetUs(x.time, shift), x.acc, x.gyr, flag)
  }

  /** The row carries the sample's raw axes and its offset from the shift time. */
  predicate RowOf(row: Row, x: Sample, shift: int)
  {
    row.acc == x.acc && row.gyr == x.gyr && row.offsetUs == Clock.OffsetUs(x.time, shift)
  }

  /** The flag of capture row i: 1 while it precedes the trailing margin rows. */
  function CaptureFlag(i: int, len: int, m: Margin): int
  {
    if i < len - m then 1 else 0
  }

  /**
   * The shift time of the record: the time of the first pre-roll slot read,
   * or, with margin 0, the instant of the rising edge kept in the state.
   */
  function FlushShift(s: State, m: Margin): int
    requires Valid(s.pre, m)
  {
    if m > 0 then s.pre.slots[(s.pre.last + 1) % m].time else s.shiftTime
  }

  /** The record written at the end of an acquisition. */
  function Flush(s: State, m: Margin): (rec: Record)
    requires Valid(s.pre, m)
    ensures rec.num == s.acquisitionNum
    ensures |rec.rows| == m + |s.dataStore|
    ensures forall i :: 0 <= i < |rec.rows| ==> rec.rows[i].num == i + 1
    ensures forall i :: 0 <= i < |rec.rows| ==> (rec.rows[i].flag == 1 <==> m <= i < |s.dataStore|)
    ensures forall i :: 0 <= i < |rec.rows| ==> rec.rows[i].flag == 0 || rec.rows[i].flag == 1
    ensures forall i :: 0 <= i < |rec.rows| ==> RowOf(rec.rows[i], (Snapshot(s.pre, m) + s.dataStore)[i], rec.shiftTime)
    ensures m > 0 ==> rec.shiftTime == Snapshot(s.pre, m)[0].time && rec.rows[0].offsetUs == 0
    ensures m == 0 ==> rec.shiftTime == s.shiftTime
  {
    var shift := FlushShift(s, m);
    var snap := Snapshot(s.pre, m);
    var preRows := seq(m, i requires 0 <= i < m => MakeRow(i + 1, snap[i], shift, 0));
    var len := |s.dataStore|;
    var capRows := seq(len, i requires 0 <= i < len =>
                         MakeRow(m + i + 1, s.dataStore[i], shift, CaptureFlag(i, len, m)));
    Record(s.acquisitionNum, shift, preRows + capRows)
  }

  /**
   * The two writing loops of the flush as the program runs them: a cursor
   * starting after `lastValue` and advanced modulo margin for the pre-roll
   * rows, then the capture list in order.
   */
  method WriteRecord(s: State, m: Margin) returns (rec: Record)
    requires Valid(s.pre, m)
    ensures rec == Flush(s, m)
  {
    var shift, preRows := WritePreRoll(s.pre, m, s.shiftTime);
    var capRows := WriteCapture(s.dataStore, m, shift);
    rec := Record(s.acquisitionNum, shift, preRows + capRows);
    assert preRows + capRows == Flush(s, m).rows;
  }

  /** The pre-roll loop: margin rows read from the ring starting after the cursor. */
  method WritePreRoll(r: Ring, m: Margin, shift0: int) returns (shift: int, rows: seq<Row>)
    requires Valid(r, m)
    ensures shift == (if m > 0 then r.slots[(r.last + 1) % m].time else shift0)
    ensures |rows| == m
    ensures forall j :: 0 <= j < m ==> rows[j] == MakeRow(j + 1, Snapshot(r, m)[j], shift, 0)
  {
    shift := shift0;
    rows := [];
    if m > 0 {
      var first := (r.last + 1) % m;
      shift := r.slots[first].time;
      SlotOrder(r, m);
      var i := 1;
      while i <= m
        invariant 1 <= i <= m + 1
        invariant i <= m ==> first == Slot(r, m, i - 1)
        invariant |rows| == i - 1
        invariant forall j :: 0 <= j < i - 1 ==> rows[j] == MakeRow(j + 1, Snapshot(r, m)[j], shift, 0)
      {
        var value := r.slots[first];
        first := (first + 1) % m;
        rows := rows + [MakeRow(i, value, shift, 0)];
        i := i + 1;
      }
    }
  }

  /** The capture loop: one row per captured sample, numbered after the margin pre-roll rows. */
  method WriteCapture(data: seq<Sample>, m: Margin, shift: int) returns (rows: seq<Row>)
    ensures |rows| == |data|
    ensures forall j :: 0 <= j < |data| ==>
              rows[j] == MakeRow(m + j + 1, data[j], shift, CaptureFlag(j, |data|, m))
  {
    rows := [];
    var len := |data|;
    var k := 0;
    while k < len
      invariant 0 <= k <= len
      invariant |rows| == k
      invariant forall j :: 0 <= j < k ==> rows[j] == MakeRow(m + j + 1, data[j], shift, CaptureFlag(j, len, m))
    {
      var flag := if k < len - m then 1 else 0;
      rows := rows + [MakeRow(m + k + 1, data[k], shift, flag)];
      k := k + 1;
    }
  }

  /** When the samples are in time order, so are the offsets of the rows. */
  lemma FlushOffsetsMonotone(s: State, m: Margin)
    requires Valid(s.pre, m)
    requires var src := Snapshot(s.pre, m) + s.dataStore;
             forall i, j :: 0 <= i <= j < |src| ==> src[i].time <= src[j].time
    ensures var rows := Flush(s, m).rows;
            forall i, j :: 0 <= i <= j < |rows| ==> rows[i].offsetUs <= rows[j].offsetUs
  {
    var rec := Flush(s, m);
    var src := Snapshot(s.pre, m) + s.dataStore;
    forall i, j | 0 <= i <= j < |rec.rows|
      ensures rec.rows[i].offsetUs <= rec.rows[j].offsetUs
    {
      Clock.OffsetMonotone(src[i].time, src[j].time, rec.shiftTime);
    }
  }

  /**
   * A flush before margin idle writes have happened since the ring was empty
   * (at program start or after the previous flush): the first slot read was
   * never written, so the shift time is Go's zero Time. The never-written rows
   * get offset 0, and every row whose sample lies more than the largest
   * Duration after the zero Time (any real clock reading) gets the saturated
   * offset.
   */
  lemma UnwrittenShift(r0: Ring, s: State, m: Margin, h: seq<Sample>)
    requires Valid(r0, m) && Snapshot(r0, m) == Zeros(m)
    requires 0 < m && |h| < m
    requires s.pre == PushAll(r0, m, h)
    ensures var rec := Flush(s, m);
            && rec.shiftTime == Clock.ZERO_TIME
            && (forall i :: 0 <= i < m - |h| ==> rec.rows[i].offsetUs == 0)
            && (forall i :: 0 <= i < |rec.rows| && (Snapshot(s.pre, m) + s.dataStore)[i].time > Clock.MAX_DURATION ==>
                  rec.rows[i].offsetUs == 9_223_372_036_854_775)
  {
    LiveSamples(r0, m, h);
    var rec := Flush(s, m);
    var src := Snapshot(s.pre, m) + s.dataStore;
    assert src[0] == ZERO_SAMPLE;
    forall i | 0 <= i < |rec.rows| && src[i].time > Clock.MAX_DURATION
      ensures rec.rows[i].offsetUs == 9_223_372_036_854_775
    {
      Clock.OffsetSaturated(src[i].time, rec.shiftTime);
    }
  }

  /** The `margin` post-roll samples read synchronously on a falling edge. */
  function PostRoll(m: Margin, next: nat -> Reading): (p: seq<Sample>)
    ensures |p| == m
  {
    seq(m, k requires 0 <= k < m => Decode(next(k)))
  }

  /**
   * The state after a flush: no presence, empty capture list, a ring that
   * reads as zeros and whose next write lands in slot 0, and the next
   * acquisition number.
   */
  function Reset(s: State, m: Margin, shift: int): (r: State)
    requires s.acquisitionNum >= 0
    ensures Inv(r, m)
    ensures Snapshot(r.pre, m) == Zeros(m)
    ensures r.acquisitionNum == s.acquisitionNum + 1
    ensures m > 0 ==> Slot(r.pre, m, 0) == 0
    ensures !r.presenceBefore && r.dataStore == [] && r.shiftTime == shift
  {
    State(false, Fresh(), [], shift, s.acquisitionNum + 1)
  }

  /** One loop iteration's effect: the new state and the record it wrote, if any. */
  datatype Outcome = Outcome(state: State, record: Option<Record>)

  /**
   * One iteration of the loop for one presence reading. `clock` is the
   * `time.Now()` taken on a rising edge and `next(k)` is the k-th device read
   * of the iteration.
   */
  function Step(s: State, m: Margin, presenceNow: bool, clock: int, next: nat -> Reading): (o: Outcome)
    requires Inv(s, m)
    ensures Inv(o.state, m)
    ensures o.state.presenceBefore == presenceNow
    ensures o.record.Some? <==> !presenceNow && s.presenceBefore
    ensures presenceNow ==>
              && o.state.dataStore == s.dataStore + [Decode(next(0))]
              && o.state.pre == s.pre
              && o.state.acquisitionNum == s.acquisitionNum
              && o.state.shiftTime == (if s.presenceBefore then s.shiftTime else clock)
    ensures !presenceNow && s.presenceBefore ==>
              && o.record.value == Flush(s.(dataStore := s.dataStore + PostRoll(m, next)), m)
              && o.state == Reset(s, m, o.record.value.shiftTime)
    ensures !presenceNow && !s.presenceBefore ==>
              o.state == s.(pre := Push(s.pre, m, Decode(next(0))))
  {
    if presenceNow then
      var shift := if s.presenceBefore then s.shiftTime else clock;
      Outcome(s.(presenceBefore := true, dataStore := s.dataStore + [Decode(next(0))], shiftTime := shift), None)
    else if s.presenceBefore then
      var rec := Flush(s.(dataStore := s.dataStore + PostRoll(m, next)), m);
      Outcome(Reset(s, m, rec.shiftTime), Some(rec))
    else if m > 0 then
      Outcome(s.(pre := Push(s.pre, m, Decode(next(0)))), None)
    else
      Outcome(s, None)
  }

  /**
   * An idle reading writes the ring only when margin > 0: the cursor moves to
   * `(lastValue + 1) % margin`, exactly that slot receives the sample and every
   * other slot is unchanged.
   */
  lemma IdleWrite(s: State, m: Margin, clock: int, next: nat -> Reading)
    requires Inv(s, m) && !s.presenceBefore
    ensures var s' := Step(s, m, false, clock, next).state;
            && (m == 0 ==> s' == s)
            && (m > 0 ==>
                  && s'.pre.last == (s.pre.last + 1) % m
                  && 0 <= s'.pre.last < m
                  && s'.pre.slots[s'.pre.last] == Decode(next(0))
                  && (forall k :: 0 <= k < |s.pre.slots| && k != s'.pre.last ==> s'.pre.slots[k] == s.pre.slots[k])
                  && Snapshot(s'.pre, m) == Snapshot(s.pre, m)[1..] + [Decode(next(0))])
  {
    PushSnapshot(s.pre, m, Decode(next(0)));
  }

  /**
   * A falling edge writes one record of margin + |dataStore| + margin rows,
   * numbered by the current acquisition number, then leaves an empty capture
   * list, a ring with cursor -1 and the next acquisition number; the following
   * idle write lands in slot 0.
   */
  lemma FallingEdge(s: State, m: Margin, clock: int, next: nat -> Reading, clock2: int, next2: nat -> Reading)
    requires Inv(s, m) && s.presenceBefore
    ensures var o := Step(s, m, false, clock, next);
            && o.record.Some?
            && o.record.value.num == s.acquisitionNum
            && |o.record.value.rows| == m + |s.dataStore| + m
            && o.state.acquisitionNum == s.acquisitionNum + 1
            && o.state.dataStore == []
            && o.state.pre.last == -1
            && |o.state.pre.slots| == PRE_DATA_CAP
            && (m > 0 ==> Step(o.state, m, false, clock2, next2).state.pre.last == 0)
  {
    if m > 0 {
      FirstWriteAfterFlush(m, Decode(next2(0)));
    }
  }

  /**
   * The flag of a record produced by a falling edge is 1 exactly on the rows
   * captured while presence lasted: the m pre-roll rows before them and the m
   * post-roll rows after them carry 0.
   */
  lemma FlagPlacement(s: State, m: Margin, clock: int, next: nat -> Reading)
    requires Inv(s, m) && s.presenceBefore
    ensures var rows := Step(s, m, false, clock, next).record.value.rows;
            && (forall i :: 0 <= i < |rows| ==> (rows[i].flag == 1 <==> m <= i < m + |s.dataStore|))
            && |rows| - m - m == |s.dataStore|
  {
  }
}
