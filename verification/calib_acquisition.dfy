/**
 * The acquisition loop of the older calibration program: no pre-roll ring and
 * no margin. A rising edge starts a new acquisition number and a new time
 * origin; every reading with presence appends one sample timed from that
 * origin; the falling edge dumps the capture list, rows numbered from 0, and
 * empties it.
 */
module CalibAcquisition {
  import opened Samples
  import opened Words
  import Clock
  import opened Wrappers

  /** A captured sample: its duration since the acquisition's time origin and its axes. */
  datatype Timed = Timed(tim: int, acc: Axes, gyr: Axes)

  /** The loop's variables: `presenceBefore`, `time0`, `acquisitionNum` and `dataStore`. */
  datatype CState = CState(presenceBefore: bool, time0: int, acquisitionNum: int, dataStore: seq<Timed>)

  /** A dumped line: index, duration in whole microseconds, raw axes. */
  datatype CRow = CRow(num: int, us: int, acc: Axes, gyr: Axes)

  /** The contents of one dumped file. */
  datatype CRecord = CRecord(num: int, rows: seq<CRow>)

  /** The state main enters the loop with; `time0` is the `time.Now()` taken before it. */
  function CStart(now: int): (s: CState)
    ensures CInv(s)
    ensures !s.presenceBefore && s.dataStore == [] && s.acquisitionNum == 0 && s.time0 == now
  {
    CState(false, now, 0, [])
  }

  /** What holds between iterations: the capture list is non-empty exactly during presence. */
  predicate CInv(s: CState)
  {
    && (s.presenceBefore <==> s.dataStore != [])
    && s.acquisitionNum >= (if s.presenceBefore then 1 else 0)
  }

  /**
   * One reading timed from the acquisition's origin: `time.Now().Sub(time0)`,
   * which is the exact difference unless it leaves the Duration range, and
   * the axes of the burst read as two's-complement big-endian words.
   */
  function Capture(rd: Reading, time0: int): (x: Timed)
    ensures Clock.MIN_DURATION <= rd.time - time0 <= Clock.MAX_DURATION ==> x.tim == rd.time - time0
    ensures rd.time - time0 > Clock.MAX_DURATION ==> x.tim == Clock.MAX_DURATION
    ensures rd.time - time0 < Clock.MIN_DURATION ==> x.tim == Clock.MIN_DURATION
    ensures Unsigned(x.acc.x) == Compose(rd.buf[0], rd.buf[1])
    ensures Unsigned(x.acc.y) == Compose(rd.buf[2], rd.buf[3])
    ensures Unsigned(x.acc.z) == Compose(rd.buf[4], rd.buf[5])
    ensures Unsigned(x.gyr.x) == Compose(rd.buf[8], rd.buf[9])
    ensures Unsigned(x.gyr.y) == Compose(rd.buf[10], rd.buf[11])
    ensures Unsigned(x.gyr.z) == Compose(rd.buf[12], rd.buf[13])
  {
    var d := Decode(rd);
    Timed(Clock.Sub(rd.time, time0), d.acc, d.gyr)
  }

  /**
   * A reading taken at or after the rising edge is dumped with the whole
   * microseconds elapsed since the edge and the axes the loop decoded.
   */
  lemma CaptureDumpRow(rd: Reading, time0: int, i: int)
    requires 0 <= rd.time - time0 <= Clock.MAX_DURATION
    ensures var row := DumpRow(i, Capture(rd, time0));
            && row.num == i
            && 1000 * row.us <= rd.time - time0 < 1000 * row.us + 1000
            && row.acc == Decode(rd).acc && row.gyr == Decode(rd).gyr
  {
  }

  /** The dumped file: row i is capture i with its duration divided by a microsecond, truncated. */
  function Dump(s: CState): (rec: CRecord)
    ensures rec.num == s.acquisitionNum
    ensures |rec.rows| == |s.dataStore|
    ensures forall i :: 0 <= i < |rec.rows| ==>
              && rec.rows[i].num == i
              && rec.rows[i].acc == s.dataStore[i].acc && rec.rows[i].gyr == s.dataStore[i].gyr
              && (s.dataStore[i].tim >= 0 ==> 1000 * rec.rows[i].us <= s.dataStore[i].tim < 1000 * rec.rows[i].us + 1000)
              && (s.dataStore[i].tim <= 0 ==> 1000 * rec.rows[i].us - 1000 < s.dataStore[i].tim <= 1000 * rec.rows[i].us)
  {
    CRecord(s.acquisitionNum, seq(|s.dataStore|, i requires 0 <= i < |s.dataStore| => DumpRow(i, s.dataStore[i])))
  }

  /** Dumped line i: the capture's axes and its duration in whole microseconds, truncated toward zero. */
  function DumpRow(i: int, x: Timed): (row: CRow)
    ensures row.num == i && row.acc == x.acc && row.gyr == x.gyr
    ensures x.tim >= 0 ==> 1000 * row.us <= x.tim < 1000 * row.us + 1000
    ensures x.tim <= 0 ==> 1000 * row.us - 1000 < x.tim <= 1000 * row.us
  {
    Clock.QuotRem(x.tim, Clock.MICROSECOND);
    CRow(i, Clock.Quot(x.tim, Clock.MICROSECOND), x.acc, x.gyr)
  }

  /** The dump loop `for i, value := range dataStore` as the program runs it. */
  method WriteDump(s: CState) returns (rec: CRecord)
    ensures rec == Dump(s)
  {
    var rows: seq<CRow> := [];
    var i := 0;
    while i < |s.dataStore|
      invariant 0 <= i <= |s.dataStore|
      invariant |rows| == i
      invariant forall j :: 0 <= j < i ==> rows[j] == DumpRow(j, s.dataStore[j])
    {
      var value := s.dataStore[i];
      rows := rows + [CRow(i, Clock.Quot(value.tim, Clock.MICROSECOND), value.acc, value.gyr)];
      i := i + 1;
    }
    rec := CRecord(s.acquisitionNum, rows);
  }

  /** One iteration: the new state and the file dumped, if any. */
  datatype COutcome = COutcome(state: CState, record: Option<CRecord>)

  /**
   * One iteration for one presence reading; `clock` is the `time.Now()` of a
   * rising edge and `rd` the reading taken during presence.
   */
  function CStep(s: CState, presenceNow: bool, clock: int, rd: Reading): (o: COutcome)
    requires CInv(s)
    ensures CInv(o.state)
    ensures o.state.presenceBefore == presenceNow
    ensures o.record.Some? <==> !presenceNow && s.presenceBefore
    ensures presenceNow && !s.presenceBefore ==>
              && o.state.acquisitionNum == s.acquisitionNum + 1
              && o.state.time0 == clock
              && o.state.dataStore == s.dataStore + [Capture(rd, clock)]
    ensures presenceNow && s.presenceBefore ==>
              o.state == s.(dataStore := s.dataStore + [Capture(rd, s.time0)])
    ensures !presenceNow && s.presenceBefore ==>
              && o.record.value == Dump(s)
              && o.state == s.(presenceBefore := false, dataStore := [])
    ensures !presenceNow && !s.presenceBefore ==> o.state == s
  {
    if presenceNow then
      var s1 := if s.presenceBefore then s else s.(time0 := clock, acquisitionNum := s.acquisitionNum + 1);
      COutcome(s1.(presenceBefore := true, dataStore := s1.dataStore + [Capture(rd, s1.time0)]), None)
    else if s.presenceBefore then
      COutcome(s.(presenceBefore := false, dataStore := []), Some(Dump(s)))
    else
      COutcome(s, None)
  }

  /** One presence reading delivered to the loop with its rising-edge instant and device read. */
  datatype CTick = CTick(presence: bool, clock: int, read: Reading)

  /** The loop over a sequence of presence readings: final state and files dumped. */
  function CRun(s: CState, ticks: seq<CTick>): (r: (CState, seq<CRecord>))
    requires CInv(s)
    ensures CInv(r.0)
    decreases |ticks|
  {
    if ticks == [] then (s, [])
    else
      var o := CStep(s, ticks[0].presence, ticks[0].clock, ticks[0].read);
      var rest := CRun(o.state, ticks[1..]);
      (rest.0, Emitted(o.record) + rest.1)
  }

  /** Acquisitions completed so far: the counter minus the one in progress. */
  function Completed(s: CState): int
  {
    s.acquisitionNum - (if s.presenceBefore then 1 else 0)
  }

  /**
   * Files carry consecutive acquisition numbers following the ones already
   * completed, and the counter accounts for every file dumped plus the
   * acquisition in progress.
   */
  lemma {:induction false} CRunNumbering(s: CState, ticks: seq<CTick>)
    requires CInv(s)
    ensures Completed(CRun(s, ticks).0) == Completed(s) + |CRun(s, ticks).1|
    ensures forall k :: 0 <= k < |CRun(s, ticks).1| ==> CRun(s, ticks).1[k].num == Completed(s) + k + 1
    decreases |ticks|
  {
    if ticks != [] {
      var o := CStep(s, ticks[0].presence, ticks[0].clock, ticks[0].read);
      CRunCons(s, ticks);
      CRunNumbering(o.state, ticks[1..]);
    }
  }

  lemma CRunCons(s: CState, ticks: seq<CTick>)
    requires CInv(s) && ticks != []
    ensures var o := CStep(s, ticks[0].presence, ticks[0].clock, ticks[0].read);
            && CRun(s, ticks).0 == CRun(o.state, ticks[1..]).0
            && CRun(s, ticks).1 == Emitted(o.record) + CRun(o.state, ticks[1..]).1
  {
  }

  /** From program start the k-th file written is acquisition number k + 1. */
  lemma CRunFromStart(now: int, ticks: seq<CTick>)
    ensures forall k :: 0 <= k < |CRun(CStart(now), ticks).1| ==> CRun(CStart(now), ticks).1[k].num == k + 1
  {
    CRunNumbering(CStart(now), ticks);
  }
}
