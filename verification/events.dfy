/**
 * Runs of the acquisition loop over a sequence of presence readings, and what
 * one whole acquisition (idle, presence, falling edge) writes.
 */
module Events {
  import opened Samples
  import opened PreRoll
  import opened Acquisition
  import opened Wrappers

  /**
   * One presence reading delivered to the loop, with the `time.Now()` of a
   * possible rising edge and the device reads of that iteration.
   */
  datatype Tick = Tick(presence: bool, clock: int, next: nat -> Reading)

  /** The loop over a sequence of presence readings: final state and records written. */
  function Run(s: State, m: Margin, ticks: seq<Tick>): (r: (State, seq<Record>))
    requires Inv(s, m)
    ensures Inv(r.0, m)
    decreases |ticks|
  {
    if ticks == [] then (s, [])
    else
      var o := Step(s, m, ticks[0].presence, ticks[0].clock, ticks[0].next);
      var rest := Run(o.state, m, ticks[1..]);
      (rest.0, Emitted(o.record) + rest.1)
  }

  /** The run after one iteration: its final state and the records that follow its own. */
  lemma RunCons(s: State, m: Margin, ticks: seq<Tick>)
    requires Inv(s, m) && ticks != []
    ensures var o := Step(s, m, ticks[0].presence, ticks[0].clock, ticks[0].next);
            && Run(s, m, ticks).0 == Run(o.state, m, ticks[1..]).0
            && Run(s, m, ticks).1 == Emitted(o.record) + Run(o.state, m, ticks[1..]).1
  {
  }

  /** An iteration that writes no record leaves the rest of the run to its successor state. */
  lemma RunQuiet(s: State, m: Margin, ticks: seq<Tick>)
    requires Inv(s, m) && ticks != []
    requires Step(s, m, ticks[0].presence, ticks[0].clock, ticks[0].next).record.None?
    ensures Run(s, m, ticks) == Run(Step(s, m, ticks[0].presence, ticks[0].clock, ticks[0].next).state, m, ticks[1..])
  {
    var o := Step(s, m, ticks[0].presence, ticks[0].clock, ticks[0].next);
    RunCons(s, m, ticks);
    NothingWritten(o, Run(o.state, m, ticks[1..]).1);
  }

  /** Sequence step stated on its own so that the run proofs stay small. */
  lemma NothingWritten(o: Outcome, rest: seq<Record>)
    requires o.record.None?
    ensures Emitted(o.record) + rest == rest
  {
  }

  /** The sample of the first device read of each iteration. */
  function FirstReads(ticks: seq<Tick>): (xs: seq<Sample>)
    ensures |xs| == |ticks|
  {
    seq(|ticks|, i requires 0 <= i < |ticks| => Decode(ticks[i].next(0)))
  }

  predicate AllPresence(ticks: seq<Tick>, p: bool)
  {
    forall i :: 0 <= i < |ticks| ==> ticks[i].presence == p
  }

  /**
   * Records carry consecutive acquisition numbers, and the state's number
   * counts the records written so far.
   */
  lemma {:induction false} RunNumbering(s: State, m: Margin, ticks: seq<Tick>)
    requires Inv(s, m)
    ensures Run(s, m, ticks).0.acquisitionNum == s.acquisitionNum + |Run(s, m, ticks).1|
    ensures forall k :: 0 <= k < |Run(s, m, ticks).1| ==> Run(s, m, ticks).1[k].num == s.acquisitionNum + k
    decreases |ticks|
  {
    if ticks != [] {
      var o := Step(s, m, ticks[0].presence, ticks[0].clock, ticks[0].next);
      RunNumbering(o.state, m, ticks[1..]);
    }
  }

  /** From program start the k-th record written is acquisition number k. */
  lemma RunFromStart(m: Margin, ticks: seq<Tick>)
    ensures forall k :: 0 <= k < |Run(Start(m), m, ticks).1| ==> Run(Start(m), m, ticks).1[k].num == k
  {
    RunNumbering(Start(m), m, ticks);
  }

  /** Running over a + b is running over a, then over b from where a left off. */
  lemma {:induction false} RunAppend(s: State, m: Margin, a: seq<Tick>, b: seq<Tick>)
    requires Inv(s, m)
    ensures var ra := Run(s, m, a);
            var rb := Run(ra.0, m, b);
            Run(s, m, a + b) == (rb.0, ra.1 + rb.1)
    decreases |a|
  {
    if a == [] {
      assert a + b == b;
      AppendEmpty(Run(s, m, b).1);
    } else {
      var o := Step(s, m, a[0].presence, a[0].clock, a[0].next);
      ConsAppend(a, b);
      RunCons(s, m, a);
      RunCons(s, m, a + b);
      RunAppend(o.state, m, a[1..], b);
      var ra' := Run(o.state, m, a[1..]);
      AppendAssoc(Emitted(o.record), ra'.1, Run(ra'.0, m, b).1);
    }
  }

  /** Sequence step stated on its own so that the run proofs stay small. */
  lemma ConsAppend(a: seq<Tick>, b: seq<Tick>)
    requires a != []
    ensures a + b != [] && (a + b)[0] == a[0] && (a + b)[1..] == a[1..] + b
  {
  }

  /** Sequence step stated on its own so that the run proofs stay small. */
  lemma AppendEmpty(x: seq<Record>)
    ensures [] + x == x
  {
  }

  /** Sequence step stated on its own so that the run proofs stay small. */
  lemma AppendAssoc(x: seq<Record>, y: seq<Record>, z: seq<Record>)
    ensures x + (y + z) == (x + y) + z
  {
  }

  /** Idle readings only feed the pre-roll ring, one write per reading. */
  lemma {:induction false} RunIdle(s: State, m: Margin, ticks: seq<Tick>)
    requires Inv(s, m) && !s.presenceBefore && AllPresence(ticks, false)
    ensures Run(s, m, ticks) == (s.(pre := PushAll(s.pre, m, FirstReads(ticks))), [])
    decreases |ticks|
  {
    if ticks != [] {
      var x := Decode(ticks[0].next(0));
      assert !ticks[0].presence;
      var o := Step(s, m, ticks[0].presence, ticks[0].clock, ticks[0].next);
      assert o.state == s.(pre := Push(s.pre, m, x)) && o.record.None?;
      RunIdle(o.state, m, ticks[1..]);
      RunQuiet(s, m, ticks);
      assert FirstReads(ticks)[0] == x;
      assert FirstReads(ticks)[1..] == FirstReads(ticks[1..]);
      assert PushAll(s.pre, m, FirstReads(ticks)) == PushAll(Push(s.pre, m, x), m, FirstReads(ticks[1..]));
    }
  }

  /** Readings during presence only append to the capture list, one sample each. */
  lemma {:induction false} RunCapture(s: State, m: Margin, ticks: seq<Tick>)
    requires Inv(s, m) && s.presenceBefore && AllPresence(ticks, true)
    ensures Run(s, m, ticks) == (s.(dataStore := s.dataStore + FirstReads(ticks)), [])
    decreases |ticks|
  {
    if ticks != [] {
      var x := Decode(ticks[0].next(0));
      assert ticks[0].presence;
      var o := Step(s, m, ticks[0].presence, ticks[0].clock, ticks[0].next);
      assert o.state == s.(dataStore := s.dataStore + [x]) && o.record.None?;
      RunCapture(o.state, m, ticks[1..]);
      RunQuiet(s, m, ticks);
      assert FirstReads(ticks) == [x] + FirstReads(ticks[1..]);
      assert s.dataStore + [x] + FirstReads(ticks[1..]) == s.dataStore + FirstReads(ticks);
    } else {
      assert s.dataStore + FirstReads(ticks) == s.dataStore;
    }
  }

  /**
   * One whole acquisition: idle readings, then readings with presence, then
   * the falling edge. Exactly one record is written. Its rows are numbered
   * 1..m+|C|+m and hold, in order, the m samples the pre-roll ring returns
   * (the last m of its old contents followed by the idle samples H), the
   * samples C read during presence and the m post-roll samples P; only the
   * rows of C have flag 1. The shift time is the time of the first pre-roll
   * sample, or the rising-edge instant when m is 0.
   */
  lemma Event(s: State, m: Margin, idle: seq<Tick>, capture: seq<Tick>, fall: Tick)
    requires Inv(s, m) && !s.presenceBefore
    requires AllPresence(idle, false) && AllPresence(capture, true) && capture != [] && !fall.presence
    ensures var r := Run(s, m, idle + capture + [fall]);
            var H, C, P := FirstReads(idle), FirstReads(capture), PostRoll(m, fall.next);
            var pre := (Snapshot(s.pre, m) + H)[|H|..];
            && |r.1| == 1
            && r.1[0].num == s.acquisitionNum
            && |r.1[0].rows| == m + |C| + m
            && (forall i :: 0 <= i < |r.1[0].rows| ==> r.1[0].rows[i].num == i + 1)
            && (forall i :: 0 <= i < |r.1[0].rows| ==> (r.1[0].rows[i].flag == 1 <==> m <= i < m + |C|))
            && (forall i :: 0 <= i < |r.1[0].rows| ==> RowOf(r.1[0].rows[i], (pre + C + P)[i], r.1[0].shiftTime))
            && (m == 0 ==> r.1[0].shiftTime == capture[0].clock)
            && (m > 0 ==> r.1[0].shiftTime == pre[0].time && r.1[0].rows[0].offsetUs == 0)
            && r.0 == Reset(s, m, r.1[0].shiftTime)
  {
    var H, C, P := FirstReads(idle), FirstReads(capture), PostRoll(m, fall.next);
    var s3 := Captured(s, m, idle, capture);
    EventRun(s, m, idle, capture, fall);
    FallOnce(s3, m, fall);
    PushAllSnapshot(s.pre, m, H);
    SeqAssoc((Snapshot(s.pre, m) + H)[|H|..], C, P);
  }

  /** A whole acquisition writes exactly its record and ends in the reset state. */
  lemma EventRun(s: State, m: Margin, idle: seq<Tick>, capture: seq<Tick>, fall: Tick)
    requires Inv(s, m) && !s.presenceBefore
    requires AllPresence(idle, false) && AllPresence(capture, true) && capture != [] && !fall.presence
    ensures Run(s, m, idle + capture + [fall]) == Run(Captured(s, m, idle, capture), m, [fall])
  {
    RunUntilFall(s, m, idle, capture);
    RunAppendQuiet(s, m, idle + capture, [fall]);
  }

  /** A prefix that writes nothing only moves the state the rest starts from. */
  lemma RunAppendQuiet(s: State, m: Margin, a: seq<Tick>, b: seq<Tick>)
    requires Inv(s, m) && Run(s, m, a).1 == []
    ensures Run(s, m, a + b) == Run(Run(s, m, a).0, m, b)
  {
    RunAppend(s, m, a, b);
    AppendEmpty(Run(Run(s, m, a).0, m, b).1);
  }

  /** The state just before the falling edge: ring fed with the idle samples, capture list C. */
  function Captured(s: State, m: Margin, idle: seq<Tick>, capture: seq<Tick>): (s3: State)
    requires Inv(s, m) && capture != []
    ensures Inv(s3, m)
  {
    State(true, PushAll(s.pre, m, FirstReads(idle)), FirstReads(capture), capture[0].clock, s.acquisitionNum)
  }

  /**
   * Idle readings then readings with presence write nothing; the rising edge
   * fixes the shift time at its own instant.
   */
  lemma RunUntilFall(s: State, m: Margin, idle: seq<Tick>, capture: seq<Tick>)
    requires Inv(s, m) && !s.presenceBefore
    requires AllPresence(idle, false) && AllPresence(capture, true) && capture != []
    ensures Run(s, m, idle + capture) == (Captured(s, m, idle, capture), [])
  {
    RunAppend(s, m, idle, capture);
    RunIdle(s, m, idle);
    var s1 := s.(pre := PushAll(s.pre, m, FirstReads(idle)));
    var x := Decode(capture[0].next(0));
    assert capture[0].presence;
    var o := Step(s1, m, capture[0].presence, capture[0].clock, capture[0].next);
    assert o.state == s1.(presenceBefore := true, dataStore := [x], shiftTime := capture[0].clock);
    RunQuiet(s1, m, capture);
    RunCapture(o.state, m, capture[1..]);
    assert FirstReads(capture) == [x] + FirstReads(capture[1..]);
    AppendEmpty([]);
  }

  /** The falling edge writes the record of the state it ends. */
  lemma FallOnce(s: State, m: Margin, fall: Tick)
    requires Inv(s, m) && s.presenceBefore && !fall.presence
    ensures var rec := Flush(s.(dataStore := s.dataStore + PostRoll(m, fall.next)), m);
            Run(s, m, [fall]) == (Reset(s, m, rec.shiftTime), [rec])
  {
    RunCons(s, m, [fall]);
    var o := Step(s, m, fall.presence, fall.clock, fall.next);
    assert [fall][1..] == [];
    AppendNothing(Emitted(o.record));
  }

  /** Sequence step stated on its own so that the run proofs stay small. */
  lemma AppendNothing(x: seq<Record>)
    ensures x + [] == x
  {
  }

  /** Sequence step stated on its own so that the run proofs stay small. */
  lemma SeqAssoc(x: seq<Sample>, y: seq<Sample>, z: seq<Sample>)
    ensures x + (y + z) == x + y + z
  {
  }

  /**
   * Starting from an empty ring (program start, or right after a flush) the
   * pre-roll rows are the min(|H|, m) most recent idle samples, preceded by
   * zero-valued slots that were never written when fewer than m idle readings
   * happened.
   */
  lemma EventPreRoll(s: State, m: Margin, idle: seq<Tick>)
    requires Inv(s, m) && Snapshot(s.pre, m) == Zeros(m)
    ensures var H := FirstReads(idle);
            && (|H| >= m ==> (Snapshot(s.pre, m) + H)[|H|..] == H[|H| - m..])
            && (|H| < m ==> (Snapshot(s.pre, m) + H)[|H|..] == Zeros(m - |H|) + H)
  {
    var H := FirstReads(idle);
    if |H| >= m {
      assert (Zeros(m) + H)[|H|..] == H[|H| - m..];
    } else {
      assert (Zeros(m) + H)[|H|..] == Zeros(m - |H|) + H;
    }
  }

  /** A sample at the given instant in microseconds, all axes 0. */
  function At(us: int): Sample
  {
    Sample(us * 1000, Axes(0, 0, 0), Axes(0, 0, 0))
  }

  /**
   * Margin 2; the ring holds samples at 100 and 200 µs with the cursor on the
   * later one; presence captured samples at 300 and 400 µs and the post-roll
   * read 500 and 600 µs. The record has six rows numbered 1..6 with offsets
   * 0, 100, ..., 500 µs from the first pre-roll sample, and the flag is 1 on
   * the two rows captured during presence only.
   */
  lemma FlushExample()
    ensures var s := State(true, Ring([At(100), At(200)], 1), [At(300), At(400), At(500), At(600)], 300000, 7);
            var rec := Flush(s, 2);
            && rec.num == 7
            && |rec.rows| == 6
            && rec.shiftTime == 100000
            && (forall i :: 0 <= i < 6 ==> rec.rows[i].num == i + 1 && rec.rows[i].offsetUs == 100 * i)
            && (forall i :: 0 <= i < 6 ==> rec.rows[i].flag == (if i == 2 || i == 3 then 1 else 0))
  {
    var s := State(true, Ring([At(100), At(200)], 1), [At(300), At(400), At(500), At(600)], 300000, 7);
    var src := Snapshot(s.pre, 2) + s.dataStore;
    assert src == [At(100), At(200), At(300), At(400), At(500), At(600)];
  }
}
