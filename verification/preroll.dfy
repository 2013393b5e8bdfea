/**
 * The pre-roll ring of the acquisition loop: the slice `preDataStore` together
 * with its cursor `lastValue`. While nobody is present each loop iteration
 * writes one sample at the slot after the cursor; at flush time the first
 * `margin` slots are read starting after the cursor, wrapping around once.
 */
module PreRoll {
  import opened Samples

  /** Capacity of the ring (`PRE_DATA_CAP`), also the upper bound of the margin. */
  const PRE_DATA_CAP: int := 1000

  /** A margin after clamping. */
  type Margin = m: int | 0 <= m <= PRE_DATA_CAP

  /** The slots of `preDataStore` and the cursor `lastValue`. */
  datatype Ring = Ring(slots: seq<Sample>, last: int)

  /**
   * The shape every reachable ring has for margin m: at least m slots, and a
   * cursor that is -1 (just reset), 0 (never written, or m == 0) or a slot
   * below m.
   */
  predicate Valid(r: Ring, m: Margin)
  {
    && m <= |r.slots|
    && -1 <= r.last
    && (if m > 0 then r.last < m else r.last <= 0)
  }

  /** The ring at program start: `make([]TimAccGyr, margin)` and `lastValue` at Go's zero value. */
  function Initial(m: Margin): (r: Ring)
    ensures Valid(r, m)
    ensures Snapshot(r, m) == Zeros(m)
  {
    Ring(Zeros(m), 0)
  }

  /** The ring after a flush: `make([]TimAccGyr, PRE_DATA_CAP)` and `lastValue = -1`. */
  function Fresh(): Ring
  {
    Ring(Zeros(PRE_DATA_CAP), -1)
  }

  lemma FreshIsEmpty(m: Margin)
    ensures Valid(Fresh(), m)
    ensures Snapshot(Fresh(), m) == Zeros(m)
  {
  }

  function Zeros(n: nat): (z: seq<Sample>)
    ensures |z| == n
  {
    seq(n, _ => ZERO_SAMPLE)
  }

  /** A value in [0, 2m) reduced modulo m by at most one subtraction. */
  lemma ModSmall(x: int, m: int)
    requires 0 <= x < 2 * m
    ensures x % m == if x < m then x else x - m
  {
    if x >= m {
      assert x == 1 * m + (x - m);
    }
  }

  /** The slot visited i-th by the flush: `(lastValue + 1 + i) % margin`. */
  function Slot(r: Ring, m: Margin, i: int): (k: int)
    requires Valid(r, m) && 0 <= i < m
    ensures 0 <= k < m
    ensures k == if r.last + 1 + i < m then r.last + 1 + i else r.last + 1 + i - m
  {
    ModSmall(r.last + 1 + i, m);
    (r.last + 1 + i) % m
  }

  /** Where in the flush order slot k is read. */
  function Position(r: Ring, m: Margin, k: int): (i: int)
    requires Valid(r, m) && 0 <= k < m
    ensures 0 <= i < m
    ensures Slot(r, m, i) == k
  {
    if k > r.last then k - r.last - 1 else k - r.last - 1 + m
  }

  /**
   * The flush visits every one of the m slots exactly once: it starts right
   * after the cursor, advances by one modulo m, and ends on the cursor's slot
   * (slot m - 1 when the cursor is -1).
   */
  lemma SlotOrder(r: Ring, m: Margin)
    requires Valid(r, m) && m > 0
    ensures Slot(r, m, 0) == (r.last + 1) % m
    ensures Slot(r, m, m - 1) == (r.last + m) % m
    ensures r.last >= 0 ==> Slot(r, m, m - 1) == r.last
    ensures forall i :: 0 <= i < m - 1 ==> Slot(r, m, i + 1) == (Slot(r, m, i) + 1) % m
    ensures forall i, j :: 0 <= i < j < m ==> Slot(r, m, i) != Slot(r, m, j)
    ensures forall k :: 0 <= k < m ==> Position(r, m, k) < m && Slot(r, m, Position(r, m, k)) == k
  {
    ModSmall(r.last + 1, m);
    ModSmall(r.last + m, m);
    forall i | 0 <= i < m - 1
      ensures Slot(r, m, i + 1) == (Slot(r, m, i) + 1) % m
    {
      ModSmall(Slot(r, m, i) + 1, m);
    }
  }

  /**
   * The idle write: `lastValue = (lastValue + 1) % margin` and the sample goes
   * into that slot. With margin 0 nothing is read or written.
   */
  function Push(r: Ring, m: Margin, x: Sample): (r': Ring)
    requires Valid(r, m)
    ensures Valid(r', m)
    ensures |r'.slots| == |r.slots|
    ensures m == 0 ==> r' == r
    ensures m > 0 ==> 0 <= r'.last < m && r'.last == (r.last + 1) % m && r'.slots[r'.last] == x
    ensures forall k :: 0 <= k < |r.slots| && k != r'.last ==> r'.slots[k] == r.slots[k]
  {
    if m == 0 then r
    else
      var k := (r.last + 1) % m;
      Ring(r.slots[k := x], k)
  }

  /** The m samples a flush reads, in the order it reads them. */
  function Snapshot(r: Ring, m: Margin): (s: seq<Sample>)
    requires Valid(r, m)
    ensures |s| == m
    ensures forall i :: 0 <= i < m ==> s[i] == r.slots[Slot(r, m, i)]
  {
    seq(m, i requires 0 <= i < m => r.slots[Slot(r, m, i)])
  }

  /**
   * A write drops the oldest sample of the snapshot and appends the new one:
   * the ring behaves as a queue of the m most recent samples.
   */
  lemma {:induction false} PushSnapshot(r: Ring, m: Margin, x: Sample)
    requires Valid(r, m)
    ensures m == 0 ==> Snapshot(Push(r, m, x), m) == []
    ensures m > 0 ==> Snapshot(Push(r, m, x), m) == Snapshot(r, m)[1..] + [x]
  {
    if m > 0 {
      var r' := Push(r, m, x);
      var s := Snapshot(r, m);
      var s' := Snapshot(r', m);
      ModSmall(r.last + 1, m);
      forall i | 0 <= i < m
        ensures s'[i] == (s[1..] + [x])[i]
      {
        if i < m - 1 {
          assert Slot(r', m, i) == Slot(r, m, i + 1);
          assert Slot(r', m, i) != r'.last;
        } else {
          assert Slot(r', m, i) == r'.last;
        }
      }
    }
  }

  /** A run of idle writes, oldest first. */
  function PushAll(r: Ring, m: Margin, h: seq<Sample>): (r': Ring)
    requires Valid(r, m)
    ensures Valid(r', m)
    ensures |r'.slots| == |r.slots|
    decreases |h|
  {
    if h == [] then r else PushAll(Push(r, m, h[0]), m, h[1..])
  }

  /**
   * After writes h the flush reads the last m samples of the old snapshot
   * followed by h, oldest first.
   */
  lemma {:induction false} PushAllSnapshot(r: Ring, m: Margin, h: seq<Sample>)
    requires Valid(r, m)
    ensures Snapshot(PushAll(r, m, h), m) == (Snapshot(r, m) + h)[|h|..]
    decreases |h|
  {
    if h == [] {
    } else {
      var r1 := Push(r, m, h[0]);
      PushAllSnapshot(r1, m, h[1..]);
      PushSnapshot(r, m, h[0]);
      if m > 0 {
        calc {
          Snapshot(PushAll(r, m, h), m);
          (Snapshot(r1, m) + h[1..])[|h| - 1..];
          (Snapshot(r, m)[1..] + [h[0]] + h[1..])[|h| - 1..];
          { assert Snapshot(r, m)[1..] + [h[0]] + h[1..] == (Snapshot(r, m) + h)[1..]; }
          (Snapshot(r, m) + h)[1..][|h| - 1..];
        }
      }
    }
  }

  /**
   * Starting from an empty ring, the flush reads exactly the min(n, m) most
   * recent of the n samples written, oldest first, preceded by zero-valued
   * slots that were never written.
   */
  lemma LiveSamples(r: Ring, m: Margin, h: seq<Sample>)
    requires Valid(r, m) && Snapshot(r, m) == Zeros(m)
    ensures |h| >= m ==> Snapshot(PushAll(r, m, h), m) == h[|h| - m..]
    ensures |h| < m ==> Snapshot(PushAll(r, m, h), m) == Zeros(m - |h|) + h
  {
    PushAllSnapshot(r, m, h);
    if |h| < m {
      assert (Zeros(m) + h)[|h|..] == Zeros(m - |h|) + h;
    } else {
      assert (Zeros(m) + h)[|h|..] == h[|h| - m..];
    }
  }

  /** The first write into the ring at program start lands in slot 1 % m. */
  lemma FirstWriteAtStart(m: Margin, x: Sample)
    requires m > 0
    ensures Push(Initial(m), m, x).last == 1 % m
  {
  }

  /** The first write after a flush lands in slot 0. */
  lemma FirstWriteAfterFlush(m: Margin, x: Sample)
    requires m > 0
    ensures Push(Fresh(), m, x).last == 0
    ensures Push(Fresh(), m, x).slots[0] == x
  {
  }
}
