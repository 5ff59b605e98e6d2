/**
 * The GC-pause figure of the reporter's system statistics.
 *
 * The Go runtime keeps the durations of recent garbage collections in a
 * circular buffer of 256 slots (MemStats.PauseNs): the pause of the k-th
 * collection (counting from 0) is written to slot k % 256, and NumGC counts
 * the collections completed so far. The reporter reads slot NumGC % 256.
 * `RingAfter` is the reference definition of the runtime's buffer; the
 * lemmas below say which pause that slot holds.
 */
module GCPause {
  import opened GoInt

  /** Capacity of the runtime's circular buffer of pause durations. */
  const RingSize: nat := 256

  /** A snapshot of the pause buffer, in nanoseconds per slot. */
  type PauseRing = s: seq<nat> | |s| == RingSize witness seq(RingSize, _ => 0)

  /** The slot the reporter reads for a collection count `numGC`. */
  function PauseSlot(numGC: Uint32): (slot: nat)
    ensures slot < RingSize
    ensures (numGC - slot) % RingSize == 0
  {
    numGC % RingSize
  }

  /** The pause, in nanoseconds, that the reporter reports. */
  function ReportedPauseNanos(pauseNs: PauseRing, numGC: Uint32): nat
  {
    pauseNs[PauseSlot(numGC)]
  }

  /**
   * The buffer as the runtime leaves it after recording `pauses` in order,
   * starting from an all-zero buffer.
   */
  function RingAfter(pauses: seq<nat>): PauseRing
    decreases |pauses|
  {
    if pauses == [] then seq(RingSize, _ => 0)
    else
      var n := |pauses|;
      RingAfter(pauses[..n - 1])[(n - 1) % RingSize := pauses[n - 1]]
  }

  /** The buffer retains the last 256 pauses, each in slot (its index % 256). */
  lemma {:induction false} RingRetainsRecent(pauses: seq<nat>, i: nat)
    requires i < |pauses| <= i + RingSize
    ensures RingAfter(pauses)[i % RingSize] == pauses[i]
  {
    var n := |pauses|;
    if i < n - 1 {
      RingRetainsRecent(pauses[..n - 1], i);
      DistinctSlots(i, n - 1);
    }
  }

  /** Two distinct indices less than 256 apart land in distinct slots. */
  lemma DistinctSlots(i: nat, j: nat)
    requires i < j < i + RingSize
    ensures i % RingSize != j % RingSize
  {
    var qi, qj := i / RingSize, j / RingSize;
    assert qi <= qj <= qi + 1;
    if qj == qi {
      assert j % RingSize == i % RingSize + (j - i);
    } else {
      assert j % RingSize == i % RingSize + (j - i) - RingSize;
    }
  }

  /** Slots past the number of completed collections were never written. */
  lemma {:induction false} RingUnwritten(pauses: seq<nat>, slot: nat)
    requires |pauses| <= slot < RingSize
    ensures RingAfter(pauses)[slot] == 0
  {
    if pauses != [] {
      RingUnwritten(pauses[..|pauses| - 1], slot);
    }
  }

  /** The most recent pause sits in slot (NumGC - 1) % 256. */
  lemma {:induction false} LatestPauseSlot(pauses: seq<nat>)
    requires 0 < |pauses|
    ensures RingAfter(pauses)[(|pauses| - 1) % RingSize] == pauses[|pauses| - 1]
  {
  }

  /** Once the buffer has wrapped, slot NumGC % 256 holds pause NumGC - 256. */
  lemma {:induction false} OldestRetainedSlot(pauses: seq<nat>)
    requires RingSize <= |pauses|
    ensures RingAfter(pauses)[|pauses| % RingSize] == pauses[|pauses| - RingSize]
  {
    var k := |pauses| - RingSize;
    SlotAfterFullTurn(k);
    RingRetainsRecent(pauses, k);
  }

  /** Index k and index k + 256 share a slot. */
  lemma SlotAfterFullTurn(k: nat)
    ensures (k + RingSize) % RingSize == k % RingSize
  {
    var q, r := k / RingSize, k % RingSize;
    assert k + RingSize == (q + 1) * RingSize + r;
  }

  /**
   * What the reporter reports after `pauses`: 0 (a slot never written)
   * while fewer than 256 collections have run, including when none has,
   * and otherwise the OLDEST pause still in the buffer, not the latest.
   */
  lemma {:induction false} ReportedPauseIsOldestRetained(pauses: seq<nat>)
    requires |pauses| <= MaxUint32
    ensures ReportedPauseNanos(RingAfter(pauses), |pauses|)
            == if |pauses| < RingSize then 0 else pauses[|pauses| - RingSize]
  {
    var n := |pauses|;
    var ring := RingAfter(pauses);
    assert ReportedPauseNanos(ring, n) == ring[n % RingSize];
    if n < RingSize {
      RingUnwritten(pauses, n);
    } else {
      OldestRetainedSlot(pauses);
    }
  }

  /** After a single collection that paused 7 ns, the reporter reports 0 ns. */
  lemma ReportedPauseMissesLatest()
    ensures RingAfter([7])[0] == 7
    ensures ReportedPauseNanos(RingAfter([7]), 1) == 0
  {
    RingUnwritten([7], 1);
  }

  /**
   * The pause of the most recent collection, as the Go runtime documents
   * its buffer (the latest pause is in slot (NumGC + 255) % 256), with
   * 0 when no collection has run yet.
   */
  function LatestPauseNanos(pauseNs: PauseRing, numGC: Uint32): nat
  {
    if numGC == 0 then 0 else pauseNs[(numGC + RingSize - 1) % RingSize]
  }

  /** Reading that slot gives the latest pause, and 0 before any collection. */
  lemma {:induction false} LatestPauseNanosIsLatest(pauses: seq<nat>)
    requires |pauses| <= MaxUint32
    ensures LatestPauseNanos(RingAfter(pauses), |pauses|)
            == if |pauses| == 0 then 0 else pauses[|pauses| - 1]
  {
    var n := |pauses|;
    if n > 0 {
      LatestPauseSlot(pauses);
      assert (n + RingSize - 1) % RingSize == (n - 1) % RingSize by {
        assert n + RingSize - 1 == (n - 1) + RingSize;
      }
    }
  }
}
