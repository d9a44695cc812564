/** Single-producer single-consumer rings addressed by free-running u32 counters.

    A ring of n slots keeps record number c (a u32 that wraps) in slot c % n.  Three
    rings of the data path work this way: the cross-core ring (2048 slots), the log
    staging ring (1536 slots) and the stream FIFO (256 slots).  Whether such a ring is
    a FIFO across the wrap of its counters depends on n. */
module Rings {
  import opened Words

  /** The record number i after `tail`: `tail + i` on uint32_t. */
  function Nth(tail: u32, i: nat): u32 {
    Wrap(tail + i)
  }

  /** Slot of record number c in a ring of n slots. */
  function Slot(c: u32, n: int): (s: nat)
    requires n > 0
    ensures s < n
  {
    c % n
  }

  /** The records in `queue`, oldest first, are the ones outstanding in the ring. */
  ghost predicate Holds<T>(slots: seq<T>, head: u32, tail: u32, queue: seq<T>) {
    && 0 < |slots| < TWO32
    && |queue| <= |slots|
    && Sub(head, tail) == |queue|
    && forall i :: 0 <= i < |queue| ==> slots[Slot(Nth(tail, i), |slots|)] == queue[i]
  }

  /** With q records outstanding, the next one goes to the slot of the i-th of them. */
  predicate ClashAt(tail: u32, q: nat, n: int, i: nat)
    requires n > 0
  {
    i < q && Slot(Nth(tail, i), n) == Slot(Nth(tail, q), n)
  }

  ghost predicate Clash(tail: u32, q: nat, n: int)
    requires n > 0
  {
    exists i: nat :: ClashAt(tail, q, n, i)
  }

  lemma CounterFacts(head: u32, tail: u32)
    ensures Nth(tail, Sub(head, tail)) == head
    ensures Sub(head, tail) + 1 < TWO32 ==> Sub(Wrap(head + 1), tail) == Sub(head, tail) + 1
  {
  }

  lemma PoppedCounterFacts(head: u32, tail: u32, k: nat)
    requires k <= Sub(head, tail)
    ensures Sub(head, Nth(tail, k)) == Sub(head, tail) - k
    ensures forall i: nat :: Nth(Nth(tail, k), i) == Nth(tail, k + i)
  {
  }

  /** The outstanding records of a ring, oldest first. */
  function Outstanding<T>(slots: seq<T>, head: u32, tail: u32): (queue: seq<T>)
    requires 0 < |slots| < TWO32 && Sub(head, tail) <= |slots|
    ensures Holds(slots, head, tail, queue)
  {
    seq(Sub(head, tail), i requires 0 <= i < Sub(head, tail) => slots[Slot(Nth(tail, i), |slots|)])
  }

  lemma HeldIsOutstanding<T>(slots: seq<T>, head: u32, tail: u32, queue: seq<T>)
    requires Holds(slots, head, tail, queue)
    ensures Outstanding(slots, head, tail) == queue
  {
  }

  lemma EmptyHolds<T>(slots: seq<T>, head: u32)
    requires 0 < |slots| < TWO32
    ensures Holds(slots, head, head, [])
  {
  }

  /** `ring[head % n] = x; head++` appends x to the queue when the slots do not clash. */
  lemma PushAppends<T>(slots: seq<T>, head: u32, tail: u32, queue: seq<T>, x: T)
    requires Holds(slots, head, tail, queue)
    requires |queue| < |slots|
    requires !Clash(tail, |queue|, |slots|)
    ensures Holds(slots[Slot(head, |slots|) := x], Wrap(head + 1), tail, queue + [x])
  {
    var n, q := |slots|, |queue|;
    var after := slots[Slot(head, n) := x];
    CounterFacts(head, tail);
    forall i | 0 <= i < q + 1
      ensures after[Slot(Nth(tail, i), n)] == (queue + [x])[i]
    {
      if i < q {
        assert !ClashAt(tail, q, n, i);
      }
    }
  }

  /** When they do clash, the push silently replaces an outstanding record. */
  lemma {:induction false} ClashingPushCorrupts<T>(slots: seq<T>, head: u32, tail: u32, queue: seq<T>, x: T, i: nat)
    requires Holds(slots, head, tail, queue)
    requires |queue| < |slots|
    requires ClashAt(tail, |queue|, |slots|, i)
    requires x != queue[i]
    ensures !Holds(slots[Slot(head, |slots|) := x], Wrap(head + 1), tail, queue + [x])
  {
    var after := slots[Slot(head, |slots|) := x];
    CounterFacts(head, tail);
    assert after[Slot(Nth(tail, i), |slots|)] == x;
    assert (queue + [x])[i] == queue[i];
  }

  /** Copying the k oldest records and publishing `tail + k` removes them. */
  lemma PopRemoves<T>(slots: seq<T>, head: u32, tail: u32, queue: seq<T>, k: nat)
    requires Holds(slots, head, tail, queue)
    requires k <= |queue|
    ensures Holds(slots, head, Nth(tail, k), queue[k..])
    ensures forall i :: 0 <= i < k ==> slots[Slot(Nth(tail, i), |slots|)] == queue[i]
  {
    var rest := queue[k..];
    PoppedCounterFacts(head, tail, k);
    forall i | 0 <= i < |rest|
      ensures slots[Slot(Nth(Nth(tail, k), i), |slots|)] == rest[i]
    {
      assert rest[i] == queue[k + i];
    }
  }

  lemma AddMultiple(a: int, n: int, k: nat)
    requires n > 0
    ensures (a + n * k) % n == a % n
    decreases k
  {
    if k > 0 {
      AddMultiple(a, n, k - 1);
      assert a + n * k == (a + n * (k - 1)) + n;
      AddOnce(a + n * (k - 1), n);
    }
  }

  lemma AddOnce(b: int, n: int)
    requires n > 0
    ensures (b + n) % n == b % n
  {
    var q, r := b / n, b % n;
    assert b + n == n * (q + 1) + r;
    UniqueDivision(b + n, n, q + 1, r);
  }

  lemma UniqueDivision(x: int, n: int, q: int, r: int)
    requires n > 0 && 0 <= r < n && x == n * q + r
    ensures x % n == r
  {
    var d := x / n - q;
    assert n * d == n * (x / n) - n * q;
    if d >= 1 {
      MultipleGrows(n, d);
    } else if d <= -1 {
      MultipleGrows(n, -d);
      assert n * d == -(n * -d);
    }
  }

  lemma MultipleGrows(n: int, d: int)
    requires n > 0 && d >= 1
    ensures n * d >= n
  {
  }

  /** For n dividing 2^32 the wrap of a counter does not move its slot. */
  lemma WrapKeepsSlot(x: nat, n: int)
    requires n > 0 && TWO32 % n == 0
    ensures Wrap(x) % n == x % n
  {
    var m, q := TWO32 / n, x / TWO32;
    assert TWO32 == n * m;
    assert x == Wrap(x) + TWO32 * q;
    assert TWO32 * q == n * (m * q) by {
      assert n * m * q == n * (m * q);
    }
    AddMultiple(Wrap(x), n, m * q);
  }

  /** Two record numbers less than n apart never share a slot. */
  lemma NearbySlotsDiffer(a: nat, b: nat, n: int)
    requires n > 0 && a < b < a + n
    ensures a % n != b % n
  {
    var d := b / n - a / n;
    assert b - a == n * d + b % n - a % n by {
      assert n * d == n * (b / n) - n * (a / n);
    }
    if d >= 1 {
      MultipleGrows(n, d);
    } else if d <= -1 {
      MultipleGrows(n, -d);
      assert n * d == -(n * -d);
    }
  }

  /** Every ring whose size divides 2^32 is an exact FIFO, wrap or no wrap. */
  lemma DividingRingNeverClashes(tail: u32, q: nat, n: int)
    requires 0 < n < TWO32 && TWO32 % n == 0
    requires q < n
    ensures !Clash(tail, q, n)
  {
    forall i: nat | i < q
      ensures Slot(Nth(tail, i), n) != Slot(Nth(tail, q), n)
    {
      WrapKeepsSlot(tail + i, n);
      WrapKeepsSlot(tail + q, n);
      NearbySlotsDiffer(tail + i, tail + q, n);
    }
  }

  const STAGE_N: int := 1536

  /** The wrap condition under which the 1536-slot staging ring loses a record: the
      head counter has wrapped past its tail, at least 1024 records are outstanding and
      the head is still among its first 1024 values. */
  predicate StagingWrapHazard(head: u32, tail: u32) {
    head < tail && Sub(head, tail) >= 1024 && head < 1024
  }

  lemma StageDistinct(x: nat, y: nat)
    requires x < y < x + STAGE_N
    ensures x % STAGE_N != y % STAGE_N
  {
  }

  /** 2^32 is 1024 more than a multiple of 1536. */
  lemma StageWrapShift(b: nat)
    requires b >= TWO32
    ensures Wrap(b) == b % TWO32
    ensures (b - TWO32) % STAGE_N == (b - 1024) % STAGE_N
  {
    var c, k := b - TWO32, 2796202;
    assert b - 1024 == c + STAGE_N * k;
    AddMultiple(c, STAGE_N, k);
  }

  /** Two record numbers less than one staging ring apart share a slot only when the wrap
      lies between them and they are 1024 apart. */
  lemma StagingSlotsShared(a: nat, b: nat)
    requires a < b < a + STAGE_N && a < TWO32
    ensures Wrap(a) % STAGE_N == Wrap(b) % STAGE_N <==> b >= TWO32 && b == a + 1024
  {
    if b >= TWO32 {
      StageWrapShift(b);
      assert Wrap(b) == b - TWO32;
      if b - 1024 < a {
        StageDistinct(b - 1024, a);
      } else if a < b - 1024 {
        StageDistinct(a, b - 1024);
      }
    } else {
      StageDistinct(a, b);
    }
  }

  lemma StagingClashAt(tail: u32, q: nat, i: nat)
    requires i < q < STAGE_N
    ensures ClashAt(tail, q, STAGE_N, i) <==> tail + i < TWO32 <= tail + q && q == i + 1024
  {
    if tail + i < TWO32 {
      StagingSlotsShared(tail + i, tail + q);
    } else {
      assert Nth(tail, q) == Nth(tail, i) + (q - i);
    }
  }

  /** The staging ring, whose size does not divide 2^32, clashes exactly there. */
  lemma StagingClashesIffHazard(head: u32, tail: u32)
    requires Sub(head, tail) < STAGE_N
    ensures Clash(tail, Sub(head, tail), STAGE_N) <==> StagingWrapHazard(head, tail)
  {
    var q := Sub(head, tail);
    forall i: nat | i < q
      ensures ClashAt(tail, q, STAGE_N, i) <==> tail + i < TWO32 <= tail + q && q == i + 1024
    {
      StagingClashAt(tail, q, i);
    }
    if StagingWrapHazard(head, tail) {
      assert ClashAt(tail, q, STAGE_N, q - 1024);
    }
  }
}
