/** That the writer gets on: what a drain must move, and when the staging ring is empty. */
module LogProgress {
  import opened Words
  import opened Rings
  import opened LogSpec
  import opened LogInvariant

  /** Records staged and not yet in the flash ring. */
  function Waiting(s: Log): nat {
    Sub(s.ram.head, s.ram.tail)
  }

  /** Records a drain took from the staging ring. */
  function Moved(s: Log, d: Log): nat {
    Sub(d.ram.tail, s.ram.tail)
  }

  ghost predicate CanDrain(s: Log) {
    Shaped(s) && Waiting(s) <= STAGE_N && s.ram.total + BATCH_RECS < TWO32
  }

  lemma TailDifference(tail: u32, n: nat)
    requires n <= BATCH_RECS
    ensures Sub(Nth(tail, n), tail) == n
  {
  }

  lemma DrainRam(s: Log)
    requires CanDrain(s)
    ensures var d, n := Drain(s), DrainCount(s.ram);
      && Shaped(d) && d.ram.head == s.ram.head && d.ram.tail == Nth(s.ram.tail, n)
      && d.ram.total == s.ram.total + n && Waiting(d) == Waiting(s) - n && Moved(s, d) == n
  {
    WrittenRam(s);
    PoppedCounterFacts(s.ram.head, s.ram.tail, DrainCount(s.ram));
    TailDifference(s.ram.tail, DrainCount(s.ram));
    if DrainCount(s.ram) == 0 {
      EmptyDrain(s);
    } else {
      RefreshTouchesDirectoryOnly(WroteBatch(s));
    }
  }

  lemma DifferentCounters(head: u32, tail: u32)
    ensures Sub(head, tail) == 0 <==> head == tail
  {
  }

  lemma AtTheWrap(total: nat, n: nat)
    requires n == REC_CAPACITY - total % REC_CAPACITY
    ensures (total + n) % REC_CAPACITY == 0
  {
  }

  /** A drain with anything staged moves the tail and the counter by the same number, at most
      256, and never over the wrap of the flash ring.  It stops short of emptying the staging
      ring only after a full batch or at the wrap. */
  lemma DrainMovesAllItMay(s: Log)
    requires CanDrain(s) && s.ram.head != s.ram.tail
    ensures var d := Drain(s);
      && d.ram.tail != s.ram.tail && d.ram.head == s.ram.head
      && 0 < Moved(s, d) <= 256 && d.ram.total == s.ram.total + Moved(s, d)
      && s.ram.total / 43478 <= d.ram.total / 43478 && (s.ram.total / 43478 < d.ram.total / 43478 ==> d.ram.total % 43478 == 0)
      && (d.ram.head == d.ram.tail || Moved(s, d) == 256 || d.ram.total % 43478 == 0)
  {
    var d, n := Drain(s), DrainCount(s.ram);
    DrainRam(s);
    DifferentCounters(s.ram.head, s.ram.tail);
    DifferentCounters(d.ram.head, d.ram.tail);
    DifferentCounters(d.ram.tail, s.ram.tail);
    if n == REC_CAPACITY - s.ram.total % REC_CAPACITY {
      AtTheWrap(s.ram.total, n);
    }
    BelowTheWrap(s.ram.total, n);
  }

  lemma BelowTheWrap(total: nat, n: nat)
    requires total % REC_CAPACITY + n <= REC_CAPACITY
    ensures total / REC_CAPACITY <= (total + n) / REC_CAPACITY
    ensures total / REC_CAPACITY < (total + n) / REC_CAPACITY ==> (total + n) % REC_CAPACITY == 0
  {
    var q, r := total / REC_CAPACITY, total % REC_CAPACITY;
    assert total + n == REC_CAPACITY * q + (r + n);
    if r + n < REC_CAPACITY {
      assert (total + n) / REC_CAPACITY == q;
    } else {
      assert total + n == REC_CAPACITY * (q + 1);
    }
  }

  /** Logs each of which is the one before after a drain. */
  ghost predicate AreDrains(trail: seq<Log>) {
    && (forall i :: 0 <= i < |trail| ==> Shaped(trail[i]))
    && (forall i :: 0 <= i < |trail| - 1 ==> IsDrain(trail[i], trail[i + 1]))
  }

  ghost predicate IsDrain(s: Log, d: Log)
    requires Shaped(s)
  {
    d == Drain(s)
  }

  /** The counter has room for all that is staged. */
  ghost predicate CanDrainAll(s: Log) {
    CanDrain(s) && s.ram.total + Waiting(s) + BATCH_RECS < TWO32
  }

  /** What one drain moves of w waiting records at counter t. */
  function Share(w: nat, t: nat): (n: nat)
    ensures n <= w && t % REC_CAPACITY + n <= REC_CAPACITY
  {
    Min(Min(w, 256), REC_CAPACITY - t % REC_CAPACITY)
  }

  /** What k drains leave of them. */
  function Left(w: nat, t: nat, k: nat): nat
    decreases k
  {
    if k == 0 then w else Left(w - Share(w, t), t + Share(w, t), k - 1)
  }

  /** The staging ring holds w records and the counter stands at t. */
  ghost predicate At(s: Log, w: nat, t: nat) {
    CanDrainAll(s) && Waiting(s) == w && s.ram.total == t
  }

  lemma OneDrain(s: Log, d: Log, w: nat, t: nat)
    requires At(s, w, t) && IsDrain(s, d)
    ensures At(d, w - Share(w, t), t + Share(w, t))
  {
    DrainRam(s);
  }

  lemma {:induction false} DrainsLeave(trail: seq<Log>, w: nat, t: nat)
    requires trail != [] && AreDrains(trail) && At(trail[0], w, t)
    ensures Waiting(trail[|trail| - 1]) == Left(w, t, |trail| - 1)
    decreases |trail|
  {
    if |trail| > 1 {
      assert IsDrain(trail[0], trail[0 + 1]);
      OneDrain(trail[0], trail[1], w, t);
      TailDrains(trail);
      DrainsLeave(trail[1..], w - Share(w, t), t + Share(w, t));
    }
  }

  lemma TailDrains(trail: seq<Log>)
    requires |trail| > 1 && AreDrains(trail)
    ensures AreDrains(trail[1..])
  {
    forall i | 0 <= i < |trail| - 2
      ensures IsDrain(trail[1..][i], trail[1..][i + 1])
    {
      assert IsDrain(trail[i + 1], trail[i + 1 + 1]);
    }
  }

  lemma Unwrapped(total: nat, n: nat)
    requires total % REC_CAPACITY + n < REC_CAPACITY
    ensures (total + n) % REC_CAPACITY == total % REC_CAPACITY + n
  {
  }

  lemma {:induction false} NothingLeft(t: nat, k: nat)
    ensures Left(0, t, k) == 0
    decreases k
  {
    if k > 0 { NothingLeft(t, k - 1); }
  }

  /** Away from the wrap every 256 staged records take one drain. */
  lemma {:induction false} UnclampedLeavesNone(w: nat, t: nat, k: nat)
    requires w <= 256 * k && t % REC_CAPACITY + w <= REC_CAPACITY
    ensures Left(w, t, k) == 0
    decreases k
  {
    var n := Share(w, t);
    if n == w {
      NothingLeft(t + n, if k > 0 then k - 1 else 0);
    } else {
      Unwrapped(t, n);
      UnclampedLeavesNone(w - n, t + n, k - 1);
    }
  }

  /** The wrap of the flash ring costs at most one drain more. */
  lemma {:induction false} LeavesNone(w: nat, t: nat, k: nat)
    requires w <= 256 * k <= REC_CAPACITY
    ensures Left(w, t, k + 1) == 0
    decreases k
  {
    var n := Share(w, t);
    if n == w {
      NothingLeft(t + n, k);
    } else if n == REC_CAPACITY - t % REC_CAPACITY {
      AtTheWrap(t, n);
      UnclampedLeavesNone(w - n, t + n, k);
    } else {
      LeavesNone(w - n, t + n, k - 1);
    }
  }

  /** Whatever is staged and wherever the write head is, seven drains empty the ring. */
  lemma SevenDrainsEmptyTheRing(trail: seq<Log>)
    requires |trail| == 8 && AreDrains(trail) && CanDrainAll(trail[0])
    ensures trail[7].ram.head == trail[7].ram.tail
  {
    DrainsLeave(trail, Waiting(trail[0]), trail[0].ram.total);
    LeavesNone(Waiting(trail[0]), trail[0].ram.total, 6);
    DifferentCounters(trail[7].ram.head, trail[7].ram.tail);
  }
}
