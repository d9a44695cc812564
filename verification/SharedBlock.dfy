/** One iteration of the FLPR sampling loop and one pass of the pump, on the shared block's
    own arrays and counters.  CrossCore.dfy proves that interleaving the two is safe; here
    each is proved to be the queue operation it stands for. */
module SharedBlockClass {
  import opened Words
  import opened Rings
  import opened CrossCore

  function Concat(chunks: seq<seq<Sample>>): seq<Sample> {
    if chunks == [] then [] else Concat(chunks[..|chunks| - 1]) + chunks[|chunks| - 1]
  }

  lemma ConcatSnoc(chunks: seq<seq<Sample>>, chunk: seq<Sample>)
    ensures Concat(chunks + [chunk]) == Concat(chunks) + chunk
  {
    assert (chunks + [chunk])[..|chunks|] == chunks;
  }

  class SharedBlock {
    var head: u32
    var tail: u32
    var overrun: u32
    var ring: array<Sample>
    var sampled: u32                  // FLPR side: DRDY reads, drops included
    var drainedTotal: u32             // pump side

    ghost predicate Valid()
      reads this
    {
      ring.Length == RING_N && Sub(head, tail) <= RING_N
    }

    /** The records published and not yet consumed, oldest first. */
    ghost function Queue(): (q: seq<Sample>)
      reads this, ring
      requires Valid()
    {
      Outstanding(ring[..], head, tail)
    }

    constructor ()
      ensures Valid() && Queue() == [] && overrun == sampled == drainedTotal == 0
    {
      head, tail, overrun, sampled, drainedTotal := 0, 0, 0, 0, 0;
      ring := new Sample[RING_N](_ => Sample(NO_READINGS, 0));
    }

    /** The sampling loop after a successful sensor read: publish, or count an overrun. */
    method TakeSample(values: Readings)
      requires Valid()
      modifies `head, `overrun, `sampled, ring
      ensures Valid() && sampled == Wrap(old(sampled) + 1)
      ensures var full := |old(Queue())| == RING_N;
        && Queue() == (if full then old(Queue()) else old(Queue()) + [Sample(values, sampled % SEQ16)])
        && overrun == (if full then Wrap(old(overrun) + 1) else old(overrun))
    {
      sampled := Wrap(sampled + 1);
      if Sub(head, tail) >= RING_N {
        overrun := Wrap(overrun + 1);
        return;
      }
      ghost var q, slots := Queue(), ring[..];
      DividingRingNeverClashes(tail, |q|, RING_N);
      PushAppends(slots, head, tail, q, Sample(values, sampled % SEQ16));
      CounterFacts(head, tail);
      var slot := Slot(head, RING_N);
      ring[slot] := Sample(values, sampled % SEQ16);
      head := Wrap(head + 1);
      assert ring[..] == slots[slot := Sample(values, sampled % SEQ16)];
      HeldIsOutstanding(ring[..], head, tail, q + [Sample(values, sampled % SEQ16)]);
    }

    /** Copies the n oldest records and frees their slots. */
    method TakeChunk(n: nat) returns (chunk: seq<Sample>)
      requires Valid() && n <= Sub(head, tail)
      modifies `tail, `drainedTotal
      ensures Valid() && chunk == old(Queue()[..n]) && Queue() == old(Queue()[n..])
      ensures drainedTotal == Wrap(old(drainedTotal) + n)
    {
      ghost var q := Queue();
      chunk := [];
      for i := 0 to n
        invariant chunk == q[..i]
      {
        assert ring[..][Slot(Nth(tail, i), RING_N)] == q[i];
        chunk := chunk + [ring[Slot(Nth(tail, i), RING_N)]];
      }
      PopRemoves(ring[..], head, tail, q, n);
      PoppedCounterFacts(head, tail, n);
      tail := Nth(tail, n);
      drainedTotal := Wrap(drainedTotal + n);
      HeldIsOutstanding(ring[..], head, tail, q[n..]);
    }

    /** The next chunk of a pass: the oldest records, at most 64. */
    method NextChunk() returns (chunk: seq<Sample>)
      requires Valid() && tail != head
      modifies `tail, `drainedTotal
      ensures Valid() && 0 < |chunk| <= PUMP_CHUNK && old(Queue()) == chunk + Queue()
      ensures |Queue()| < |old(Queue())|
      ensures drainedTotal == Wrap(old(drainedTotal) + |chunk|)
    {
      ghost var q := Queue();
      var n := Min(Sub(head, tail), PUMP_CHUNK);
      chunk := TakeChunk(n);
      assert q == q[..n] + q[n..];
    }

    /** One pass of the pump: everything published by now, in chunks of at most 64. */
    method PumpPass() returns (chunks: seq<seq<Sample>>)
      requires Valid()
      modifies `tail, `drainedTotal
      ensures Valid() && Queue() == [] && Concat(chunks) == old(Queue())
      ensures forall c :: c in chunks ==> 0 < |c| <= PUMP_CHUNK
      ensures drainedTotal == Wrap(old(drainedTotal) + |old(Queue())|)
    {
      ghost var all, got := Queue(), [];
      chunks := [];
      while tail != head
        invariant Valid() && got == Concat(chunks)
        invariant all == got + Queue()
        invariant forall c :: c in chunks ==> 0 < |c| <= PUMP_CHUNK
        invariant drainedTotal == Wrap(old(drainedTotal) + |got|)
        decreases |Queue()|
      {
        var chunk := NextChunk();
        ConcatSnoc(chunks, chunk);
        WrapAdd(old(drainedTotal) + |got|, |chunk|);
        Regroup(got, chunk, Queue());
        chunks, got := chunks + [chunk], got + chunk;
      }
      assert Queue() == [];
    }
  }
}
