/** The cross-core sample ring: the FLPR core publishes, the pump thread of the app core
    consumes, with nothing but the two free-running u32 counters between them.

    `State` is the shared block together with the program points of both sides; a `Step` is
    one access to the shared memory by one side.  The slot being written may hold anything
    until the write is complete. */
module CrossCore {
  import opened Words
  import opened Rings

  const RING_N: int := 2048
  const PUMP_CHUNK: int := 64
  const SEQ16: int := 0x1_0000

  type Int16 = x: int | -0x8000 <= x < 0x8000
  type u16 = x: int | 0 <= x < SEQ16

  /** ax, ay, az, gx, gy, gz and the temperature, as the sensor delivers them. */
  type Readings = v: seq<Int16> | |v| == 7 witness [0, 0, 0, 0, 0, 0, 0]

  const NO_READINGS: Readings := [0, 0, 0, 0, 0, 0, 0]

  datatype Sample = Sample(values: Readings, seq16: u16)

  datatype Producer =
    | Polling
    | Writing(sample: Sample)         // room was found; the slot at head is being filled
    | Written                         // slot complete, head not yet advanced

  datatype Consumer =
    | Asleep
    | Looping(snap: u32, at: u32)     // head snapshot and local tail
    | Copying(snap: u32, at: u32, n: nat, chunk: seq<Sample>)

  datatype State = State(
    ring: seq<Sample>, head: u32, tail: u32, overrun: u32,
    producer: Producer, consumer: Consumer,
    // history
    sampled: nat,                     // samples read from the sensor
    taken: seq<Readings>,             // what they read, sample 1 first
    published: seq<Sample>,
    numbers: seq<nat>,                // sample number of each published record
    lost: set<nat>,                   // numbers dropped because the ring was full
    delivered: seq<Sample>)           // records handed on by the pump

  datatype Step =
    | Read(values: Readings)          // sensor read, and check of head - tail
    | Touch(junk: Sample)             // part of the slot write
    | Fill                            // slot write complete
    | Publish                         // head + 1
    | Wake                            // pump snapshots head
    | Sleep
    | BeginChunk
    | CopyOne
    | Release                         // tail moved past the chunk, chunk handed on

  predicate Enabled(s: State, step: Step) {
    match step
    case Read(_) => s.producer.Polling?
    case Touch(_) => s.producer.Writing?
    case Fill => s.producer.Writing?
    case Publish => s.producer.Written?
    case Wake => s.consumer.Asleep?
    case Sleep => s.consumer.Looping? && s.consumer.at == s.consumer.snap
    case BeginChunk => s.consumer.Looping? && s.consumer.at != s.consumer.snap
    case CopyOne => s.consumer.Copying? && |s.consumer.chunk| < s.consumer.n
    case Release => s.consumer.Copying? && |s.consumer.chunk| == s.consumer.n
  }

  /** Sample number m as the sensor delivered it, stamped with its number. */
  function Took(s: State, m: nat): Sample
    requires 1 <= m <= |s.taken|
  {
    Sample(s.taken[m - 1], m % SEQ16)
  }

  function Next(s: State, step: Step): State
    requires |s.ring| == RING_N && Enabled(s, step)
  {
    match step
    case Read(values) =>
      var number, taken := s.sampled + 1, s.taken + [values];
      if Sub(s.head, s.tail) >= RING_N
      then s.(sampled := number, taken := taken, overrun := Wrap(s.overrun + 1), lost := s.lost + {number})
      else s.(sampled := number, taken := taken, producer := Writing(Sample(values, number % SEQ16)))
    case Touch(junk) => s.(ring := s.ring[Slot(s.head, RING_N) := junk])
    case Fill => s.(ring := s.ring[Slot(s.head, RING_N) := s.producer.sample], producer := Written)
    case Publish =>
      s.(head := Wrap(s.head + 1), producer := Polling,
         published := s.published + [s.ring[Slot(s.head, RING_N)]], numbers := s.numbers + [s.sampled])
    case Wake => s.(consumer := Looping(s.head, s.tail))
    case Sleep => s.(consumer := Asleep)
    case BeginChunk =>
      var c := s.consumer;
      s.(consumer := Copying(c.snap, c.at, Min(Sub(c.snap, c.at), PUMP_CHUNK), []))
    case CopyOne =>
      var c := s.consumer;
      s.(consumer := c.(chunk := c.chunk + [s.ring[Slot(Nth(c.at, |c.chunk|), RING_N)]]))
    case Release =>
      var c := s.consumer;
      s.(tail := Nth(c.at, c.n), consumer := Looping(c.snap, Nth(c.at, c.n)), delivered := s.delivered + c.chunk)
  }

  // ---- invariant ---------------------------------------------------------------

  /** The unread records, at most a ring full, sit in their slots. */
  ghost predicate RingOk(s: State) {
    && |s.ring| == RING_N
    && s.delivered <= s.published
    && |s.published| - |s.delivered| <= RING_N
    && s.head == Wrap(|s.published|) && s.tail == Wrap(|s.delivered|)
    && (forall k :: |s.delivered| <= k < |s.published| ==> s.ring[k % RING_N] == s.published[k])
  }

  /** The record on its way into the ring is the last sample taken. */
  ghost predicate ProducerOk(s: State)
    requires |s.ring| == RING_N
  {
    && |s.taken| == s.sampled
    && (!s.producer.Polling? ==> |s.published| - |s.delivered| < RING_N && s.sampled > 0)
    && (s.producer.Writing? ==> s.producer.sample == Took(s, s.sampled))
    && (s.producer.Written? ==> s.ring[Slot(s.head, RING_N)] == Took(s, s.sampled))
  }

  /** What the pump has copied or still means to copy was published before its snapshot. */
  ghost predicate ConsumerOk(s: State) {
    match s.consumer
    case Asleep => true
    case Looping(snap, at) => at == s.tail && Sub(snap, at) <= |s.published| - |s.delivered|
    case Copying(snap, at, n, chunk) =>
      && at == s.tail && Sub(snap, at) <= |s.published| - |s.delivered|
      && |chunk| <= n <= Sub(snap, at)
      && chunk == s.published[|s.delivered|..|s.delivered| + |chunk|]
  }

  /** Number of a sample read but not yet published. */
  function Pending(s: State): set<nat> {
    if s.producer.Polling? then {} else {s.sampled}
  }

  /** Every sample taken was published as taken, was lost or is pending. */
  ghost predicate Accounted(s: State) {
    && |s.taken| == s.sampled
    && |s.numbers| == |s.published|
    && Ascending(s.numbers)
    && (forall k :: 0 <= k < |s.numbers| ==> 1 <= s.numbers[k] <= s.sampled && s.numbers[k] !in s.lost + Pending(s))
    && (forall k :: 0 <= k < |s.numbers| ==> s.published[k] == Took(s, s.numbers[k]))
    && (forall m :: m in s.lost ==> 1 <= m <= s.sampled)
    && Pending(s) !! s.lost
    && (forall m :: 1 <= m <= s.sampled ==> m in s.numbers || m in s.lost || m in Pending(s))
    && s.overrun == Wrap(|s.lost|)
    && s.sampled == |s.published| + |s.lost| + |Pending(s)|
  }

  ghost predicate Inv(s: State) {
    RingOk(s) && ProducerOk(s) && ConsumerOk(s) && Accounted(s)
  }

  /** The block as the FLPR leaves it when it publishes the magic word. */
  function Init(ring: seq<Sample>): State {
    State(ring, 0, 0, 0, Polling, Asleep, 0, [], [], [], {}, [])
  }

  lemma InitInv(ring: seq<Sample>)
    requires |ring| == RING_N
    ensures Inv(Init(ring))
  {
  }

  // ---- preservation --------------------------------------------------------------

  lemma SlotOfCounter(x: nat)
    ensures Slot(Wrap(x), RING_N) == x % RING_N
  {
    WrapKeepsSlot(x, RING_N);
  }

  lemma OutstandingCount(s: State)
    requires RingOk(s)
    ensures Sub(s.head, s.tail) == |s.published| - |s.delivered|
  {
    WrappedDifference(|s.published|, |s.delivered|);
  }

  lemma WrappedDifference(a: nat, b: nat)
    requires b <= a < b + TWO32
    ensures Sub(Wrap(a), Wrap(b)) == a - b
  {
    assert Wrap(a) - Wrap(b) == (a - b) - TWO32 * (a / TWO32 - b / TWO32);
  }

  lemma NthOfCounter(x: nat, i: nat)
    ensures Nth(Wrap(x), i) == Wrap(x + i)
  {
    assert x == Wrap(x) + TWO32 * (x / TWO32);
  }

  /** Unread records keep their slots whatever the producer writes to the slot at head. */
  lemma HeadSlotIsFree(s: State, junk: Sample)
    requires RingOk(s) && |s.published| - |s.delivered| < RING_N
    ensures RingOk(s.(ring := s.ring[Slot(s.head, RING_N) := junk]))
    ensures s.ring[Slot(s.head, RING_N) := junk][|s.published| % RING_N] == junk
  {
    SlotOfCounter(|s.published|);
    forall k | |s.delivered| <= k < |s.published|
      ensures k % RING_N != |s.published| % RING_N
    {
      NearbySlotsDiffer(k, |s.published|, RING_N);
    }
  }

  lemma OverrunAccounts(s: State, values: Readings)
    requires Accounted(s) && s.producer.Polling? && |s.ring| == RING_N
    ensures Accounted(s.(sampled := s.sampled + 1, taken := s.taken + [values], overrun := Wrap(s.overrun + 1),
                         lost := s.lost + {s.sampled + 1}))
  {
    var lost := s.lost + {s.sampled + 1};
    assert s.sampled + 1 !in s.lost;
    assert |lost| == |s.lost| + 1;
    WrapAdd(|s.lost|, 1);
    forall m | 1 <= m <= s.sampled + 1
      ensures m in s.numbers || m in lost
    {
      assert m <= s.sampled ==> m in s.numbers || m in s.lost || m in Pending(s);
    }
  }

  lemma RoomAccounts(s: State, sample: Sample)
    requires Accounted(s) && s.producer.Polling? && |s.ring| == RING_N
    ensures Accounted(s.(sampled := s.sampled + 1, taken := s.taken + [sample.values], producer := Writing(sample)))
  {
    assert s.sampled + 1 !in s.lost;
    forall m | 1 <= m <= s.sampled + 1
      ensures m in s.numbers || m in s.lost || m in {s.sampled + 1}
    {
      assert m <= s.sampled ==> m in s.numbers || m in s.lost || m in Pending(s);
    }
  }

  lemma ReadStep(s: State, values: Readings)
    requires |s.ring| == RING_N && Enabled(s, Read(values))
    ensures var number, taken := s.sampled + 1, s.taken + [values];
      Next(s, Read(values)) ==
        if Sub(s.head, s.tail) >= RING_N
        then s.(sampled := number, taken := taken, overrun := Wrap(s.overrun + 1), lost := s.lost + {number})
        else s.(sampled := number, taken := taken, producer := Writing(Sample(values, number % SEQ16)))
  {
  }

  lemma ReadAccounts(s: State, values: Readings)
    requires Accounted(s) && Enabled(s, Read(values)) && |s.ring| == RING_N
    ensures Accounted(Next(s, Read(values)))
  {
    ReadStep(s, values);
    if Sub(s.head, s.tail) >= RING_N {
      OverrunAccounts(s, values);
    } else {
      RoomAccounts(s, Sample(values, (s.sampled + 1) % SEQ16));
    }
  }

  lemma ReadKeeps(s: State, values: Readings)
    requires Inv(s) && Enabled(s, Read(values))
    ensures Inv(Next(s, Read(values)))
  {
    OutstandingCount(s);
    ReadAccounts(s, values);
  }

  lemma PublishedInRing(s: State)
    requires RingOk(s) && Enabled(s, Publish) && |s.published| - |s.delivered| < RING_N
    ensures RingOk(Next(s, Publish))
  {
    SlotOfCounter(|s.published|);
    WrapAdd(|s.published|, 1);
  }

  lemma PublishAccounts(s: State)
    requires Accounted(s) && Enabled(s, Publish) && |s.ring| == RING_N && s.sampled > 0
    requires s.ring[Slot(s.head, RING_N)] == Took(s, s.sampled)
    ensures Accounted(Next(s, Publish))
  {
    var d := Next(s, Publish);
    assert d.numbers[|s.numbers|] == s.sampled;
    assert forall k :: 0 <= k < |s.numbers| ==> s.numbers[k] < s.sampled;
    forall m | 1 <= m <= d.sampled
      ensures m in d.numbers || m in d.lost || m in Pending(d)
    {
      assert m in s.numbers || m in s.lost || m in Pending(s);
    }
  }

  lemma PublishSides(s: State)
    requires |s.ring| == RING_N && s.delivered <= s.published && ProducerOk(s) && ConsumerOk(s) && Enabled(s, Publish)
    ensures ProducerOk(Next(s, Publish)) && ConsumerOk(Next(s, Publish))
  {
  }

  lemma PublishKeeps(s: State)
    requires Inv(s) && Enabled(s, Publish)
    ensures Inv(Next(s, Publish))
  {
    PublishedInRing(s);
    PublishAccounts(s);
    PublishSides(s);
  }

  lemma CopiedRecord(s: State, i: nat)
    requires RingOk(s) && |s.delivered| + i < |s.published|
    ensures s.ring[Slot(Nth(s.tail, i), RING_N)] == s.published[|s.delivered| + i]
  {
    NthOfCounter(|s.delivered|, i);
    SlotOfCounter(|s.delivered| + i);
  }

  lemma CopyKeeps(s: State)
    requires Inv(s) && Enabled(s, CopyOne)
    ensures Inv(Next(s, CopyOne))
  {
    var c := s.consumer;
    CopiedRecord(s, |c.chunk|);
    ChunkGrows(s.published, |s.delivered|, |c.chunk|);
  }

  lemma ChunkGrows(published: seq<Sample>, from: nat, n: nat)
    requires from + n < |published|
    ensures published[from..from + n] + [published[from + n]] == published[from..from + (n + 1)]
  {
  }

  lemma ReleasedRing(s: State, n: nat)
    requires RingOk(s) && |s.delivered| + n <= |s.published|
    ensures RingOk(s.(tail := Nth(s.tail, n), delivered := s.published[..|s.delivered| + n]))
  {
    NthOfCounter(|s.delivered|, n);
  }

  lemma ReleaseKeeps(s: State)
    requires Inv(s) && Enabled(s, Release)
    ensures Inv(Next(s, Release))
  {
    var c := s.consumer;
    assert s.delivered + c.chunk == s.published[..|s.delivered| + c.n];
    ReleasedRing(s, c.n);
    PoppedCounterFacts(c.snap, c.at, c.n);
  }

  lemma TouchKeeps(s: State, junk: Sample)
    requires Inv(s) && Enabled(s, Touch(junk))
    ensures Inv(Next(s, Touch(junk)))
  {
    HeadSlotIsFree(s, junk);
  }

  lemma FillKeeps(s: State)
    requires Inv(s) && Enabled(s, Fill)
    ensures Inv(Next(s, Fill))
  {
    HeadSlotIsFree(s, s.producer.sample);
    SlotOfCounter(|s.published|);
  }

  lemma WakeKeeps(s: State)
    requires Inv(s) && Enabled(s, Wake)
    ensures Inv(Next(s, Wake))
  {
    OutstandingCount(s);
  }

  lemma BeginKeeps(s: State)
    requires Inv(s) && Enabled(s, BeginChunk)
    ensures Inv(Next(s, BeginChunk))
  {
  }

  lemma StepKeeps(s: State, step: Step)
    requires Inv(s) && Enabled(s, step)
    ensures Inv(Next(s, step))
  {
    match step
    case Read(values) => ReadKeeps(s, values);
    case Touch(junk) => TouchKeeps(s, junk);
    case Fill => FillKeeps(s);
    case Publish => PublishKeeps(s);
    case Wake => WakeKeeps(s);
    case Sleep =>
    case BeginChunk => BeginKeeps(s);
    case CopyOne => CopyKeeps(s);
    case Release => ReleaseKeeps(s);
  }

  ghost predicate IsRun(from: State, steps: seq<Step>, to: State)
    decreases |steps|
  {
    |from.ring| == RING_N &&
    if steps == [] then from == to
    else Enabled(from, steps[0]) && IsRun(Next(from, steps[0]), steps[1..], to)
  }

  lemma {:induction false} RunsKeep(from: State, steps: seq<Step>, to: State)
    requires Inv(from) && IsRun(from, steps, to)
    ensures Inv(to)
    decreases |steps|
  {
    if steps != [] {
      StepKeeps(from, steps[0]);
      RunsKeep(Next(from, steps[0]), steps[1..], to);
    }
  }

  // ---- what every interleaving guarantees ------------------------------------------

  /** Under every interleaving, and across the wrap of both counters: at most a ring full
      is outstanding, the pump hands on a prefix of what was published, in order, and what
      was published are samples as the sensor delivered them, in the order they were taken. */
  lemma {:induction false} RingIsSafe(ring: seq<Sample>, steps: seq<Step>, s: State)
    requires |ring| == RING_N && IsRun(Init(ring), steps, s)
    ensures Sub(s.head, s.tail) == |s.published| - |s.delivered| <= RING_N
    ensures s.delivered <= s.published
    ensures s.sampled == |s.published| + |s.lost| + |Pending(s)|
    ensures s.overrun == Wrap(|s.lost|)
    ensures |s.numbers| == |s.published| && |s.taken| == s.sampled && Ascending(s.numbers)
    ensures forall k :: 0 <= k < |s.published| ==> 1 <= s.numbers[k] <= |s.taken| && s.published[k] == Took(s, s.numbers[k])
  {
    InitInv(ring);
    RunsKeep(Init(ring), steps, s);
    OutstandingCount(s);
  }

  /** The producer never writes a slot the pump may still copy. */
  lemma {:induction false} NeverWritesASlotBeingCopied(ring: seq<Sample>, steps: seq<Step>, s: State, i: nat)
    requires |ring| == RING_N && IsRun(Init(ring), steps, s)
    requires s.producer.Writing? && s.consumer.Copying? && i < Sub(s.consumer.snap, s.consumer.at)
    ensures Slot(Nth(s.consumer.at, i), RING_N) != Slot(s.head, RING_N)
  {
    InitInv(ring);
    RunsKeep(Init(ring), steps, s);
    NthOfCounter(|s.delivered|, i);
    SlotOfCounter(|s.delivered| + i);
    SlotOfCounter(|s.published|);
    NearbySlotsDiffer(|s.delivered| + i, |s.published|, RING_N);
  }

  /** Between two consecutive published records, every sample was lost to a full ring. */
  lemma GapsAreOverruns(s: State, k: nat, m: nat)
    requires Inv(s) && k + 1 < |s.numbers| && s.numbers[k] < m < s.numbers[k + 1]
    ensures m in s.lost
  {
    assert forall j :: 0 <= j < |s.numbers| ==> s.numbers[j] <= s.numbers[k] || s.numbers[j] >= s.numbers[k + 1];
    assert m in s.numbers || m in s.lost || m in Pending(s);
  }

  /** A sample is lost exactly when 2048 records are outstanding; otherwise it is on its way
      into the ring. */
  lemma LostIffRingFull(s: State, values: Readings)
    requires Inv(s) && Enabled(s, Read(values))
    ensures var d, full := Next(s, Read(values)), |s.published| - |s.delivered| == 2048;
      && d.lost == (if full then s.lost + {s.sampled + 1} else s.lost)
      && d.producer == (if full then Polling else Writing(Sample(values, (s.sampled + 1) % SEQ16)))
      && d.sampled == s.sampled + 1 && d.taken == s.taken + [values]
  {
    OutstandingCount(s);
  }

  /** The pump is busy with the records up to number m, which it found when it woke. */
  ghost predicate InPass(s: State, m: nat) {
    && |s.delivered| <= m <= |s.published| && m <= |s.delivered| + RING_N
    && (s.consumer.Looping? || s.consumer.Copying?)
    && s.consumer.snap == Wrap(m) && s.consumer.at == Wrap(|s.delivered|)
    && (s.consumer.Copying? ==>
          0 < s.consumer.n == Min(PUMP_CHUNK, m - |s.delivered|) && |s.consumer.chunk| <= s.consumer.n)
  }

  lemma WakeBeginsPass(s: State)
    requires Inv(s) && s.consumer.Asleep?
    ensures InPass(Next(s, Wake), |s.published|)
  {
  }

  lemma PassStep(s: State, step: Step, m: nat)
    requires Inv(s) && InPass(s, m) && Enabled(s, step) && !step.Wake? && !step.Sleep?
    ensures InPass(Next(s, step), m)
  {
    WrappedDifference(m, |s.delivered|);
    match step
    case Release => NthOfCounter(|s.delivered|, s.consumer.n);
    case _ =>
  }

  lemma {:induction false} PassGoesOn(s: State, steps: seq<Step>, t: State, m: nat)
    requires Inv(s) && InPass(s, m) && IsRun(s, steps, t)
    requires forall i :: 0 <= i < |steps| ==> !steps[i].Wake? && !steps[i].Sleep?
    ensures Inv(t) && InPass(t, m)
    decreases |steps|
  {
    if steps != [] {
      PassStep(s, steps[0], m);
      StepKeeps(s, steps[0]);
      PassGoesOn(Next(s, steps[0]), steps[1..], t, m);
    }
  }

  /** Whatever the producer does meanwhile, the pump goes back to sleep exactly when it has
      handed on everything it found when it woke, in chunks of 64 and a last smaller one. */
  lemma {:induction false} PassDeliversWhatItFound(s: State, steps: seq<Step>, t: State)
    requires Inv(s) && s.consumer.Asleep? && IsRun(Next(s, Wake), steps, t)
    requires forall i :: 0 <= i < |steps| ==> !steps[i].Wake? && !steps[i].Sleep?
    ensures Enabled(t, Sleep) <==> t.consumer.Looping? && |t.delivered| == |s.published|
    ensures t.consumer.Copying? ==> 0 < t.consumer.n == Min(64, |s.published| - |t.delivered|)
    ensures |t.delivered| <= |s.published|
  {
    WakeBeginsPass(s);
    StepKeeps(s, Wake);
    PassGoesOn(Next(s, Wake), steps, t, |s.published|);
    PassEnd(t, |s.published|);
  }

  lemma PassEnd(t: State, m: nat)
    requires InPass(t, m)
    ensures Enabled(t, Sleep) <==> t.consumer.Looping? && |t.delivered| == m
  {
    WrappedDifference(m, |t.delivered|);
  }
}
