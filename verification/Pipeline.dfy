/** From sensor to session: the samples a log session stores, and what became of the others.

    The cross-core ring is the state machine of CrossCore; behind it the pump offers each
    chunk to the log, whose staging queue keeps what fits, and the writer moves staged
    records into the session.  Records are named by their position in the published stream. */
module Pipeline {
  import opened Words
  import opened Rings
  import opened CrossCore
  import opened Staging

  datatype Pipe = Pipe(
    core: State,
    active: bool,
    from: nat,              // first published position offered to this session
    upTo: nat,              // one past the last position offered to it
    staged: seq<nat>,
    stored: seq<nat>,       // what the session holds
    dropped: set<nat>)      // offered while the staging ring was full

  datatype Move =
    | Core(step: Step)
    | Drain(n: nat)
    | StartSession
    | StopSession

  predicate CanMove(p: Pipe, move: Move) {
    match move
    case Core(step) => CrossCore.Enabled(p.core, step)
    case Drain(n) => n <= |p.staged|
    case StartSession => !p.active
    case StopSession => p.active
  }

  /** The positions lo, ..., hi - 1. */
  function Interval(lo: nat, hi: nat): (s: set<nat>)
    ensures forall m :: m in s <==> lo <= m < hi
    ensures |s| == Max(0, hi - lo)
    decreases Max(0, hi - lo)
  {
    if lo >= hi then {} else {lo} + Interval(lo + 1, hi)
  }

  /** imu_log_append of the n positions from `from` on. */
  function Offer(p: Pipe, from: nat, n: nat): Pipe
    requires |p.staged| <= STAGE_N
  {
    var k := Fitting(|p.staged|, n);
    p.(staged := p.staged + CountUp(from, k), dropped := p.dropped + Interval(from + k, from + n), upTo := from + n)
  }

  function Moved(p: Pipe, move: Move): Pipe
    requires |p.core.ring| == RING_N && |p.staged| <= STAGE_N && CanMove(p, move)
  {
    match move
    case Core(step) =>
      var q := p.(core := CrossCore.Next(p.core, step));
      if step.Release? && p.active then Offer(q, |p.core.delivered|, p.core.consumer.n) else q
    case Drain(n) =>
      p.(staged := p.staged[n..], stored := if p.active then p.stored + p.staged[..n] else p.stored)
    case StartSession =>
      p.(active := true, from := |p.core.delivered|, upTo := |p.core.delivered|, staged := [], stored := [], dropped := {})
    case StopSession => p.(active := false)
  }

  /** Every position offered to the session is stored, still staged or dropped, in order. */
  ghost predicate Kept(p: Pipe) {
    && p.from <= p.upTo
    && Ascending(p.stored + if p.active then p.staged else [])
    && (forall i :: i in p.stored || (p.active && i in p.staged) ==> p.from <= i < p.upTo && i !in p.dropped)
    && (forall i :: i in p.dropped ==> p.from <= i < p.upTo)
    && (p.active ==> forall i :: p.from <= i < p.upTo ==> i in p.stored || i in p.staged || i in p.dropped)
  }

  /** Gaps between neighbours in the session are dropped positions. */
  ghost predicate GapsDropped(p: Pipe) {
    forall a, i :: 0 <= a && a + 1 < |p.stored| && p.stored[a] < i < p.stored[a + 1] ==> i in p.dropped
  }

  ghost predicate PipeInv(p: Pipe) {
    && CrossCore.Inv(p.core)
    && |p.staged| <= STAGE_N
    && p.upTo <= |p.core.delivered|
    && (p.active ==> p.upTo == |p.core.delivered|)
    && Kept(p)
    && GapsDropped(p)
  }

  // ---- preservation --------------------------------------------------------------

  lemma AscendingAppend(s: seq<nat>, t: seq<nat>, bound: nat)
    requires Ascending(s) && Ascending(t)
    requires (forall x :: x in s ==> x < bound) && (forall x :: x in t ==> x >= bound)
    ensures Ascending(s + t)
  {
    forall i, j | 0 <= i < j < |s + t|
      ensures (s + t)[i] < (s + t)[j]
    {
      if i < |s| <= j {
        assert s[i] in s && t[j - |s|] in t;
      }
    }
  }

  lemma OfferKeeps(p: Pipe, n: nat)
    requires |p.staged| <= STAGE_N && Kept(p) && p.active
    ensures Kept(Offer(p, p.upTo, n)) && |Offer(p, p.upTo, n).staged| <= STAGE_N
  {
    var d, k := Offer(p, p.upTo, n), Fitting(|p.staged|, n);
    var added := CountUp(p.upTo, k);
    assert d.stored + d.staged == (p.stored + p.staged) + added;
    assert forall i :: i in p.stored + p.staged ==> i in p.stored || i in p.staged;
    AscendingAppend(p.stored + p.staged, added, p.upTo);
    forall i | d.from <= i < d.upTo
      ensures i in d.stored || i in d.staged || i in d.dropped
    {
      if p.upTo <= i < p.upTo + k {
        assert added[i - p.upTo] == i;
      }
    }
  }

  /** The records of a chunk that did not fit are new among the dropped ones. */
  lemma OfferDrops(p: Pipe, n: nat)
    requires |p.staged| <= STAGE_N && forall i :: i in p.dropped ==> i < p.upTo
    ensures |Offer(p, p.upTo, n).dropped| == |p.dropped| + (n - Fitting(|p.staged|, n))
  {
    var k := Fitting(|p.staged|, n);
    assert p.dropped !! Interval(p.upTo + k, p.upTo + n);
  }

  lemma DrainKept(p: Pipe, n: nat)
    requires Kept(p) && p.active && n <= |p.staged|
    ensures Kept(p.(staged := p.staged[n..], stored := p.stored + p.staged[..n]))
  {
    assert p.staged == p.staged[..n] + p.staged[n..];
    assert forall i :: i in p.staged <==> i in p.staged[..n] || i in p.staged[n..];
    assert (p.stored + p.staged[..n]) + p.staged[n..] == p.stored + p.staged;
  }

  lemma KeptMeansGapsDropped(p: Pipe)
    requires Kept(p) && p.active
    ensures GapsDropped(p)
  {
    var all := p.stored + p.staged;
    forall a, i | 0 <= a && a + 1 < |p.stored| && p.stored[a] < i < p.stored[a + 1]
      ensures i in p.dropped
    {
      assert p.stored[a] in p.stored && p.stored[a + 1] in p.stored;
      assert all[a] == p.stored[a] && all[a + 1] == p.stored[a + 1];
      forall j | 0 <= j < |all|
        ensures all[j] != i
      {
        assert j <= a || j >= a + 1;
      }
      assert forall x :: x in p.stored || x in p.staged ==> x in all;
    }
  }

  lemma StoppedKept(p: Pipe)
    requires Kept(p) && p.active
    ensures Kept(p.(active := false))
  {
    assert forall i :: 0 <= i < |p.stored| ==> (p.stored + p.staged)[i] == p.stored[i];
    assert p.stored + [] == p.stored;
  }

  lemma MoveKeeps(p: Pipe, move: Move)
    requires PipeInv(p) && CanMove(p, move)
    ensures PipeInv(Moved(p, move))
  {
    var d := Moved(p, move);
    match move
    case Core(step) =>
      StepKeeps(p.core, step);
      if step.Release? && p.active {
        OfferKeeps(p.(core := d.core), p.core.consumer.n);
        KeptMeansGapsDropped(d);
      }
    case Drain(n) =>
      if p.active {
        DrainKept(p, n);
        KeptMeansGapsDropped(d);
      }
    case StartSession =>
      assert d.stored + d.staged == [];
    case StopSession => StoppedKept(p);
  }

  function InitPipe(ring: seq<Sample>): Pipe {
    Pipe(CrossCore.Init(ring), false, 0, 0, [], [], {})
  }

  ghost predicate IsFlow(from: Pipe, moves: seq<Move>, to: Pipe)
    decreases |moves|
  {
    |from.core.ring| == RING_N && |from.staged| <= STAGE_N &&
    if moves == [] then from == to
    else CanMove(from, moves[0]) && IsFlow(Moved(from, moves[0]), moves[1..], to)
  }

  lemma {:induction false} FlowsKeep(from: Pipe, moves: seq<Move>, to: Pipe)
    requires PipeInv(from) && IsFlow(from, moves, to)
    ensures PipeInv(to)
    decreases |moves|
  {
    if moves != [] {
      MoveKeeps(from, moves[0]);
      FlowsKeep(Moved(from, moves[0]), moves[1..], to);
    }
  }

  /** What was offered to the running session is stored, staged or dropped, each once. */
  lemma OfferedAddsUp(p: Pipe)
    requires PipeInv(p) && p.active
    ensures |p.stored| + |p.staged| + |p.dropped| == |p.core.delivered| - p.from
  {
    KeptAddsUp(p);
  }

  lemma KeptAddsUp(p: Pipe)
    requires Kept(p) && p.active
    ensures |p.stored| + |p.staged| + |p.dropped| == p.upTo - p.from
  {
    var all := p.stored + p.staged;
    AscendingSize(all);
    Disjoint(Elements(all), p.dropped, Interval(p.from, p.upTo));
  }

  lemma Disjoint(a: set<nat>, b: set<nat>, whole: set<nat>)
    requires (forall x :: x in a ==> x !in b) && forall x :: x in whole <==> x in a || x in b
    ensures |a| + |b| == |whole|
  {
    assert a !! b && a + b == whole;
  }

  // ---- accounting ------------------------------------------------------------------

  /** Samples lost to a full cross-core ring between two published positions. */
  ghost function OverrunsBetween(p: Pipe, a: nat, b: nat): set<nat>
    requires a <= b < |p.core.numbers|
  {
    set m | m in p.core.lost && p.core.numbers[a] < m < p.core.numbers[b]
  }

  /** Records lost to a full staging ring between two published positions. */
  ghost function DropsBetween(p: Pipe, a: nat, b: nat): set<nat> {
    set i | i in p.dropped && a < i < b
  }

  lemma NeighbourOverruns(p: Pipe, k: nat)
    requires CrossCore.Inv(p.core) && k + 1 < |p.core.numbers|
    ensures p.core.numbers[k] < p.core.numbers[k + 1]
    ensures |OverrunsBetween(p, k, k + 1)| == p.core.numbers[k + 1] - p.core.numbers[k] - 1
  {
    var lo, hi := p.core.numbers[k], p.core.numbers[k + 1];
    forall m | lo < m < hi
      ensures m in p.core.lost
    {
      GapsAreOverruns(p.core, k, m);
    }
    assert OverrunsBetween(p, k, k + 1) == Interval(lo + 1, hi);
  }

  /** Between any two published positions, sample numbers advance by the positions passed
      plus the samples the full ring swallowed. */
  lemma {:induction false} OverrunsExplainNumbers(p: Pipe, a: nat, b: nat)
    requires CrossCore.Inv(p.core) && a <= b < |p.core.numbers|
    ensures p.core.numbers[b] - p.core.numbers[a] == (b - a) + |OverrunsBetween(p, a, b)|
    decreases b - a
  {
    if a < b {
      OverrunsExplainNumbers(p, a, b - 1);
      OneMoreExplained(p, a, b - 1);
    } else {
      NoneBetween(p, a);
    }
  }

  lemma NoneBetween(p: Pipe, a: nat)
    requires a < |p.core.numbers|
    ensures OverrunsBetween(p, a, a) == {}
  {
  }

  lemma OneMoreExplained(p: Pipe, a: nat, b: nat)
    requires CrossCore.Inv(p.core) && a <= b && b + 1 < |p.core.numbers|
    requires p.core.numbers[b] - p.core.numbers[a] == (b - a) + |OverrunsBetween(p, a, b)|
    ensures p.core.numbers[b + 1] - p.core.numbers[a] == (b + 1 - a) + |OverrunsBetween(p, a, b + 1)|
  {
    NeighbourOverruns(p, b);
    SplitOverruns(p, a, b);
  }

  lemma SplitOverruns(p: Pipe, a: nat, b: nat)
    requires CrossCore.Inv(p.core) && a <= b && b + 1 < |p.core.numbers|
    ensures |OverrunsBetween(p, a, b + 1)| == |OverrunsBetween(p, a, b)| + |OverrunsBetween(p, b, b + 1)|
  {
    var x, y := OverrunsBetween(p, a, b), OverrunsBetween(p, b, b + 1);
    assert p.core.numbers[b] !in p.core.lost;
    assert p.core.numbers[a] <= p.core.numbers[b] < p.core.numbers[b + 1];
    assert OverrunsBetween(p, a, b + 1) == x + y;
    assert x !! y;
  }

  lemma DropsFillGap(p: Pipe, j: nat)
    requires PipeInv(p) && j + 1 < |p.stored|
    ensures p.stored[j] < p.stored[j + 1] < |p.core.numbers|
    ensures |DropsBetween(p, p.stored[j], p.stored[j + 1])| == p.stored[j + 1] - p.stored[j] - 1
  {
    var a, b := p.stored[j], p.stored[j + 1];
    var tail := if p.active then p.staged else [];
    assert (p.stored + tail)[j] == a && (p.stored + tail)[j + 1] == b;
    assert b in p.stored;
    assert DropsBetween(p, a, b) == Interval(a + 1, b);
  }

  lemma Seq16Difference(x: nat, y: nat)
    requires x < y
    ensures (y % SEQ16 - x % SEQ16 - 1) % SEQ16 == (y - x - 1) % SEQ16
  {
    assert y % SEQ16 - x % SEQ16 - 1 == (y - x - 1) - SEQ16 * (y / SEQ16 - x / SEQ16);
  }

  lemma AccountsForEverySample(p: Pipe, j: nat)
    requires PipeInv(p) && j + 1 < |p.stored|
    ensures SampleAccount(p, p.stored[j], p.stored[j + 1])
  {
    var a, b := p.stored[j], p.stored[j + 1];
    DropsFillGap(p, j);
    OverrunsExplainNumbers(p, a, b);
    Seq16Difference(p.core.numbers[a], p.core.numbers[b]);
  }

  /** Positions a and b are records of one session in order, each a sample as the sensor
      delivered it, and what separates their sample numbers, and modulo 65536 their seq16
      stamps, is overruns and staging drops. */
  ghost predicate SampleAccount(p: Pipe, a: nat, b: nat) {
    && a < b < |p.core.published| == |p.core.numbers|
    && p.core.numbers[a] < p.core.numbers[b] <= p.core.sampled
    && p.core.numbers[b] - p.core.numbers[a] - 1 == |OverrunsBetween(p, a, b)| + |DropsBetween(p, a, b)|
    && |p.core.taken| == p.core.sampled && p.core.numbers[a] >= 1
    && p.core.published[a] == Took(p.core, p.core.numbers[a])
    && p.core.published[b] == Took(p.core, p.core.numbers[b])
    && (p.core.published[b].seq16 - p.core.published[a].seq16 - 1) % SEQ16
       == (|OverrunsBetween(p, a, b)| + |DropsBetween(p, a, b)|) % SEQ16
  }

  /** The records of a session are an ordered, duplicate-free subsequence of the samples
      taken, readings included, and for consecutive ones the seq16 difference minus one is, modulo 65536, the
      number of ring overruns plus staging drops between them. */
  lemma {:induction false} SessionsAccountForEverySample(ring: seq<Sample>, moves: seq<Move>, p: Pipe, j: nat)
    requires |ring| == RING_N && IsFlow(InitPipe(ring), moves, p) && j + 1 < |p.stored|
    ensures SampleAccount(p, p.stored[j], p.stored[j + 1])
  {
    InitInv(ring);
    assert PipeInv(InitPipe(ring));
    FlowsKeep(InitPipe(ring), moves, p);
    AccountsForEverySample(p, j);
  }

  /** A gap-free dump is a gap-free recording, for gaps below 65536: seq16 steps of one
      mean that no sample between the two records was lost. */
  lemma {:induction false} UnitStepsMeanNoLoss(ring: seq<Sample>, moves: seq<Move>, p: Pipe, j: nat)
    requires |ring| == RING_N && IsFlow(InitPipe(ring), moves, p) && j + 1 < |p.stored|
    requires p.stored[j] < p.stored[j + 1] < |p.core.published| == |p.core.numbers|
    requires p.core.numbers[p.stored[j + 1]] - p.core.numbers[p.stored[j]] <= SEQ16
    ensures (p.core.published[p.stored[j + 1]].seq16 - p.core.published[p.stored[j]].seq16) % SEQ16 == 1
      <==> OverrunsBetween(p, p.stored[j], p.stored[j + 1]) == {} && DropsBetween(p, p.stored[j], p.stored[j + 1]) == {}
  {
    SessionsAccountForEverySample(ring, moves, p, j);
    var x, y := p.core.published[p.stored[j]].seq16, p.core.published[p.stored[j + 1]].seq16;
    UnitStep(x, y, p.core.numbers[p.stored[j + 1]] - p.core.numbers[p.stored[j]] - 1);
  }

  lemma UnitStep(x: int, y: int, lost: nat)
    requires lost < SEQ16 && (y - x - 1) % SEQ16 == lost % SEQ16
    ensures (y - x) % SEQ16 == 1 <==> lost == 0
  {
    Successor(y - x - 1);
  }

  lemma Successor(z: int)
    ensures (z + 1) % SEQ16 == 1 <==> z % SEQ16 == 0
  {
  }
}
