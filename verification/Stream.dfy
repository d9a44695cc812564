/** The live preview path: the pump's sink picks every decim-th sample into a 256-slot FIFO,
    the TX thread sends packets of up to 14 under a two-credit limit and discards what it
    cannot send.  The sink, the TX thread, the link's sent-callbacks and new subscriptions
    interleave freely; counter updates are atomic. */
module Stream {
  import opened Words
  import opened Rings
  import opened CrossCore

  const SFIFO_N: int := 256
  const STREAM_MAX: int := 14
  const CREDITS: int := 2

  /** What the sink reads and writes: ring, counters, sample counter, discard counter. */
  datatype Fifo = Fifo(slots: seq<Sample>, head: u32, tail: u32, ctr: u32, dropped: u32)

  predicate Picked(ctr: u32, decim: int)
    requires decim > 0
  {
    ctr % decim == 0
  }

  /** sfifo_head - sfifo_tail. */
  function Count(f: Fifo): u32 {
    Sub(f.head, f.tail)
  }

  /** The sink on one sample. */
  function OfferOne(f: Fifo, x: Sample, decim: int): (after: Fifo)
    requires decim > 0 && |f.slots| == SFIFO_N
    ensures |after.slots| == SFIFO_N
  {
    var g := f.(ctr := Wrap(f.ctr + 1));
    if !Picked(f.ctr, decim) then g
    else if Count(f) >= SFIFO_N then g.(dropped := Wrap(f.dropped + 1))
    else g.(slots := f.slots[Slot(f.head, SFIFO_N) := x], head := Wrap(f.head + 1))
  }

  function OfferAll(f: Fifo, xs: seq<Sample>, decim: int): (after: Fifo)
    requires decim > 0 && |f.slots| == SFIFO_N
    ensures |after.slots| == SFIFO_N
    decreases |xs|
  {
    if xs == [] then f else OfferOne(OfferAll(f, xs[..|xs| - 1], decim), xs[|xs| - 1], decim)
  }

  /** The n slots from the tail on, as a packet copies them. */
  function FromTail(f: Fifo, n: nat): (chunk: seq<Sample>)
    requires |f.slots| == SFIFO_N
    ensures |chunk| == n
  {
    seq(n, i requires 0 <= i < n => f.slots[Slot(Nth(f.tail, i), SFIFO_N)])
  }

  datatype Tx =
    | Resting
    | Packed(chunk: seq<Sample>)              // copied out of the FIFO, no credit yet
    | Paid(chunk: seq<Sample>)                // credit taken, notification not yet accepted
    | Failed(n: nat)                          // not sent, not yet counted
    | Settled(n: nat)                         // outcome counted, tail not yet advanced

  function PacketSize(tx: Tx): nat {
    match tx
    case Resting => 0
    case Packed(chunk) => |chunk|
    case Paid(chunk) => |chunk|
    case Failed(n) => n
    case Settled(n) => n
  }

  datatype StreamState = StreamState(
    fifo: Fifo, credits: nat, inFlight: nat, tx: Tx,
    // history of this subscription
    stale: nat,                               // size of a pending packet from before it, or 0
    picked: nat,                              // samples the decimation selected
    accepted: seq<Sample>,                    // of those, the ones staged
    consumed: nat,                            // how far the tail moved
    sent: seq<Sample>,                        // samples of its accepted notifications
    sentAt: seq<nat>,                         // their positions in `accepted`
    full: nat, failed: nat)                   // discards counted: FIFO full, packet not sent

  datatype Step =
    | Offer(x: Sample, decim: int)
    | Begin(n: nat)
    | TakeCredit
    | Jam                                     // no credit within 500 ms
    | NotifyOk
    | NotifyFail
    | Charge                                  // the discard is counted
    | Advance                                 // the tail moves past the packet
    | Message(ok: bool)                       // a text line on the same credits
    | Sent                                    // sent-callback
    | Enable                                  // a new subscription, at any moment

  predicate Enabled(s: StreamState, step: Step) {
    match step
    case Offer(_, decim) => 1 <= decim <= 255
    case Begin(n) => s.tx.Resting? && 0 < n <= Min(Count(s.fifo), STREAM_MAX)
    case TakeCredit => s.tx.Packed? && s.credits > 0
    case Jam => s.tx.Packed? && s.credits == 0
    case NotifyOk => s.tx.Paid?
    case NotifyFail => s.tx.Paid?
    case Charge => s.tx.Failed?
    case Advance => s.tx.Settled?
    case Message(_) => s.tx.Resting? && s.credits > 0
    case Sent => s.inFlight > 0
    case Enable => true
  }

  function Next(s: StreamState, step: Step): (after: StreamState)
    requires |s.fifo.slots| == SFIFO_N && Enabled(s, step)
    ensures |after.fifo.slots| == SFIFO_N
  {
    match step
    case Offer(x, decim) =>
      var after := s.(fifo := OfferOne(s.fifo, x, decim));
      if !Picked(s.fifo.ctr, decim) then after
      else if Count(s.fifo) >= SFIFO_N then after.(picked := s.picked + 1, full := s.full + 1)
      else after.(picked := s.picked + 1, accepted := s.accepted + [x])
    case Begin(n) => s.(tx := Packed(FromTail(s.fifo, n)))
    case TakeCredit => s.(credits := s.credits - 1, tx := Paid(s.tx.chunk))
    case Jam => s.(tx := Failed(|s.tx.chunk|))
    case NotifyOk =>
      var after := s.(inFlight := s.inFlight + 1, tx := Settled(|s.tx.chunk|));
      if s.stale > 0 then after
      else after.(sent := s.sent + s.tx.chunk, sentAt := s.sentAt + CountUp(s.consumed, |s.tx.chunk|))
    case NotifyFail => s.(credits := s.credits + 1, tx := Failed(|s.tx.chunk|))
    case Charge =>
      s.(fifo := s.fifo.(dropped := Wrap(s.fifo.dropped + s.tx.n)), failed := s.failed + s.tx.n, tx := Settled(s.tx.n))
    case Advance =>
      s.(fifo := s.fifo.(tail := Nth(s.fifo.tail, s.tx.n)), consumed := s.consumed + s.tx.n, stale := 0, tx := Resting)
    case Message(ok) => if ok then s.(credits := s.credits - 1, inFlight := s.inFlight + 1) else s
    case Sent => s.(inFlight := s.inFlight - 1, credits := Min(s.credits + 1, CREDITS))
    case Enable =>
      StreamState(s.fifo.(tail := s.fifo.head, ctr := 0, dropped := 0), s.credits, s.inFlight, s.tx,
                  PacketSize(s.tx), 0, [], 0, [], [], 0, 0)
  }

  /** Positions whose packet is settled though the tail has not passed them. */
  function Handled(s: StreamState): nat {
    if s.tx.Settled? && s.stale == 0 then s.tx.n else 0
  }

  /** The pending packet: of this subscription, or from before it. */
  ghost predicate TxOk(s: StreamState) {
    && (!s.tx.Resting? ==> 0 < PacketSize(s.tx) <= STREAM_MAX)
    && (s.stale == 0 ==> s.consumed + PacketSize(s.tx) <= |s.accepted|)
    && (s.stale == 0 && (s.tx.Packed? || s.tx.Paid?) ==> s.tx.chunk == s.accepted[s.consumed..s.consumed + |s.tx.chunk|])
    && (s.stale > 0 ==>
          && s.stale == PacketSize(s.tx)
          && s.consumed == 0 && s.sentAt == []
          && (s.failed == 0 || (s.failed == s.stale && s.tx.Settled?)))
  }

  /** The ring holds the staged samples the tail has not passed. */
  ghost predicate RingHolds(f: Fifo, accepted: seq<Sample>, consumed: nat) {
    && |f.slots| == SFIFO_N && consumed <= |accepted| <= consumed + SFIFO_N
    && Holds(f.slots, f.head, f.tail, accepted[consumed..])
  }

  /** Every sent sample is the staged one at its position. */
  ghost predicate SentOk(s: StreamState) {
    && |s.sent| == |s.sentAt|
    && forall k :: 0 <= k < |s.sent| ==> s.sentAt[k] < |s.accepted| && s.sent[k] == s.accepted[s.sentAt[k]]
  }

  ghost predicate PositionsOk(s: StreamState) {
    && (s.stale == 0 ==> s.consumed + Handled(s) == |s.sentAt| + s.failed)
    && Ascending(s.sentAt)
    && (forall k :: 0 <= k < |s.sentAt| ==> s.sentAt[k] < s.consumed + Handled(s))
    && SentOk(s)
  }

  ghost predicate Inv(s: StreamState) {
    && RingHolds(s.fifo, s.accepted, s.consumed)
    && TxOk(s)
    && PositionsOk(s)
    && s.picked == |s.accepted| + s.full
    && s.fifo.dropped == Wrap(s.full + s.failed)
    && s.credits + s.inFlight + (if s.tx.Paid? then 1 else 0) == CREDITS
  }

  function Init(slots: seq<Sample>): StreamState {
    StreamState(Fifo(slots, 0, 0, 0, 0), CREDITS, 0, Resting, 0, 0, [], 0, [], [], 0, 0)
  }

  // ---- preservation ----------------------------------------------------------------

  lemma OfferStages(f: Fifo, x: Sample, accepted: seq<Sample>, consumed: nat)
    requires RingHolds(f, accepted, consumed) && Count(f) < SFIFO_N
    ensures RingHolds(f.(slots := f.slots[Slot(f.head, SFIFO_N) := x], head := Wrap(f.head + 1)), accepted + [x], consumed)
  {
    var queue := accepted[consumed..];
    DividingRingNeverClashes(f.tail, |queue|, SFIFO_N);
    PushAppends(f.slots, f.head, f.tail, queue, x);
    assert (accepted + [x])[consumed..] == queue + [x];
  }

  lemma TailMoves(f: Fifo, accepted: seq<Sample>, consumed: nat, n: nat)
    requires RingHolds(f, accepted, consumed) && consumed + n <= |accepted|
    ensures RingHolds(f.(tail := Nth(f.tail, n)), accepted, consumed + n)
    ensures FromTail(f, n) == accepted[consumed..consumed + n]
  {
    PopRemoves(f.slots, f.head, f.tail, accepted[consumed..], n);
    assert accepted[consumed..][n..] == accepted[consumed + n..];
  }

  lemma RingRestarts(f: Fifo)
    requires |f.slots| == SFIFO_N
    ensures RingHolds(f.(tail := f.head, ctr := 0, dropped := 0), [], 0)
  {
    EmptyHolds(f.slots, f.head);
  }

  lemma CountIsPending(f: Fifo, accepted: seq<Sample>, consumed: nat)
    requires RingHolds(f, accepted, consumed)
    ensures Count(f) == |accepted| - consumed
  {
  }

  lemma SentGrows(sentAt: seq<nat>, from: nat, n: nat)
    requires Ascending(sentAt) && forall k :: 0 <= k < |sentAt| ==> sentAt[k] < from
    ensures Ascending(sentAt + CountUp(from, n))
    ensures forall k :: 0 <= k < |sentAt| + n ==> (sentAt + CountUp(from, n))[k] < from + n
  {
  }

  lemma AcceptKeepsPositions(s: StreamState, d: StreamState, x: Sample)
    requires PositionsOk(s) && TxOk(s) && d.accepted == s.accepted + [x]
    requires d.stale == s.stale && d.consumed == s.consumed && d.tx == s.tx && d.failed == s.failed
    requires d.sent == s.sent && d.sentAt == s.sentAt
    ensures PositionsOk(d) && TxOk(d)
  {
  }

  lemma AcceptKeeps(s: StreamState, x: Sample, decim: int)
    requires Inv(s) && 1 <= decim <= 255 && Picked(s.fifo.ctr, decim) && Count(s.fifo) < SFIFO_N
    ensures Inv(Next(s, Offer(x, decim)))
  {
    OfferStages(s.fifo, x, s.accepted, s.consumed);
    AcceptKeepsPositions(s, Next(s, Offer(x, decim)), x);
  }

  lemma OfferKeeps(s: StreamState, x: Sample, decim: int)
    requires Inv(s) && 1 <= decim <= 255
    ensures Inv(Next(s, Offer(x, decim)))
  {
    if Picked(s.fifo.ctr, decim) && Count(s.fifo) < SFIFO_N {
      AcceptKeeps(s, x, decim);
    } else {
      WrapAdd(s.full + s.failed, 1);
    }
  }

  lemma BeginKeeps(s: StreamState, n: nat)
    requires Inv(s) && Enabled(s, Begin(n))
    ensures Inv(Next(s, Begin(n)))
  {
    CountIsPending(s.fifo, s.accepted, s.consumed);
    TailMoves(s.fifo, s.accepted, s.consumed, n);
  }

  lemma SentMore(accepted: seq<Sample>, sent: seq<Sample>, sentAt: seq<nat>, from: nat, chunk: seq<Sample>)
    requires from + |chunk| <= |accepted| && chunk == accepted[from..from + |chunk|] && |sent| == |sentAt|
    requires forall k :: 0 <= k < |sent| ==> sentAt[k] < |accepted| && sent[k] == accepted[sentAt[k]]
    ensures var all, at := sent + chunk, sentAt + CountUp(from, |chunk|);
      forall k :: 0 <= k < |all| ==> at[k] < |accepted| && all[k] == accepted[at[k]]
  {
  }

  lemma NotifyKeeps(s: StreamState)
    requires Inv(s) && s.tx.Paid?
    ensures Inv(Next(s, NotifyOk))
  {
    if s.stale == 0 {
      SentGrows(s.sentAt, s.consumed, |s.tx.chunk|);
      SentMore(s.accepted, s.sent, s.sentAt, s.consumed, s.tx.chunk);
    }
  }

  lemma ChargeKeeps(s: StreamState)
    requires Inv(s) && s.tx.Failed?
    ensures Inv(Next(s, Charge))
  {
    WrapAdd(s.full + s.failed, s.tx.n);
  }

  lemma AdvanceKeeps(s: StreamState)
    requires Inv(s) && s.tx.Settled? && s.stale == 0
    ensures Inv(Next(s, Advance))
  {
    TailMoves(s.fifo, s.accepted, s.consumed, s.tx.n);
  }

  lemma EnableKeeps(s: StreamState)
    requires Inv(s)
    ensures Inv(Next(s, Enable))
  {
    RingRestarts(s.fifo);
  }

  /** The tail moves past packets of the running subscription only. */
  predicate OwnPacket(s: StreamState, step: Step) {
    step.Advance? ==> s.stale == 0
  }

  lemma StepKeeps(s: StreamState, step: Step)
    requires Inv(s) && Enabled(s, step) && OwnPacket(s, step)
    ensures Inv(Next(s, step))
  {
    match step
    case Offer(x, decim) => OfferKeeps(s, x, decim);
    case Begin(n) => BeginKeeps(s, n);
    case NotifyOk => NotifyKeeps(s);
    case Charge => ChargeKeeps(s);
    case Advance => AdvanceKeeps(s);
    case Enable => EnableKeeps(s);
    case _ =>
  }

  ghost predicate IsRun(from: StreamState, steps: seq<Step>, to: StreamState)
    decreases |steps|
  {
    |from.fifo.slots| == SFIFO_N &&
    if steps == [] then from == to
    else Enabled(from, steps[0]) && IsRun(Next(from, steps[0]), steps[1..], to)
  }

  /** A run in which no packet from before a subscription moves the tail. */
  ghost predicate IsOwnRun(from: StreamState, steps: seq<Step>, to: StreamState)
    decreases |steps|
  {
    |from.fifo.slots| == SFIFO_N &&
    if steps == [] then from == to
    else
      && Enabled(from, steps[0]) && OwnPacket(from, steps[0])
      && IsOwnRun(Next(from, steps[0]), steps[1..], to)
  }

  lemma {:induction false} RunsKeep(from: StreamState, steps: seq<Step>, to: StreamState)
    requires Inv(from) && IsOwnRun(from, steps, to)
    ensures Inv(to)
    decreases |steps|
  {
    if steps != [] {
      StepKeeps(from, steps[0]);
      RunsKeep(Next(from, steps[0]), steps[1..], to);
    }
  }

  /** Every subscription of the run begins between two packets. */
  ghost predicate EnablesAtRest(from: StreamState, steps: seq<Step>)
    requires |from.fifo.slots| == SFIFO_N
    decreases |steps|
  {
    steps == [] || (Enabled(from, steps[0]) ==>
      (steps[0].Enable? ==> from.tx.Resting?) && EnablesAtRest(Next(from, steps[0]), steps[1..]))
  }

  lemma {:induction false} RestingEnablesAreOwn(from: StreamState, steps: seq<Step>, to: StreamState)
    requires from.stale == 0 && IsRun(from, steps, to) && EnablesAtRest(from, steps)
    ensures IsOwnRun(from, steps, to) && to.stale == 0
    decreases |steps|
  {
    if steps != [] {
      RestingEnablesAreOwn(Next(from, steps[0]), steps[1..], to);
    }
  }

  lemma InitInv(slots: seq<Sample>)
    requires |slots| == SFIFO_N
    ensures Inv(Init(slots))
  {
    EmptyHolds(slots, 0);
  }

  lemma InvAccounts(s: StreamState)
    requires Inv(s) && s.stale == 0
    ensures Count(s.fifo) >= Handled(s)
    ensures s.picked == |s.sentAt| + (Count(s.fifo) - Handled(s)) + (s.full + s.failed)
  {
    CountIsPending(s.fifo, s.accepted, s.consumed);
  }

  /** Over every interleaving: what decimation picked was sent, is still pending, or is in
      the dropped count the packets carry; sent samples keep their order; the link never
      holds more than two notifications, and no credit is lost or made up. */
  lemma {:induction false} StreamAccounting(slots: seq<Sample>, steps: seq<Step>, s: StreamState)
    requires |slots| == SFIFO_N && IsOwnRun(Init(slots), steps, s) && s.stale == 0
    ensures Count(s.fifo) >= Handled(s)
    ensures s.picked == |s.sentAt| + (Count(s.fifo) - Handled(s)) + (s.full + s.failed)
    ensures s.fifo.dropped == Wrap(s.full + s.failed)
    ensures Ascending(s.sentAt) && SentOk(s)
    ensures s.credits + s.inFlight + (if s.tx.Paid? then 1 else 0) == CREDITS
  {
    InitInv(slots);
    RunsKeep(Init(slots), steps, s);
    InvAccounts(s);
  }

  /** Subscriptions that begin between two packets never break the accounting. */
  lemma {:induction false} RestingSubscriptionsAccount(slots: seq<Sample>, steps: seq<Step>, s: StreamState)
    requires |slots| == SFIFO_N && IsRun(Init(slots), steps, s) && EnablesAtRest(Init(slots), steps)
    ensures Count(s.fifo) >= Handled(s)
    ensures s.picked == |s.sentAt| + (Count(s.fifo) - Handled(s)) + (s.full + s.failed)
    ensures s.fifo.dropped == Wrap(s.full + s.failed) && Ascending(s.sentAt) && SentOk(s)
  {
    RestingEnablesAreOwn(Init(slots), steps, s);
    StreamAccounting(slots, steps, s);
  }

  /** Steps of the TX thread still to go before it rests, at most. */
  function ToGo(tx: Tx): nat {
    match tx
    case Resting => 0
    case Packed(_) => 4
    case Paid(_) => 3
    case Failed(_) => 2
    case Settled(_) => 1
  }

  predicate TxStep(step: Step) {
    step.TakeCredit? || step.Jam? || step.NotifyOk? || step.NotifyFail? || step.Charge? || step.Advance?
  }

  /** The TX thread is never stuck and never sent back: while it is busy one of its steps is
      possible, each brings it closer to rest, and no step of the others moves it. */
  lemma TxAlwaysMoves(s: StreamState, step: Step)
    requires |s.fifo.slots| == SFIFO_N && !s.tx.Resting? && Enabled(s, step)
    ensures Enabled(s, TakeCredit) || Enabled(s, Jam) || Enabled(s, NotifyFail) || Enabled(s, Charge) || Enabled(s, Advance)
    ensures if TxStep(step) then ToGo(Next(s, step).tx) < ToGo(s.tx) else Next(s, step).tx == s.tx
  {
  }

  /** A resting TX thread can send exactly when something is pending, up to 14 samples. */
  lemma RestingSendsWhatIsPending(s: StreamState, n: nat)
    requires s.tx.Resting?
    ensures Enabled(s, Begin(n)) <==> 1 <= n <= 14 && n <= Count(s.fifo)
  {
  }

  // ---- subscribing in the middle of a send ------------------------------------------

  /** Between two packets: every picked sample is sent, pending or counted as dropped. */
  predicate Accounts(s: StreamState) {
    s.picked == |s.sentAt| + Count(s.fifo) + s.full + s.failed
  }

  predicate NoEnableNorAdvance(steps: seq<Step>) {
    forall i :: 0 <= i < |steps| ==> !steps[i].Enable? && !steps[i].Advance?
  }

  lemma {:induction false} StaleStays(from: StreamState, steps: seq<Step>, to: StreamState)
    requires Inv(from) && IsRun(from, steps, to) && NoEnableNorAdvance(steps)
    ensures Inv(to) && to.stale == from.stale
    decreases |steps|
  {
    if steps != [] {
      StepKeeps(from, steps[0]);
      StaleStays(Next(from, steps[0]), steps[1..], to);
    }
  }

  /** Moving the tail n past a queue of m samples that it does not count. */
  lemma TailOvertakes(head: u32, tail: u32, m: nat, n: nat)
    requires Sub(head, tail) == m <= SFIFO_N && n <= STREAM_MAX
    ensures Sub(head, Nth(tail, n)) == if n <= m then m - n else TWO32 - (n - m)
  {
  }

  /** Subscribing again while a packet is being sent, which the TX thread then moves past:
      the accounting of the new subscription holds after that move if and only if nothing was
      being sent, or the packet was given up after the subscription began and at least as
      many new samples were staged meanwhile (they vanish in its place).  Otherwise, with
      fewer new samples than the packet is long, the tail overtakes the head and the count
      stands just below 2^32; with as many or more, that many new samples vanish uncounted. */
  lemma {:induction false} EnableIsSafeIffNotSending(slots: seq<Sample>, steps: seq<Step>, s: StreamState,
                                                     during: seq<Step>, v: StreamState)
    requires |slots| == SFIFO_N && IsOwnRun(Init(slots), steps, s) && |s.fifo.slots| == SFIFO_N
    requires IsRun(Next(s, Enable), during, v) && NoEnableNorAdvance(during) && v.tx.Settled? && |v.fifo.slots| == SFIFO_N
    ensures Accounts(Next(v, Advance)) <==> s.tx.Resting? || v.failed == v.tx.n <= |v.accepted|
    ensures !s.tx.Resting? ==> var m, n, t := |v.accepted|, v.tx.n, Next(v, Advance);
      && t.sentAt == [] && t.picked == m + t.full
      && Count(t.fifo) == if n <= m then m - n else TWO32 - (n - m)
  {
    InitInv(slots);
    RunsKeep(Init(slots), steps, s);
    EnableKeeps(s);
    StaleStays(Next(s, Enable), during, v);
    if s.tx.Resting? {
      AdvanceKeeps(v);
      InvAccounts(Next(v, Advance));
    } else {
      CountIsPending(v.fifo, v.accepted, v.consumed);
      TailOvertakes(v.fifo.head, v.fifo.tail, |v.accepted|, v.tx.n);
    }
  }

  /** How far any packet can move the tail. */
  lemma TailMovesLittle(s: StreamState, step: Step)
    requires |s.fifo.slots| == SFIFO_N && Enabled(s, step) && !step.Enable? && PacketSize(s.tx) <= STREAM_MAX
    requires Count(s.fifo) >= SFIFO_N + STREAM_MAX
    ensures var d := Next(s, step);
      && PacketSize(d.tx) <= STREAM_MAX && Count(d.fifo) >= Count(s.fifo) - STREAM_MAX
      && d.accepted == s.accepted && d.picked - s.picked == d.full - s.full
  {
    if step.Advance? {
      PoppedCounterFacts(s.fifo.head, s.fifo.tail, s.tx.n);
    }
  }

  /** Once the tail has overtaken the head every picked sample is discarded, for as many
      steps as it takes packets of stale slots to bring the count of almost 2^32 down. */
  lemma {:induction false} OvertakenDiscardsAll(s: StreamState, steps: seq<Step>, to: StreamState)
    requires IsRun(s, steps, to) && PacketSize(s.tx) <= STREAM_MAX
    requires forall i :: 0 <= i < |steps| ==> !steps[i].Enable?
    requires Count(s.fifo) >= SFIFO_N + STREAM_MAX * (|steps| + 1)
    ensures to.accepted == s.accepted && to.picked - s.picked == to.full - s.full
    decreases |steps|
  {
    if steps != [] {
      TailMovesLittle(s, steps[0]);
      OvertakenDiscardsAll(Next(s, steps[0]), steps[1..], to);
    }
  }

  // ---- what one call of the sink stages ------------------------------------------------

  /** The samples of xs that the decimation picks, the counter standing at ctr. */
  function Chosen(ctr: u32, xs: seq<Sample>, decim: int): (chosen: seq<Sample>)
    requires decim > 0
    decreases |xs|
  {
    if xs == [] then []
    else
      var n := |xs| - 1;
      Chosen(ctr, xs[..n], decim) + if Picked(Nth(ctr, n), decim) then [xs[n]] else []
  }

  /** The chosen samples are exactly those whose counter value is a multiple of decim, in the
      order they came; `at` are their positions. */
  lemma {:induction false} ChosenAreTheMultiples(ctr: u32, xs: seq<Sample>, decim: int) returns (at: seq<nat>)
    requires decim > 0 && ctr + |xs| <= TWO32
    ensures Ascending(at) && |at| == |Chosen(ctr, xs, decim)|
    ensures forall j :: 0 <= j < |at| ==> at[j] < |xs| && Chosen(ctr, xs, decim)[j] == xs[at[j]]
    ensures forall i :: 0 <= i < |xs| ==> (i in at <==> (ctr + i) % decim == 0)
    decreases |xs|
  {
    if xs == [] {
      at := [];
    } else {
      var n := |xs| - 1;
      at := ChosenAreTheMultiples(ctr, xs[..n], decim);
      SmallCounter(ctr, n);
      if (ctr + n) % decim == 0 {
        forall i | 0 <= i < |xs|
          ensures i in at + [n] <==> (ctr + i) % decim == 0
        {
          if i == n { assert (at + [n])[|at|] == n; }
        }
        at := at + [n];
      }
    }
  }

  lemma SmallCounter(ctr: u32, n: nat)
    requires ctr + n < TWO32
    ensures Nth(ctr, n) == ctr + n
  {
  }

  /** From the start of a subscription the decimation takes the first sample and then every
      decim-th one. */
  lemma {:induction false} EveryDecimthIsChosen(xs: seq<Sample>, decim: int)
    requires decim > 0 && |xs| <= TWO32
    ensures |Chosen(0, xs, decim)| == (|xs| + decim - 1) / decim
    ensures forall j :: 0 <= j < |Chosen(0, xs, decim)| ==> j * decim < |xs| && Chosen(0, xs, decim)[j] == xs[j * decim]
    decreases |xs|
  {
    if xs == [] {
      SmallQuotient(decim - 1, decim);
    } else {
      var n := |xs| - 1;
      EveryDecimthIsChosen(xs[..n], decim);
      SmallCounter(0, n);
      CountToNext(n, decim);
    }
  }

  lemma SmallQuotient(x: nat, d: int)
    requires x < d
    ensures x / d == 0
  {
  }

  /** Rounded up, n / d grows exactly after the multiples of d. */
  lemma CountToNext(n: nat, d: int)
    requires d > 0
    ensures (n + d) / d == (n + d - 1) / d + (if n % d == 0 then 1 else 0)
    ensures n % d == 0 ==> (n + d - 1) / d * d == n
  {
    var q, r := n / d, n % d;
    assert n == d * q + r;
    if r == 0 {
      Quotient(n + d - 1, d, q, d - 1);
      Quotient(n + d, d, q + 1, 0);
      assert q * d == d * q;
    } else {
      Quotient(n + d - 1, d, q + 1, r - 1);
      Quotient(n + d, d, q + 1, r);
    }
  }

  lemma Quotient(x: int, d: int, q: int, r: int)
    requires d > 0 && 0 <= r < d && x == d * q + r
    ensures x / d == q
  {
    UniqueDivision(x, d, q, r);
    assert x == d * (x / d) + x % d;
    SameFactor(d, x / d, q);
  }

  lemma SameFactor(d: int, a: int, b: int)
    requires d > 0 && d * a == d * b
    ensures a == b
  {
    assert d * (b - a) == d * b - d * a && d * (a - b) == d * a - d * b;
    if a < b {
      MultipleGrows(d, b - a);
    } else if b < a {
      MultipleGrows(d, a - b);
    }
  }

  /** Fifo g is fifo f after a sink call that picked `chosen`: it holds the ones that fitted
      behind q, in order, and has counted the others. */
  ghost predicate Staged(f: Fifo, g: Fifo, q: seq<Sample>, chosen: seq<Sample>, n: nat)
    requires |q| <= SFIFO_N
  {
    var k := Min(|chosen|, SFIFO_N - |q|);
    && |g.slots| == SFIFO_N && g.tail == f.tail && g.ctr == Nth(f.ctr, n)
    && Holds(g.slots, g.head, g.tail, q + chosen[..k])
    && g.dropped == Wrap(f.dropped + (|chosen| - k))
  }

  lemma ChosenStaged(f: Fifo, g: Fifo, q: seq<Sample>, chosen: seq<Sample>, n: nat, x: Sample, decim: int)
    requires |q| <= SFIFO_N && decim > 0 && Staged(f, g, q, chosen, n)
    ensures Staged(f, OfferOne(g, x, decim), q, chosen + if Picked(Nth(f.ctr, n), decim) then [x] else [], n + 1)
  {
    var k := Min(|chosen|, SFIFO_N - |q|);
    WrapAdd(f.ctr + n, 1);
    WrapAdd(f.dropped + (|chosen| - k), 1);
    if !Picked(g.ctr, decim) {
      assert chosen + [] == chosen;
    } else if Count(g) >= SFIFO_N {
      assert (chosen + [x])[..k] == chosen[..k];
    } else {
      DividingRingNeverClashes(g.tail, |q| + k, SFIFO_N);
      PushAppends(g.slots, g.head, g.tail, q + chosen[..k], x);
      assert q + (chosen + [x])[..k + 1] == (q + chosen[..k]) + [x];
    }
  }

  /** One call of the sink stages exactly the picked samples that fit, in order, and counts
      the other picked ones. */
  lemma {:induction false} SinkStagesPicked(f: Fifo, q: seq<Sample>, xs: seq<Sample>, decim: int)
    requires decim > 0 && |f.slots| == SFIFO_N && |q| <= SFIFO_N && Holds(f.slots, f.head, f.tail, q)
    ensures Staged(f, OfferAll(f, xs, decim), q, Chosen(f.ctr, xs, decim), |xs|)
    decreases |xs|
  {
    if xs == [] {
      assert q + [] == q;
    } else {
      var n := |xs| - 1;
      SinkStagesPicked(f, q, xs[..n], decim);
      ChosenStaged(f, OfferAll(f, xs[..n], decim), q, Chosen(f.ctr, xs[..n], decim), n, xs[n], decim);
    }
  }

  // ---- the FIFO on its array ----------------------------------------------------------

  class StreamFifo {
    var sfifo: array<Sample>
    var head: u32
    var tail: u32
    var ctr: u32
    var dropped: u32

    ghost predicate Valid()
      reads this
    {
      sfifo.Length == SFIFO_N
    }

    ghost function Contents(): (f: Fifo)
      reads this, sfifo
      requires Valid()
      ensures |f.slots| == SFIFO_N
    {
      Fifo(sfifo[..], head, tail, ctr, dropped)
    }

    constructor ()
      ensures Valid() && Holds(Contents().slots, head, tail, []) && ctr == dropped == 0
    {
      sfifo := new Sample[SFIFO_N](_ => Sample(NO_READINGS, 0));
      head, tail, ctr, dropped := 0, 0, 0, 0;
    }

    /** stream_sink: decimate and stage (what that comes to: SinkStagesPicked). */
    method Sink(xs: seq<Sample>, decim: int)
      requires Valid() && 1 <= decim <= 255
      modifies this, sfifo
      ensures Valid() && sfifo == old(sfifo) && Contents() == OfferAll(old(Contents()), xs, decim)
    {
      for i := 0 to |xs|
        invariant Valid() && sfifo == old(sfifo)
        invariant Contents() == OfferAll(old(Contents()), xs[..i], decim)
      {
        assert xs[..i + 1][..i] == xs[..i];
        var c := ctr;
        ctr := Wrap(ctr + 1);
        if c % decim == 0 {
          if Sub(head, tail) >= SFIFO_N {
            dropped := Wrap(dropped + 1);
          } else {
            sfifo[Slot(head, SFIFO_N)] := xs[i];
            head := Wrap(head + 1);
          }
        }
      }
      assert xs[..|xs|] == xs;
    }

    /** One packet of the TX thread: up to 14 samples from the tail leave the FIFO, sent or
        discarded; from a sound FIFO they are the oldest ones. */
    method SendPacket(accepted: bool) returns (packet: seq<Sample>)
      requires Valid() && head != tail
      modifies `tail, `dropped
      ensures Valid() && |packet| == Min(Sub(head, old(tail)), STREAM_MAX) && tail == Nth(old(tail), |packet|)
      ensures packet == FromTail(old(Contents()), |packet|)
      ensures Sub(head, old(tail)) <= SFIFO_N ==>
        && Sub(head, tail) <= SFIFO_N
        && Outstanding(sfifo[..], head, old(tail)) == packet + Outstanding(sfifo[..], head, tail)
      ensures dropped == if accepted then old(dropped) else Wrap(old(dropped) + |packet|)
    {
      var n := Min(Sub(head, tail), STREAM_MAX);
      packet := [];
      for i := 0 to n
        invariant packet == FromTail(Contents(), i)
      {
        packet := packet + [sfifo[Slot(Nth(tail, i), SFIFO_N)]];
      }
      if !accepted {
        dropped := Wrap(dropped + n);
      }
      PoppedCounterFacts(head, tail, n);
      if Sub(head, tail) <= SFIFO_N {
        PacketIsOldest(sfifo[..], head, tail, n);
      }
      tail := Nth(tail, n);
    }
  }

  lemma PacketIsOldest(slots: seq<Sample>, head: u32, tail: u32, n: nat)
    requires |slots| == SFIFO_N && n <= Sub(head, tail) <= SFIFO_N
    ensures Sub(head, Nth(tail, n)) <= SFIFO_N
    ensures Outstanding(slots, head, tail) == FromTail(Fifo(slots, head, tail, 0, 0), n) + Outstanding(slots, head, Nth(tail, n))
  {
    var q := Outstanding(slots, head, tail);
    PopRemoves(slots, head, tail, q, n);
    PoppedCounterFacts(head, tail, n);
    HeldIsOutstanding(slots, head, Nth(tail, n), q[n..]);
    assert q == q[..n] + q[n..];
  }
}
