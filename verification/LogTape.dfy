/** What the flash ring physically holds, over any number of crashes.

    The tape is the last thing written at every absolute position up to the high-water mark,
    records that a crash made the log forget and torn batches included.  It follows the runs
    of LogRuns event by event and decides exactly what a session read returns. */
module LogTape {
  import opened Words
  import opened Rings
  import opened LogSpec
  import opened LogRuns
  import opened LogInvariant
  import opened LogArchive
  import opened LogReads

  /** The tape after `bytes` were written from position `at` on. */
  function Overlay(tape: seq<Byte>, at: nat, bytes: seq<Byte>): (after: seq<Byte>)
    requires at <= |tape|
    ensures |after| == Max(|tape|, at + |bytes|)
    ensures forall p :: 0 <= p < |after| ==> after[p] == if at <= p < at + |bytes| then bytes[p - at] else tape[p]
  {
    tape[..at] + bytes + tape[Min(|tape|, at + |bytes|)..]
  }

  /** The tape holds the history, and the ring its last 43478 records. */
  ghost predicate Taped(w: World, tape: seq<Byte>)
    requires Shaped(w.log)
  {
    && |tape| == REC_SIZE * w.high
    && w.hist <= tape
    && RingAgrees(w.log.nv.data, tape, w.high)
  }

  ghost function NextTape(w: World, tape: seq<Byte>, e: Event): seq<Byte>
    requires Shaped(w.log) && Enabled(w, e) && |w.hist| == REC_SIZE * w.log.ram.total <= |tape|
  {
    match e
    case WriterDrain => Overlay(tape, |w.hist|, NewBytes(w))
    case EraseAll => []
    case Reset(cut, fw) =>
      if Image(w, cut).stamp != Some(fw) then []
      else if cut.DuringBatch? then Overlay(tape, |w.hist|, cut.junk)
      else if cut.DuringRefresh? then Overlay(tape, |w.hist|, NewBytes(w))
      else tape
    case _ => tape
  }

  // ---- preservation ----------------------------------------------------------------

  /** A batch takes the cells of its own positions, and of no other within a ring length of
      the high-water mark, even where that is ahead of the counter. */
  lemma BatchKeepsTape(data: seq<Byte>, tape: seq<Byte>, high: nat, total: nat, n: nat, bytes: seq<Byte>)
    requires |data| == DATA_CAPACITY && |tape| == REC_SIZE * high && RingAgrees(data, tape, high)
    requires total <= high && high <= total + 767 && n <= BATCH_RECS
    requires total % REC_CAPACITY + n <= REC_CAPACITY && |bytes| == REC_SIZE * n
    ensures RingAgrees(Splice(data, total % REC_CAPACITY * REC_SIZE, bytes), Overlay(tape, REC_SIZE * total, bytes), Max(high, total + n))
  {
    var after, over, mark := Splice(data, total % REC_CAPACITY * REC_SIZE, bytes), Overlay(tape, REC_SIZE * total, bytes), Max(high, total + n);
    forall p | 0 <= p < |over| && REC_SIZE * mark - DATA_CAPACITY <= p
      ensures after[p % DATA_CAPACITY] == over[p]
    {
      if p < REC_SIZE * (total + n) {
        BatchCells(total, n, p);
      } else {
        AheadOfBatch(total, n, p);
      }
    }
  }

  lemma AheadOfBatch(total: nat, n: nat, p: nat)
    requires total % REC_CAPACITY + n <= REC_CAPACITY && n <= BATCH_RECS
    requires REC_SIZE * (total + n) <= p < REC_SIZE * (total + 767)
    ensures var off := total % REC_CAPACITY * REC_SIZE; !(off <= p % DATA_CAPACITY < off + REC_SIZE * n)
  {
    var off := total % REC_CAPACITY * REC_SIZE;
    RecordAndByteWrapAgree(total);
    var base := REC_SIZE * total;
    assert p % DATA_CAPACITY == if off + (p - base) < DATA_CAPACITY then off + (p - base) else off + (p - base) - DATA_CAPACITY by {
      WrapOnce(base, p - base);
    }
  }

  lemma WrapOnce(x: nat, d: nat)
    requires d < DATA_CAPACITY
    ensures (x + d) % DATA_CAPACITY
      == if x % DATA_CAPACITY + d < DATA_CAPACITY then x % DATA_CAPACITY + d else x % DATA_CAPACITY + d - DATA_CAPACITY
  {
    if x % DATA_CAPACITY + d < DATA_CAPACITY { CellShift(x, d); } else { NextTurn(x, d); }
  }

  lemma HighIsNear(w: World)
    requires Inv(w)
    ensures w.log.ram.total <= w.high <= w.log.ram.total + 767 && |w.hist| == REC_SIZE * w.log.ram.total
  {
    EndsWithinTotal(w.log);
  }

  lemma OverlayHoldsHistory(tape: seq<Byte>, hist: seq<Byte>, bytes: seq<Byte>)
    requires hist <= tape
    ensures hist + bytes <= Overlay(tape, |hist|, bytes)
  {
  }

  /** A batch on its way into the ring, whole or torn. */
  lemma WrittenTaped(w: World, tape: seq<Byte>, bytes: seq<Byte>)
    requires Inv(w) && Taped(w, tape) && |bytes| == REC_SIZE * DrainCount(w.log.ram)
    ensures var over, high := Overlay(tape, |w.hist|, bytes), Max(w.high, w.log.ram.total + DrainCount(w.log.ram));
      && |over| == REC_SIZE * high && w.hist + bytes <= over
      && RingAgrees(Splice(w.log.nv.data, WriteOffset(w.log.ram), bytes), over, high)
  {
    HighIsNear(w);
    OverlayHoldsHistory(tape, w.hist, bytes);
    BatchKeepsTape(w.log.nv.data, tape, w.high, w.log.ram.total, DrainCount(w.log.ram), bytes);
  }

  lemma DrainWrites(s: Log)
    requires Shaped(s)
    ensures LogSpec.Drain(s).nv.data == Splice(s.nv.data, WriteOffset(s.ram), Flatten(Batch(s)))
  {
    if DrainCount(s.ram) == 0 {
      EmptyDrain(s);
    } else {
      RefreshTouchesDirectoryOnly(WroteBatch(s));
    }
  }

  /** Booting from an image that agrees with a tape that holds the history. */
  lemma BootTaped(w: World, cut: Cut, fw: u32, tape: seq<Byte>)
    requires Shaped(w.log) && CutPossible(w, cut) && Image(w, cut).stamp == Some(fw)
    requires |tape| == REC_SIZE * HighAt(w, cut) && RingAgrees(Image(w, cut).data, tape, HighAt(w, cut))
    requires (if cut.DuringRefresh? then w.hist + NewBytes(w) else w.hist) <= tape
    ensures Taped(AfterReset(w, cut, fw), tape)
  {
  }

  lemma TornTaped(w: World, tape: seq<Byte>, junk: seq<Byte>, fw: u32)
    requires Inv(w) && Taped(w, tape) && CutPossible(w, DuringBatch(junk)) && w.fw == fw
    ensures |w.hist| <= |tape| && Taped(AfterReset(w, DuringBatch(junk), fw), Overlay(tape, |w.hist|, junk))
  {
    WrittenTaped(w, tape, junk);
    BootTaped(w, DuringBatch(junk), fw, Overlay(tape, |w.hist|, junk));
  }

  lemma RefreshData(w: World, slots: nat)
    requires Shaped(w.log) && CutPossible(w, DuringRefresh(slots))
    ensures Image(w, DuringRefresh(slots)).data == Splice(w.log.nv.data, WriteOffset(w.log.ram), NewBytes(w))
  {
  }

  lemma RefreshTaped(w: World, tape: seq<Byte>, slots: nat, fw: u32)
    requires Inv(w) && Taped(w, tape) && CutPossible(w, DuringRefresh(slots)) && w.fw == fw
    ensures |w.hist| <= |tape| && Taped(AfterReset(w, DuringRefresh(slots), fw), Overlay(tape, |w.hist|, NewBytes(w)))
  {
    WrittenTaped(w, tape, NewBytes(w));
    RefreshData(w, slots);
    BootTaped(w, DuringRefresh(slots), fw, Overlay(tape, |w.hist|, NewBytes(w)));
  }

  lemma ResetTaped(w: World, tape: seq<Byte>, cut: Cut, fw: u32)
    requires Inv(w) && Taped(w, tape) && CutPossible(w, cut)
    requires |w.hist| == REC_SIZE * w.log.ram.total <= |tape|
    ensures Taped(AfterReset(w, cut, fw), NextTape(w, tape, Reset(cut, fw)))
  {
    if Image(w, cut).stamp == Some(fw) {
      match cut
      case Quiet => BootTaped(w, cut, fw, tape);
      case DuringBatch(junk) => TornTaped(w, tape, junk, fw);
      case DuringRefresh(slots) => RefreshTaped(w, tape, slots, fw);
      case DuringErase(_) =>
    }
  }

  lemma QuietlyTaped(w: World, tape: seq<Byte>, e: Event)
    requires Inv(w) && Taped(w, tape) && Enabled(w, e) && !e.WriterDrain? && !e.EraseAll? && !e.Reset?
    ensures Taped(Next(w, e), tape)
  {
  }

  lemma NextTaped(w: World, tape: seq<Byte>, e: Event)
    requires Inv(w) && Taped(w, tape) && Enabled(w, e)
    ensures |w.hist| == REC_SIZE * w.log.ram.total <= |tape|
    ensures Taped(Next(w, e), NextTape(w, tape, e))
  {
    match e
    case WriterDrain =>
      WrittenTaped(w, tape, NewBytes(w));
      DrainWrites(w.log);
    case EraseAll =>
    case Reset(cut, fw) => ResetTaped(w, tape, cut, fw);
    case _ => QuietlyTaped(w, tape, e);
  }

  /** The tape at the end of a run. */
  ghost predicate IsTapeOf(from: World, tape: seq<Byte>, events: seq<Event>, last: seq<Byte>)
    decreases |events|
  {
    Shaped(from.log) && |from.hist| == REC_SIZE * from.log.ram.total <= |tape| &&
    if events == [] then tape == last
    else Enabled(from, events[0]) && IsTapeOf(Next(from, events[0]), NextTape(from, tape, events[0]), events[1..], last)
  }

  lemma {:induction false} RunsTaped(from: World, tape: seq<Byte>, events: seq<Event>, to: World, last: seq<Byte>)
    requires Inv(from) && Taped(from, tape) && IsRun(from, events, to) && IsTapeOf(from, tape, events, last)
    ensures Inv(to) && Taped(to, last)
    decreases |events|
  {
    if events != [] {
      NextKeeps(from, events[0]);
      NextTaped(from, tape, events[0]);
      RunsTaped(Next(from, events[0]), NextTape(from, tape, events[0]), events[1..], to, last);
    }
  }

  lemma {:induction false} TapeExists(from: World, tape: seq<Byte>, events: seq<Event>, to: World) returns (last: seq<Byte>)
    requires Inv(from) && Taped(from, tape) && IsRun(from, events, to)
    ensures IsTapeOf(from, tape, events, last)
    decreases |events|
  {
    last := tape;
    HighIsNear(from);
    if events != [] {
      NextKeeps(from, events[0]);
      NextTaped(from, tape, events[0]);
      last := TapeExists(Next(from, events[0]), NextTape(from, tape, events[0]), events[1..], to);
    }
  }

  // ---- what reads return ---------------------------------------------------------------

  /** The position whose content is now in the ring cell of position p. */
  function ShownAt(end: nat, p: nat): nat {
    if p >= end - DATA_CAPACITY then p else p + DATA_CAPACITY
  }

  lemma TapeCell(data: seq<Byte>, tape: seq<Byte>, high: nat, p: nat)
    requires |data| == DATA_CAPACITY && |tape| == REC_SIZE * high && RingAgrees(data, tape, high)
    requires |tape| - 2 * DATA_CAPACITY <= p < |tape|
    ensures ShownAt(|tape|, p) < |tape| && data[p % DATA_CAPACITY] == tape[ShownAt(|tape|, p)]
  {
    if p < |tape| - DATA_CAPACITY {
      assert (p + DATA_CAPACITY) % DATA_CAPACITY == p % DATA_CAPACITY;
    }
  }

  /** Bytes fetched from position `first` on are what the tape shows there. */
  ghost predicate ShowsTape(got: seq<Byte>, tape: seq<Byte>, first: nat) {
    forall j :: 0 <= j < |got| ==> ShowsByte(got[j], tape, first + j)
  }

  predicate ShowsByte(b: Byte, tape: seq<Byte>, p: nat) {
    ShownAt(|tape|, p) < |tape| && b == tape[ShownAt(|tape|, p)]
  }

  lemma FetchedTape(got: seq<Byte>, data: seq<Byte>, tape: seq<Byte>, high: nat, first: nat, n: nat)
    requires |data| == DATA_CAPACITY && Fetches(got, data, first, n)
    requires |tape| == REC_SIZE * high && RingAgrees(data, tape, high)
    requires n > 0 ==> |tape| - 2 * DATA_CAPACITY <= first && first + n <= |tape|
    ensures ShowsTape(got, tape, first)
  {
    forall j | 0 <= j < |got|
      ensures ShowsByte(got[j], tape, first + j)
    {
      TapeCell(data, tape, high, first + j);
      assert got[j] == data[(first + j) % DATA_CAPACITY];
    }
  }

  lemma LocatedTape(s: Log, tape: seq<Byte>, high: nat, seqNo: u32, first: nat, n: nat, offset: u32, len: u32)
    requires Located(s, seqNo, first, n) && NoneOrFits(first + offset, Taken(n, offset, len))
    requires RingAgrees(s.nv.data, tape, high) && |tape| == REC_SIZE * high
    requires s.ram.total <= high && (n > 0 ==> |tape| - 2 * DATA_CAPACITY <= first)
    ensures ShowsTape(ReadSession(s, seqNo, offset, len), tape, first + offset)
  {
    LocatedFits(s, seqNo, first, n, offset, len);
    LocatedFetch(s, s.nv.data, seqNo, first, n, offset, len);
    assert OnRing(s, s.nv.data) == s;
    FetchedTape(ReadSession(s, seqNo, offset, len), s.nv.data, tape, high, first + offset, Taken(n, offset, len));
  }

  lemma FirstIsNear(w: World, seqNo: u32)
    requires Inv(w) && seqNo in w.starts
    ensures FirstByte(w, seqNo) >= REC_SIZE * w.high - 2 * DATA_CAPACITY
  {
    HighIsNear(w);
  }

  /** A read returns what the tape shows where the session's bytes were written. */
  lemma ReadShowsTape(w: World, tape: seq<Byte>, seqNo: u32, offset: u32, len: u32)
    requires Inv(w) && Taped(w, tape) && Known(w.log.nv.dir, seqNo) && Addressable(w, seqNo, offset, len)
    ensures seqNo in w.starts && ShowsTape(ReadSession(w.log, seqNo, offset, len), tape, FirstByte(w, seqNo) + offset)
  {
    KnownIsLocated(w, seqNo);
    HighIsNear(w);
    FirstIsNear(w, seqNo);
    LocatedTape(w.log, tape, w.high, seqNo, FirstByte(w, seqNo), |Readable(w, seqNo)|, offset, len);
  }

  /** Byte j of the read is the byte the session recorded there. */
  ghost predicate ReadsRight(w: World, seqNo: u32, offset: u32, len: u32, j: nat)
    requires Shaped(w.log)
  {
    var got, all := ReadSession(w.log, seqNo, offset, len), Readable(w, seqNo);
    j < |got| && offset + j < |all| && got[j] == all[offset + j]
  }

  lemma ReadableOnTape(w: World, tape: seq<Byte>, seqNo: u32, j: nat)
    requires Inv(w) && Taped(w, tape) && Known(w.log.nv.dir, seqNo) && j < |Readable(w, seqNo)|
    ensures seqNo in w.starts && FirstByte(w, seqNo) + j < |tape|
    ensures Readable(w, seqNo)[j] == tape[FirstByte(w, seqNo) + j]
  {
    ReadableIsHistory(w, seqNo, j);
  }

  /** The two together: a byte reads right exactly when the tape shows there what was
      written there. */
  lemma ReadsRightIffShown(w: World, tape: seq<Byte>, seqNo: u32, offset: u32, len: u32, j: nat)
    requires Inv(w) && Taped(w, tape) && Known(w.log.nv.dir, seqNo) && Addressable(w, seqNo, offset, len)
    requires j < Taken(|Readable(w, seqNo)|, offset, len)
    ensures seqNo in w.starts
    ensures var p := FirstByte(w, seqNo) + offset + j;
      && p < |tape| && ShownAt(|tape|, p) < |tape|
      && (ReadsRight(w, seqNo, offset, len, j) <==> tape[ShownAt(|tape|, p)] == tape[p])
  {
    ReadLength(w, seqNo, offset, len);
    ReadShowsTape(w, tape, seqNo, offset, len);
    ReadableOnTape(w, tape, seqNo, offset + j);
  }

  /** Exactly what reads return, over every run and any number of crashes: a byte of a session
      the directory knows reads as recorded if and only if it lies within one ring length of
      the last position ever written, or what was written one ring length after it happens to
      be the same. */
  lemma {:induction false} ReachableReadsExactly(data: seq<Byte>, fw: u32, events: seq<Event>, w: World, tape: seq<Byte>,
                                                 seqNo: u32, offset: u32, len: u32, j: nat)
    requires |data| == DATA_CAPACITY && IsRun(Factory(data, fw), events, w) && IsTapeOf(Factory(data, fw), [], events, tape)
    requires Shaped(w.log) && Known(w.log.nv.dir, seqNo) && Addressable(w, seqNo, offset, len)
    requires j < Taken(|Readable(w, seqNo)|, offset, len)
    ensures |tape| == REC_SIZE * w.high && w.hist <= tape && seqNo in w.starts
    ensures var p := FirstByte(w, seqNo) + offset + j;
      && p < |tape| && ShownAt(|tape|, p) < |tape|
      && (ReadsRight(w, seqNo, offset, len, j) <==> p >= |tape| - DATA_CAPACITY || tape[p + DATA_CAPACITY] == tape[p])
  {
    ReachableInv(data, fw, [], Factory(data, fw));
    RunsTaped(Factory(data, fw), [], events, w, tape);
    ReadsRightIffShown(w, tape, seqNo, offset, len, j);
  }
}
