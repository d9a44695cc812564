/** What the queries of the log return in every reachable world. */
module LogReads {
  import opened Words
  import opened Rings
  import opened LogSpec
  import opened LogRuns
  import opened LogInvariant
  import opened LogArchive

  // ---- byte addresses --------------------------------------------------------

  /** Ring cells the copy loop visits, in order. */
  function SpanCells(absByte: u32, len: nat): (cells: seq<int>)
    ensures |cells| == len
    ensures forall j :: 0 <= j < len ==> 0 <= cells[j] < DATA_CAPACITY
    decreases len
  {
    if len == 0 then []
    else
      var off := absByte % DATA_CAPACITY;
      var span := Min(len, DATA_CAPACITY - off);
      seq(span, j => off + j) + SpanCells(Wrap(absByte + span), len - span)
  }

  lemma {:induction false} SpansReadCells(data: seq<Byte>, absByte: u32, len: nat)
    requires |data| == DATA_CAPACITY
    ensures forall j :: 0 <= j < len ==> ReadSpans(data, absByte, len)[j] == data[SpanCells(absByte, len)[j]]
    decreases len
  {
    if len > 0 {
      var off := absByte % DATA_CAPACITY;
      var span := Min(len, DATA_CAPACITY - off);
      SpansReadCells(data, Wrap(absByte + span), len - span);
    }
  }

  /** Absolute positions [first, first + len) are all read from their own cells. */
  ghost predicate Addressed(first: nat, len: nat) {
    forall j :: 0 <= j < len ==> SpanCells(Wrap(first), len)[j] == (first + j) % DATA_CAPACITY
  }

  /** The uint32_t byte address does not wrap before the last contiguous span starts. */
  predicate AddressFits(first: nat, len: nat) {
    && first < TWO32
    && (first % DATA_CAPACITY + len <= DATA_CAPACITY || first - first % DATA_CAPACITY + DATA_CAPACITY < TWO32)
  }

  lemma CellShift(x: nat, j: nat)
    requires x % DATA_CAPACITY + j < DATA_CAPACITY
    ensures (x + j) % DATA_CAPACITY == x % DATA_CAPACITY + j
  {
  }

  lemma NextTurn(x: nat, j: nat)
    requires DATA_CAPACITY <= x % DATA_CAPACITY + j < 2 * DATA_CAPACITY
    ensures (x + j) % DATA_CAPACITY == x % DATA_CAPACITY + j - DATA_CAPACITY
  {
  }

  /** 2^32 and the ring length share no large factor: no address wrap lands on its cell. */
  lemma WrapMovesCell(x: nat, turns: nat)
    requires 1 <= turns <= REC_SIZE && TWO32 * turns <= x
    ensures (x - TWO32 * turns) % DATA_CAPACITY != x % DATA_CAPACITY
  {
    var y := x - TWO32 * turns;
    assert TWO32 == DATA_CAPACITY * 6174 + 36544;
    assert x - DATA_CAPACITY * (6174 * turns) == y + 36544 * turns;
    assert 36544 * turns < DATA_CAPACITY;
  }

  lemma OneSpan(absByte: u32, len: nat)
    requires absByte % DATA_CAPACITY + len <= DATA_CAPACITY
    ensures forall j :: 0 <= j < len ==> SpanCells(absByte, len)[j] == absByte % DATA_CAPACITY + j
  {
  }

  lemma TwoSpans(absByte: u32, len: nat)
    requires absByte % DATA_CAPACITY + len > DATA_CAPACITY
    ensures var span := DATA_CAPACITY - absByte % DATA_CAPACITY;
      && (forall j :: 0 <= j < span ==> SpanCells(absByte, len)[j] == absByte % DATA_CAPACITY + j)
      && (forall j :: span <= j < len ==> SpanCells(absByte, len)[j] == SpanCells(Wrap(absByte + span), len - span)[j - span])
  {
  }

  /** A read that straddles the end of the ring continues at cell 0, if its address fits. */
  lemma StraddlingCells(first: nat, len: nat)
    requires first < TWO32 && len <= DATA_CAPACITY && first % DATA_CAPACITY + len > DATA_CAPACITY
    requires first - first % DATA_CAPACITY + DATA_CAPACITY < TWO32
    ensures forall j :: 0 <= j < len ==>
      SpanCells(first, len)[j] ==
        if j < DATA_CAPACITY - first % DATA_CAPACITY then first % DATA_CAPACITY + j
        else first % DATA_CAPACITY + j - DATA_CAPACITY
  {
    var span := DATA_CAPACITY - first % DATA_CAPACITY;
    TwoSpans(first, len);
    TurnStart(first);
    FitsU32(first + span);
    OneSpan(first + span, len - span);
    forall j | span <= j < len
      ensures SpanCells(first, len)[j] == j - span
    {
      assert SpanCells(first + span, len - span)[j - span] == j - span;
    }
  }

  lemma TurnStart(first: nat)
    ensures (first + (DATA_CAPACITY - first % DATA_CAPACITY)) % DATA_CAPACITY == 0
  {
  }

  lemma FittingCell(first: nat, len: nat, j: nat)
    requires j < len <= DATA_CAPACITY && AddressFits(first, len)
    ensures SpanCells(first, len)[j] == (first + j) % DATA_CAPACITY
  {
    var off := first % DATA_CAPACITY;
    if off + len <= DATA_CAPACITY {
      OneSpan(first, len);
    } else {
      StraddlingCells(first, len);
    }
    if j < DATA_CAPACITY - off {
      CellShift(first, j);
    } else {
      NextTurn(first, j);
    }
  }

  lemma FittingAddresses(first: nat, len: nat)
    requires 0 < len <= DATA_CAPACITY && AddressFits(first, len)
    ensures Wrap(first) == first && Addressed(first, len)
  {
    FitsU32(first);
    forall j | 0 <= j < len
      ensures SpanCells(Wrap(first), len)[j] == (first + j) % DATA_CAPACITY
    {
      FittingCell(first, len, j);
    }
  }

  lemma WrappedStart(first: nat, len: nat)
    requires 0 < len && TWO32 <= first < REC_SIZE * TWO32
    ensures SpanCells(Wrap(first), len)[0] != first % DATA_CAPACITY
  {
    WrapMovesCell(first, first / TWO32);
    assert Wrap(first) == first - TWO32 * (first / TWO32);
    assert SpanCells(Wrap(first), len)[0] == Wrap(first) % DATA_CAPACITY;
  }

  lemma WrappedSecondSpan(first: nat, len: nat)
    requires first < TWO32 && len <= DATA_CAPACITY && first % DATA_CAPACITY + len > DATA_CAPACITY
    requires first - first % DATA_CAPACITY + DATA_CAPACITY >= TWO32
    ensures var span := DATA_CAPACITY - first % DATA_CAPACITY;
      SpanCells(first, len)[span] != (first + span) % DATA_CAPACITY
  {
    var span := DATA_CAPACITY - first % DATA_CAPACITY;
    TwoSpans(first, len);
    assert Wrap(first + span) == first + span - TWO32;
    assert SpanCells(Wrap(first + span), len - span)[0] == Wrap(first + span) % DATA_CAPACITY;
    WrapMovesCell(first + span, 1);
  }

  lemma UnfittingAddresses(first: nat, len: nat)
    requires 0 < len <= DATA_CAPACITY && first < REC_SIZE * TWO32 && !AddressFits(first, len)
    ensures !Addressed(first, len)
  {
    if first >= TWO32 {
      WrappedStart(first, len);
      assert SpanCells(Wrap(first), len)[0] != (first + 0) % DATA_CAPACITY;
    } else {
      WrappedSecondSpan(first, len);
      assert Wrap(first) == first;
    }
  }

  // ---- reads against the append-only history ----------------------------------

  /** What an append-only store that forgets all but the newest 43478 records still holds
      of session k: the bytes it recorded, less those that far behind the history's end. */
  ghost function Readable(w: World, k: nat): seq<Byte> {
    if k in w.sessions && k in w.starts
    then w.sessions[k][Min(|w.sessions[k]|, Max(0, |w.hist| - DATA_CAPACITY - REC_SIZE * w.starts[k]))..]
    else []
  }

  /** Position in the history of the first readable byte of session k. */
  ghost function FirstByte(w: World, k: nat): nat
    requires k in w.starts
  {
    Max(REC_SIZE * w.starts[k], |w.hist| - DATA_CAPACITY)
  }

  lemma FindsItsSlot(w: World, seqNo: u32)
    requires Inv(w)
    ensures FindSlot(w.log.nv.dir, seqNo, 0)
      == if Known(w.log.nv.dir, seqNo) then (seqNo - 1) % MAX_SESSIONS else MAX_SESSIONS
  {
    var found := FindSlot(w.log.nv.dir, seqNo, 0);
    if found < MAX_SESSIONS {
      assert EntryOk(w.log.nv.dir[found], found, w.log.ram.seqNext, w.log.ram.total);
    }
  }

  /** Record range against bytes: what is left of [start, start + count) in a ring. */
  lemma LeftInRing(start: nat, count: nat, total: nat)
    requires start + count <= total < TWO32
    ensures REC_SIZE * Max(start, RingFloor(total)) == Max(REC_SIZE * start, REC_SIZE * total - DATA_CAPACITY)
    ensures REC_SIZE * count - Min(REC_SIZE * count, Max(0, REC_SIZE * total - DATA_CAPACITY - REC_SIZE * start))
      == REC_SIZE * Max(0, start + count - Max(start, RingFloor(total)))
    ensures start + count - Max(start, RingFloor(total)) <= REC_CAPACITY
  {
  }

  lemma SlotRange(w: World, i: nat)
    requires Inv(w) && i < MAX_SESSIONS && w.log.nv.dir[i].Session?
    ensures var e := w.log.nv.dir[i];
      && LiveEnd(w.log, i) == e.start + CountOf(w.log, i) <= w.log.ram.total
      && (e.seqNo - 1) % MAX_SESSIONS == i && Known(w.log.nv.dir, e.seqNo)
      && e.seqNo in w.sessions && e.seqNo in w.starts
      && FirstByte(w, e.seqNo) == REC_SIZE * LiveStart(w.log, i)
      && |Readable(w, e.seqNo)| == REC_SIZE * Max(0, LiveEnd(w.log, i) - LiveStart(w.log, i))
      && LiveEnd(w.log, i) - LiveStart(w.log, i) <= REC_CAPACITY
  {
    var e := w.log.nv.dir[i];
    assert SessionOk(w, i);
    assert EntryOk(e, i, w.log.ram.seqNext, w.log.ram.total);
    LeftInRing(e.start, CountOf(w.log, i), w.log.ram.total);
  }

  lemma SuffixElement(s: seq<Byte>, skip: nat, j: nat)
    requires skip + j < |s|
    ensures s[skip..][j] == s[skip + j]
  {
  }

  lemma RecordsElement(hist: seq<Byte>, start: nat, count: nat, j: nat)
    requires REC_SIZE * (start + count) <= |hist| && j < REC_SIZE * count
    ensures Records(hist, start, count)[j] == hist[REC_SIZE * start + j]
  {
  }

  lemma LeftIsHistory(hist: seq<Byte>, start: nat, count: nat, skip: nat, j: nat)
    requires REC_SIZE * (start + count) <= |hist| && skip + j < REC_SIZE * count
    ensures Records(hist, start, count)[skip..][j] == hist[REC_SIZE * start + skip + j]
  {
    SuffixElement(Records(hist, start, count), skip, j);
    RecordsElement(hist, start, count, skip + j);
  }

  lemma SlotIsHistory(w: World, i: nat, j: nat)
    requires Shaped(w.log) && i < MAX_SESSIONS && w.log.nv.dir[i].Session? && SessionOk(w, i)
    requires j < |Readable(w, w.log.nv.dir[i].seqNo)|
    ensures var k := w.log.nv.dir[i].seqNo;
      k in w.starts && FirstByte(w, k) + j < |w.hist| && Readable(w, k)[j] == w.hist[FirstByte(w, k) + j]
  {
    var start, count := w.log.nv.dir[i].start, CountOf(w.log, i);
    var skip := Min(REC_SIZE * count, Max(0, |w.hist| - DATA_CAPACITY - REC_SIZE * start));
    LeftIsHistory(w.hist, start, count, skip, j);
  }

  /** Readable byte j of a session is history byte FirstByte + j. */
  lemma ReadableIsHistory(w: World, seqNo: u32, j: nat)
    requires Inv(w) && Known(w.log.nv.dir, seqNo) && j < |Readable(w, seqNo)|
    ensures seqNo in w.starts && FirstByte(w, seqNo) + j < |w.hist|
    ensures Readable(w, seqNo)[j] == w.hist[FirstByte(w, seqNo) + j]
  {
    var i := (seqNo - 1) % MAX_SESSIONS;
    assert SessionOk(w, i);
    SlotIsHistory(w, i, j);
  }

  lemma RangeLength(data: seq<Byte>, start: u32, end: u32, offset: u32, len: u32)
    requires |data| == DATA_CAPACITY && end - start <= REC_CAPACITY
    ensures |ReadRange(data, start, end, offset, len)|
      == if offset >= REC_SIZE * Max(0, end - start) then 0 else Min(len, REC_SIZE * (end - start) - offset)
  {
  }

  lemma RangeIsSpans(data: seq<Byte>, start: u32, end: u32, offset: u32, len: u32, avail: u32)
    requires |data| == DATA_CAPACITY && start < end && avail == Wrap((end - start) * REC_SIZE) && offset < avail
    ensures ReadRange(data, start, end, offset, len)
      == ReadSpans(data, Wrap(start * REC_SIZE + offset), Min(len, avail - offset))
  {
  }

  lemma FitsU32(x: int)
    requires 0 <= x < TWO32
    ensures Wrap(x) == x
  {
  }

  /** The bytes of a range come from the cells the copy loop visits. */
  lemma RangeCells(data: seq<Byte>, start: u32, end: u32, offset: u32, len: u32, got: seq<Byte>)
    requires |data| == DATA_CAPACITY && end - start <= REC_CAPACITY && got == ReadRange(data, start, end, offset, len)
    ensures got == CellBytes(data, Wrap(start * REC_SIZE + offset), |got|)
  {
    RangeLength(data, start, end, offset, len);
    if got != [] {
      var avail := (end - start) * REC_SIZE;
      FitsU32(avail);
      RangeIsSpans(data, start, end, offset, len, avail);
      SpansReadCells(data, Wrap(start * REC_SIZE + offset), |got|);
    }
  }

  /** The log over other contents of the record ring. */
  ghost function OnRing(s: Log, data: seq<Byte>): Log {
    s.(nv := s.nv.(data := data))
  }

  /** Bytes a read of `len` from `offset` gets of n readable ones. */
  function Taken(n: nat, offset: nat, len: nat): (taken: nat)
    ensures taken <= len && taken <= n && (taken > 0 ==> offset + taken <= n)
  {
    if offset >= n then 0 else Min(len, n - offset)
  }

  lemma WindowLength(content: seq<Byte>, offset: nat, len: nat)
    ensures |Window(content, offset, len)| == Taken(|content|, offset, len)
  {
  }

  /** The directory leads from session seqNo to the n bytes from position `first` on. */
  ghost predicate Located(s: Log, seqNo: u32, first: nat, n: nat) {
    && Shaped(s) && Known(s.nv.dir, seqNo)
    && FindSlot(s.nv.dir, seqNo, 0) == (seqNo - 1) % MAX_SESSIONS
    && var i := (seqNo - 1) % MAX_SESSIONS;
      && first == REC_SIZE * LiveStart(s, i)
      && n == REC_SIZE * Max(0, LiveEnd(s, i) - LiveStart(s, i))
      && LiveEnd(s, i) - LiveStart(s, i) <= REC_CAPACITY
      && LiveEnd(s, i) <= s.ram.total
  }

  /** A known session is located where the append-only store has its readable bytes. */
  lemma KnownIsLocated(w: World, seqNo: u32)
    requires Inv(w) && Known(w.log.nv.dir, seqNo)
    ensures seqNo in w.sessions && seqNo in w.starts
    ensures Located(w.log, seqNo, FirstByte(w, seqNo), |Readable(w, seqNo)|)
  {
    SlotRange(w, (seqNo - 1) % MAX_SESSIONS);
    FindsItsSlot(w, seqNo);
  }

  lemma LocatedFits(s: Log, seqNo: u32, first: nat, n: nat, offset: nat, len: nat)
    requires Located(s, seqNo, first, n)
    ensures n <= DATA_CAPACITY
    ensures Taken(n, offset, len) > 0 ==> first + offset + Taken(n, offset, len) <= REC_SIZE * s.ram.total
  {
  }

  /** A read of a located session is a read of its surviving record range, whatever the ring
      holds. */
  lemma ReadOfSlot(s: Log, data: seq<Byte>, seqNo: u32, offset: u32, len: u32, i: nat)
    requires Shaped(s) && |data| == DATA_CAPACITY && i < MAX_SESSIONS && s.nv.dir[i].Session?
    requires FindSlot(s.nv.dir, seqNo, 0) == i
    ensures ReadSession(OnRing(s, data), seqNo, offset, len) == ReadRange(data, LiveStart(s, i), LiveEnd(s, i), offset, len)
  {
    var o := OnRing(s, data);
    assert o.nv.dir == s.nv.dir && o.ram == s.ram;
    assert LiveStart(o, i) == LiveStart(s, i) && LiveEnd(o, i) == LiveEnd(s, i);
  }

  /** A read of n bytes from the given position of the history on fetches each of them from
      its own cell. */
  ghost predicate Fetches(got: seq<Byte>, data: seq<Byte>, first: nat, n: nat)
    requires |data| == DATA_CAPACITY
  {
    got == RingBytes(data, first, n)
  }

  /** The ring cells of positions first, ..., first + n - 1. */
  ghost function RingBytes(data: seq<Byte>, first: nat, n: nat): (bytes: seq<Byte>)
    requires |data| == DATA_CAPACITY
    ensures |bytes| == n
  {
    seq(n, j requires 0 <= j < n => data[(first + j) % DATA_CAPACITY])
  }

  ghost function CellBytes(data: seq<Byte>, absByte: u32, n: nat): (bytes: seq<Byte>)
    requires |data| == DATA_CAPACITY
    ensures |bytes| == n
  {
    seq(n, j requires 0 <= j < n => data[SpanCells(absByte, n)[j]])
  }

  /** It visits the cells of its 32-bit address. */
  ghost predicate Visits(got: seq<Byte>, data: seq<Byte>, first: nat, n: nat)
    requires |data| == DATA_CAPACITY
  {
    got == CellBytes(data, Wrap(first), n)
  }

  lemma RangeVisits(data: seq<Byte>, start: u32, end: u32, offset: u32, len: u32, got: seq<Byte>)
    requires |data| == DATA_CAPACITY && end - start <= REC_CAPACITY && got == ReadRange(data, start, end, offset, len)
    ensures Visits(got, data, REC_SIZE * start + offset, Taken(REC_SIZE * Max(0, end - start), offset, len))
  {
    RangeLength(data, start, end, offset, len);
    RangeCells(data, start, end, offset, len, got);
  }

  lemma SlotVisits(s: Log, data: seq<Byte>, seqNo: u32, offset: u32, len: u32, i: nat, got: seq<Byte>)
    requires Shaped(s) && |data| == DATA_CAPACITY && i < MAX_SESSIONS && s.nv.dir[i].Session?
    requires LiveEnd(s, i) - LiveStart(s, i) <= REC_CAPACITY
    requires got == ReadRange(data, LiveStart(s, i), LiveEnd(s, i), offset, len)
    ensures Visits(got, data, REC_SIZE * LiveStart(s, i) + offset,
                   Taken(REC_SIZE * Max(0, LiveEnd(s, i) - LiveStart(s, i)), offset, len))
  {
    RangeVisits(data, LiveStart(s, i), LiveEnd(s, i), offset, len, got);
  }

  /** Whatever the ring holds, a read visits the cells of its 32-bit address. */
  lemma ReadVisits(s: Log, data: seq<Byte>, seqNo: u32, first: nat, n: nat, offset: u32, len: u32)
    requires Located(s, seqNo, first, n) && |data| == DATA_CAPACITY
    ensures Visits(ReadSession(OnRing(s, data), seqNo, offset, len), data, first + offset, Taken(n, offset, len))
  {
    var i := (seqNo - 1) % MAX_SESSIONS;
    ReadOfSlot(s, data, seqNo, offset, len, i);
    SlotVisits(s, data, seqNo, offset, len, i, ReadSession(OnRing(s, data), seqNo, offset, len));
  }

  /** A ring in which one cell can be told from all others. */
  function Marked(cell: int): (data: seq<Byte>)
    ensures |data| == DATA_CAPACITY
  {
    seq(DATA_CAPACITY, c => if c == cell then 1 as Byte else 0)
  }

  lemma MissedCell(first: nat, n: nat) returns (j: nat)
    requires 0 < n <= DATA_CAPACITY && first < REC_SIZE * TWO32 && !AddressFits(first, n)
    ensures j < n && SpanCells(Wrap(first), n)[j] != (first + j) % DATA_CAPACITY
  {
    UnfittingAddresses(first, n);
    j :| 0 <= j < n && SpanCells(Wrap(first), n)[j] != (first + j) % DATA_CAPACITY;
  }

  lemma MarkedMisses(got: seq<Byte>, data: seq<Byte>, first: nat, n: nat, j: nat)
    requires j < n && SpanCells(Wrap(first), n)[j] != (first + j) % DATA_CAPACITY
    requires data == Marked((first + j) % DATA_CAPACITY) && Visits(got, data, first, n)
    ensures !Fetches(got, data, first, n)
  {
    assert got[j] == 0;
  }

  /** The read fetches the n bytes from position `first` on, whatever the ring holds. */
  ghost predicate AlwaysFetches(s: Log, seqNo: u32, offset: u32, len: u32, first: nat, n: nat)
    requires Shaped(s)
  {
    forall data: seq<Byte> :: |data| == DATA_CAPACITY ==>
      Fetches(ReadSession(OnRing(s, data), seqNo, offset, len), data, first, n)
  }

  predicate NoneOrFits(first: nat, n: nat) {
    n > 0 ==> AddressFits(first, n)
  }

  lemma FittingVisitFetches(got: seq<Byte>, data: seq<Byte>, first: nat, n: nat)
    requires |data| == DATA_CAPACITY && n <= DATA_CAPACITY && Visits(got, data, first, n) && NoneOrFits(first, n)
    ensures Fetches(got, data, first, n)
  {
    if n > 0 {
      FittingAddresses(first, n);
    }
  }

  lemma LocatedFetch(s: Log, data: seq<Byte>, seqNo: u32, first: nat, n: nat, offset: u32, len: u32)
    requires Located(s, seqNo, first, n) && |data| == DATA_CAPACITY && NoneOrFits(first + offset, Taken(n, offset, len))
    ensures Fetches(ReadSession(OnRing(s, data), seqNo, offset, len), data, first + offset, Taken(n, offset, len))
  {
    LocatedFits(s, seqNo, first, n, offset, len);
    var p, m := first + offset, Taken(n, offset, len);
    ReadVisits(s, data, seqNo, first, n, offset, len);
    FittingVisitFetches(ReadSession(OnRing(s, data), seqNo, offset, len), data, p, m);
  }

  lemma MissRefutes(s: Log, data: seq<Byte>, seqNo: u32, offset: u32, len: u32, p: nat, m: nat)
    requires Shaped(s) && |data| == DATA_CAPACITY
    requires !Fetches(ReadSession(OnRing(s, data), seqNo, offset, len), data, p, m)
    ensures !AlwaysFetches(s, seqNo, offset, len, p, m)
  {
  }

  lemma MissesSome(s: Log, seqNo: u32, first: nat, n: nat, offset: u32, len: u32, p: nat, m: nat) returns (data: seq<Byte>)
    requires Located(s, seqNo, first, n) && p == first + offset && m == Taken(n, offset, len) && !NoneOrFits(p, m)
    ensures |data| == DATA_CAPACITY && !Fetches(ReadSession(OnRing(s, data), seqNo, offset, len), data, p, m)
  {
    LocatedFits(s, seqNo, first, n, offset, len);
    var j := MissedCell(p, m);
    data := Marked((p + j) % DATA_CAPACITY);
    ReadVisits(s, data, seqNo, first, n, offset, len);
    MarkedMisses(ReadSession(OnRing(s, data), seqNo, offset, len), data, p, m, j);
  }

  lemma LocatedMiss(s: Log, seqNo: u32, first: nat, n: nat, offset: u32, len: u32)
    requires Located(s, seqNo, first, n) && !NoneOrFits(first + offset, Taken(n, offset, len))
    ensures !AlwaysFetches(s, seqNo, offset, len, first + offset, Taken(n, offset, len))
  {
    var data := MissesSome(s, seqNo, first, n, offset, len, first + offset, Taken(n, offset, len));
    MissRefutes(s, data, seqNo, offset, len, first + offset, Taken(n, offset, len));
  }

  /** The 32-bit byte address of the read does not wrap before its last contiguous span. */
  ghost predicate Addressable(w: World, seqNo: nat, offset: nat, len: nat) {
    seqNo in w.starts ==> NoneOrFits(FirstByte(w, seqNo) + offset, Taken(|Readable(w, seqNo)|, offset, len))
  }

  lemma FetchIffFits(s: Log, seqNo: u32, first: nat, n: nat, offset: u32, len: u32)
    requires Located(s, seqNo, first, n)
    ensures AlwaysFetches(s, seqNo, offset, len, first + offset, Taken(n, offset, len))
      <==> NoneOrFits(first + offset, Taken(n, offset, len))
  {
    if NoneOrFits(first + offset, Taken(n, offset, len)) {
      forall data: seq<Byte> | |data| == DATA_CAPACITY
        ensures Fetches(ReadSession(OnRing(s, data), seqNo, offset, len), data, first + offset, Taken(n, offset, len))
      {
        LocatedFetch(s, data, seqNo, first, n, offset, len);
      }
    } else {
      LocatedMiss(s, seqNo, first, n, offset, len);
    }
  }

  /** The exact limit of session reads: a read returns the ring cells of the positions it
      asks for, whatever the ring holds, if and only if its 32-bit byte address does not
      wrap before the last contiguous span. */
  lemma ReadsFetchTheirCellsIffAddressable(w: World, seqNo: u32, offset: u32, len: u32, first: nat, n: nat)
    requires Inv(w) && Known(w.log.nv.dir, seqNo)
    requires seqNo in w.starts && first == FirstByte(w, seqNo) && n == |Readable(w, seqNo)|
    ensures AlwaysFetches(w.log, seqNo, offset, len, first + offset, Taken(n, offset, len))
      <==> NoneOrFits(first + offset, Taken(n, offset, len))
  {
    KnownIsLocated(w, seqNo);
    FetchIffFits(w.log, seqNo, first, n, offset, len);
  }

  lemma LowAddressFits(first: nat, len: nat)
    requires 0 < len <= DATA_CAPACITY && first + len <= TWO32
    ensures AddressFits(first, len)
  {
    var off := first % DATA_CAPACITY;
    if off + len > DATA_CAPACITY {
      assert first - off + DATA_CAPACITY < first + len;
    }
  }

  /** Up to 2^28 records every read is addressable. */
  lemma EarlyReadsAreAddressable(w: World, seqNo: u32, offset: u32, len: u32)
    requires Inv(w) && Known(w.log.nv.dir, seqNo) && REC_SIZE * w.log.ram.total <= TWO32
    ensures Addressable(w, seqNo, offset, len)
  {
    KnownIsLocated(w, seqNo);
    var first, n := FirstByte(w, seqNo), |Readable(w, seqNo)|;
    LocatedFits(w.log, seqNo, first, n, offset, len);
    if Taken(n, offset, len) > 0 {
      LowAddressFits(first + offset, Taken(n, offset, len));
    }
  }

  /** The length of a read depends on the directory alone. */
  lemma ReadLength(w: World, seqNo: u32, offset: u32, len: u32)
    requires Inv(w)
    ensures Known(w.log.nv.dir, seqNo) ==> |ReadSession(w.log, seqNo, offset, len)| == Taken(|Readable(w, seqNo)|, offset, len)
    ensures !Known(w.log.nv.dir, seqNo) ==> ReadSession(w.log, seqNo, offset, len) == []
  {
    if Known(w.log.nv.dir, seqNo) {
      KnownIsLocated(w, seqNo);
      LocatedLength(w.log, seqNo, FirstByte(w, seqNo), |Readable(w, seqNo)|, offset, len);
    } else {
      FindsItsSlot(w, seqNo);
    }
  }

  lemma LocatedLength(s: Log, seqNo: u32, first: nat, n: nat, offset: u32, len: u32)
    requires Located(s, seqNo, first, n)
    ensures |ReadSession(s, seqNo, offset, len)| == Taken(n, offset, len)
  {
    ReadVisits(s, s.nv.data, seqNo, first, n, offset, len);
    assert OnRing(s, s.nv.data) == s;
  }

  /** In a ring that agrees with the history, fetched bytes are bytes of the history. */
  lemma FetchedByte(got: seq<Byte>, data: seq<Byte>, hist: seq<Byte>, high: nat, first: nat, n: nat, j: nat)
    requires |data| == DATA_CAPACITY && Fetches(got, data, first, n) && RingAgrees(data, hist, high)
    requires j < n && first + j < |hist| && first + j >= REC_SIZE * high - DATA_CAPACITY
    ensures got[j] == hist[first + j]
  {
  }

  lemma LocatedByte(s: Log, hist: seq<Byte>, high: nat, seqNo: u32, first: nat, n: nat, offset: u32, len: u32, j: nat)
    requires Located(s, seqNo, first, n) && NoneOrFits(first + offset, Taken(n, offset, len))
    requires RingAgrees(s.nv.data, hist, high) && j < Taken(n, offset, len) && first + n <= |hist|
    requires first + offset + j >= REC_SIZE * high - DATA_CAPACITY
    ensures |ReadSession(s, seqNo, offset, len)| == Taken(n, offset, len)
    ensures ReadSession(s, seqNo, offset, len)[j] == hist[first + offset + j]
  {
    LocatedFetch(s, s.nv.data, seqNo, first, n, offset, len);
    assert OnRing(s, s.nv.data) == s;
    FetchedByte(ReadSession(s, seqNo, offset, len), s.nv.data, hist, high, first + offset, Taken(n, offset, len), j);
  }

  lemma LocatedReadable(w: World, seqNo: u32, offset: u32, len: u32, j: nat)
    requires seqNo in w.starts && Located(w.log, seqNo, FirstByte(w, seqNo), |Readable(w, seqNo)|)
    requires Addressable(w, seqNo, offset, len) && RingAgrees(w.log.nv.data, w.hist, w.high)
    requires j < Taken(|Readable(w, seqNo)|, offset, len) && FirstByte(w, seqNo) + |Readable(w, seqNo)| <= |w.hist|
    requires Readable(w, seqNo)[offset + j] == w.hist[FirstByte(w, seqNo) + offset + j]
    requires FirstByte(w, seqNo) + offset + j >= REC_SIZE * w.high - DATA_CAPACITY
    ensures |ReadSession(w.log, seqNo, offset, len)| == Taken(|Readable(w, seqNo)|, offset, len)
    ensures ReadSession(w.log, seqNo, offset, len)[j] == Readable(w, seqNo)[offset + j]
  {
    LocatedByte(w.log, w.hist, w.high, seqNo, FirstByte(w, seqNo), |Readable(w, seqNo)|, offset, len, j);
  }

  /** Every byte a session read returns is the byte that session recorded at that place,
      straddling the ring wrap or not, provided its address fits and the byte was not
      physically overwritten by records a crash made the log forget. */
  lemma ReadByteIsRecorded(w: World, seqNo: u32, offset: u32, len: u32, j: nat)
    requires Inv(w) && Addressable(w, seqNo, offset, len)
    requires j < |ReadSession(w.log, seqNo, offset, len)|
    ensures Known(w.log.nv.dir, seqNo) && seqNo in w.starts && offset + j < |Readable(w, seqNo)|
    ensures FirstByte(w, seqNo) + offset + j >= REC_SIZE * w.high - DATA_CAPACITY ==>
      ReadSession(w.log, seqNo, offset, len)[j] == Readable(w, seqNo)[offset + j]
  {
    ReadLength(w, seqNo, offset, len);
    KnownIsLocated(w, seqNo);
    ReadableIsHistory(w, seqNo, offset + j);
    ReadableEnds(w, seqNo);
    if FirstByte(w, seqNo) + offset + j >= REC_SIZE * w.high - DATA_CAPACITY {
      LocatedReadable(w, seqNo, offset, len, j);
    }
  }

  lemma ReadableEnds(w: World, seqNo: u32)
    requires Inv(w) && Known(w.log.nv.dir, seqNo)
    ensures seqNo in w.starts && (|Readable(w, seqNo)| > 0 ==> FirstByte(w, seqNo) + |Readable(w, seqNo)| <= |w.hist|)
  {
    if |Readable(w, seqNo)| > 0 {
      ReadableIsHistory(w, seqNo, |Readable(w, seqNo)| - 1);
    }
    KnownIsLocated(w, seqNo);
  }

  /** No readable record of the session was overwritten by records a crash made the log
      forget. */
  ghost predicate Intact(w: World, seqNo: nat) {
    seqNo in w.starts ==> FirstByte(w, seqNo) >= REC_SIZE * w.high - DATA_CAPACITY
  }

  /** No later session took the slot of session k, or ran when its first record was
      overwritten.  Neither the directory nor the flash is consulted. */
  ghost predicate Retained(w: World, k: nat)
    requires Shaped(w.log)
  {
    k in w.starts ==> !Displaced(w.starts, k, w.log.ram.total)
  }

  /** What the store retains, the directory finds. */
  lemma RetainedIsKnown(w: World, k: nat)
    requires Inv(w) && Archive(w) && k in w.sessions && Retained(w, k)
    ensures Known(w.log.nv.dir, k)
  {
    EndsWithinTotal(w.log);
    if !Known(w.log.nv.dir, k) {
      StaysDisplaced(w.starts, w.starts, k, PersistedEnd(w.log), w.log.ram.total);
    }
  }

  lemma KnownReadMatches(w: World, seqNo: u32, offset: u32, len: u32)
    requires Inv(w) && Addressable(w, seqNo, offset, len) && Intact(w, seqNo) && Known(w.log.nv.dir, seqNo)
    ensures ReadSession(w.log, seqNo, offset, len) == Window(Readable(w, seqNo), offset, len)
  {
    var got, want := ReadSession(w.log, seqNo, offset, len), Window(Readable(w, seqNo), offset, len);
    ReadLength(w, seqNo, offset, len);
    forall j | 0 <= j < |got|
      ensures got[j] == want[j]
    {
      ReadByteIsRecorded(w, seqNo, offset, len, j);
    }
  }

  /** imu_log_read_session refines the append-only store, for every session number: retained
      sessions and numbers never recorded read exactly as there.  A session the directory no
      longer knows reads as nothing, one it knows reads exactly. */
  lemma ReadMatchesHistory(w: World, seqNo: u32, offset: u32, len: u32)
    requires Inv(w) && Archive(w) && Addressable(w, seqNo, offset, len) && Intact(w, seqNo)
    ensures Retained(w, seqNo) || Known(w.log.nv.dir, seqNo) ==>
      ReadSession(w.log, seqNo, offset, len) == Window(Readable(w, seqNo), offset, len)
    ensures !Known(w.log.nv.dir, seqNo) ==> ReadSession(w.log, seqNo, offset, len) == []
  {
    if Known(w.log.nv.dir, seqNo) {
      KnownReadMatches(w, seqNo, offset, len);
    } else {
      ReadLength(w, seqNo, offset, len);
      if seqNo in w.sessions && Retained(w, seqNo) {
        RetainedIsKnown(w, seqNo);
      }
    }
  }

  ghost predicate NoReset(events: seq<Event>) {
    forall i :: 0 <= i < |events| ==> !events[i].Reset?
  }

  lemma {:induction false} HighIsTotal(from: World, events: seq<Event>, to: World)
    requires Inv(from) && from.high == from.log.ram.total
    requires IsRun(from, events, to) && NoReset(events)
    ensures Inv(to) && to.high == to.log.ram.total
    decreases |events|
  {
    if events != [] {
      var next := Next(from, events[0]);
      NextKeeps(from, events[0]);
      HighIsTotalStep(from, events[0]);
      HighIsTotal(next, events[1..], to);
    }
  }

  lemma HighIsTotalStep(w: World, e: Event)
    requires Inv(w) && w.high == w.log.ram.total && Enabled(w, e) && !e.Reset?
    ensures Next(w, e).high == Next(w, e).log.ram.total
  {
    if e.WriterDrain? {
      WrittenCounters(w);
      if !w.log.ram.active {
        LateDrainOnlyWrites(w);
      }
    } else if e.AppendRecs? {
      AppendTouchesStagingOnly(w.log.ram, e.recs);
    }
  }

  /** Over every run without a reset, at most 2^28 records long: a read returns exactly what
      the append-only store holds of the session, for every session retained or known. */
  lemma {:induction false} UninterruptedReadsAreExact(data: seq<Byte>, fw: u32, events: seq<Event>, w: World,
                                                      seqNo: u32, offset: u32, len: u32)
    requires |data| == DATA_CAPACITY && IsRun(Factory(data, fw), events, w) && NoReset(events)
    requires Shaped(w.log) && REC_SIZE * w.log.ram.total <= TWO32
    ensures Retained(w, seqNo) || Known(w.log.nv.dir, seqNo) ==>
      ReadSession(w.log, seqNo, offset, len) == Window(Readable(w, seqNo), offset, len)
  {
    ReachableArchive(data, fw, [], Factory(data, fw));
    HighIsTotal(Factory(data, fw), events, w);
    ReachableArchive(data, fw, events, w);
    if Known(w.log.nv.dir, seqNo) || (seqNo in w.sessions && Retained(w, seqNo)) {
      if !Known(w.log.nv.dir, seqNo) { RetainedIsKnown(w, seqNo); }
      EarlyReadsAreAddressable(w, seqNo, offset, len);
      KnownReadMatches(w, seqNo, offset, len);
    } else {
      ReadLength(w, seqNo, offset, len);
    }
  }

  /** Over every run, resets and torn writes included: a retained session reads to its full
      readable length, and a returned byte is the recorded one unless it lies a whole ring
      length behind the physical high-water mark, which the counter trails by at most 767
      records. */
  lemma {:induction false} ReachableReads(data: seq<Byte>, fw: u32, events: seq<Event>, w: World,
                                          seqNo: u32, offset: u32, len: u32)
    requires |data| == DATA_CAPACITY && IsRun(Factory(data, fw), events, w)
    requires Shaped(w.log) && Addressable(w, seqNo, offset, len)
    ensures w.log.ram.total <= w.high <= w.log.ram.total + 767
    ensures var got, all := ReadSession(w.log, seqNo, offset, len), Readable(w, seqNo);
      && (Retained(w, seqNo) ==> |got| == |Window(all, offset, len)|)
      && (got != [] ==> seqNo in w.starts && offset + |got| <= |all|)
      && forall j :: 0 <= j < |got| && FirstByte(w, seqNo) + offset + j >= REC_SIZE * w.high - DATA_CAPACITY ==>
           got[j] == all[offset + j]
  {
    ReachableArchive(data, fw, events, w);
    EndsWithinTotal(w.log);
    var got, all := ReadSession(w.log, seqNo, offset, len), Readable(w, seqNo);
    ReadLength(w, seqNo, offset, len);
    WindowLength(all, offset, len);
    if seqNo in w.sessions && Retained(w, seqNo) { RetainedIsKnown(w, seqNo); }
    forall j | 0 <= j < |got|
      ensures seqNo in w.starts && offset + j < |all|
      ensures FirstByte(w, seqNo) + offset + j >= REC_SIZE * w.high - DATA_CAPACITY ==> got[j] == all[offset + j]
    {
      ReadByteIsRecorded(w, seqNo, offset, len, j);
    }
  }

  /** The exact condition for a session to read as the append-only store has it: the
      directory knows it, or nothing of it is left to read. */
  lemma ReadsAreExactIffKnown(w: World, seqNo: u32)
    requires Inv(w) && Archive(w) && REC_SIZE * w.log.ram.total <= TWO32 && Intact(w, seqNo)
    ensures (forall offset: u32, len: u32 :: ReadSession(w.log, seqNo, offset, len) == Window(Readable(w, seqNo), offset, len))
       <==> Known(w.log.nv.dir, seqNo) || Readable(w, seqNo) == []
  {
    if Known(w.log.nv.dir, seqNo) {
      forall offset: u32, len: u32
        ensures ReadSession(w.log, seqNo, offset, len) == Window(Readable(w, seqNo), offset, len)
      {
        EarlyReadsAreAddressable(w, seqNo, offset, len);
        KnownReadMatches(w, seqNo, offset, len);
      }
    } else {
      forall offset: u32, len: u32
        ensures ReadSession(w.log, seqNo, offset, len) == []
      {
        ReadLength(w, seqNo, offset, len);
      }
      assert Readable(w, seqNo) != [] ==> ReadSession(w.log, seqNo, 0, 1) != Window(Readable(w, seqNo), 0, 1);
    }
  }

  /** In every reachable world each session sits in the slot of its number and ends within
      the counter, the record ranges of different sessions are disjoint and ordered like
      their numbers, and the running session keeps its slot. */
  lemma {:induction false} ReachableDirectory(data: seq<Byte>, fw: u32, events: seq<Event>, w: World)
    requires |data| == DATA_CAPACITY && IsRun(Factory(data, fw), events, w) && Shaped(w.log)
    ensures forall i :: 0 <= i < MAX_SESSIONS && w.log.nv.dir[i].Session? ==>
      && (w.log.nv.dir[i].seqNo - 1) % MAX_SESSIONS == i
      && w.log.nv.dir[i].start + CountOf(w.log, i) <= w.log.ram.total
    ensures forall i, j :: 0 <= i < MAX_SESSIONS && 0 <= j < MAX_SESSIONS && i != j ==> Apart(w.log, i, j)
    ensures w.log.ram.active ==>
      && w.log.nv.dir[w.log.ram.curSlot].Session?
      && w.log.nv.dir[w.log.ram.curSlot].seqNo == w.log.ram.curSeq
      && w.log.ram.total == w.log.ram.curStart + w.log.ram.curCount
  {
    ReachableInv(data, fw, events, w);
    forall i | 0 <= i < MAX_SESSIONS && w.log.nv.dir[i].Session?
      ensures (w.log.nv.dir[i].seqNo - 1) % MAX_SESSIONS == i
      ensures w.log.nv.dir[i].start + CountOf(w.log, i) <= w.log.ram.total
    {
      SlotRange(w, i);
    }
    forall i, j | 0 <= i < MAX_SESSIONS && 0 <= j < MAX_SESSIONS && i != j
      ensures Apart(w.log, i, j)
    {
      SlotsApart(w, i, j);
    }
  }

  /** The sessions of two slots have different numbers, and the earlier one ends first. */
  ghost predicate Apart(s: Log, i: nat, j: nat)
    requires Shaped(s) && i < MAX_SESSIONS && j < MAX_SESSIONS
  {
    var a, b := s.nv.dir[i], s.nv.dir[j];
    a.Session? && b.Session? ==>
      && a.seqNo != b.seqNo
      && (a.seqNo < b.seqNo ==> a.start + CountOf(s, i) <= b.start)
      && (b.seqNo < a.seqNo ==> b.start + CountOf(s, j) <= a.start)
  }

  lemma SlotsApart(w: World, i: nat, j: nat)
    requires Inv(w) && i < MAX_SESSIONS && j < MAX_SESSIONS && i != j
    ensures Apart(w.log, i, j)
  {
    var a, b, r := w.log.nv.dir[i], w.log.nv.dir[j], w.log.ram;
    assert EntryOk(a, i, r.seqNext, r.total) && EntryOk(b, j, r.seqNext, r.total);
    assert Before(a, b) && Before(b, a);
  }

  // ---- list and read agree -----------------------------------------------------

  /** A session is listed exactly when it has a slot that survives. */
  lemma SurvivorsAreListedSlots(s: Log, k: nat)
    requires Shaped(s) && k <= MAX_SESSIONS
    ensures forall x :: x in Survivors(s, k) <==> exists i :: 0 <= i < k && Listed(s, i) && x == SummaryOf(s, i)
  {
    if k > 0 {
      SurvivorsAreListedSlots(s, k - 1);
    }
  }

  /** No two listed sessions share a number. */
  lemma SurvivorsDistinct(w: World, k: nat)
    requires Inv(w) && k <= MAX_SESSIONS
    ensures forall a, b :: 0 <= a < b < |Survivors(w.log, k)| ==>
      Survivors(w.log, k)[a].seqNo != Survivors(w.log, k)[b].seqNo
  {
    if k > 0 {
      SurvivorsDistinct(w, k - 1);
      SurvivorsAreListedSlots(w.log, k - 1);
      var before := Survivors(w.log, k - 1);
      forall a | 0 <= a < |before| && Listed(w.log, k - 1)
        ensures before[a].seqNo != w.log.nv.dir[k - 1].seqNo
      {
        assert before[a] in before;
        var i :| 0 <= i < k - 1 && Listed(w.log, i) && before[a] == SummaryOf(w.log, i);
        assert EntryOk(w.log.nv.dir[i], i, w.log.ram.seqNext, w.log.ram.total);
        assert EntryOk(w.log.nv.dir[k - 1], k - 1, w.log.ram.seqNext, w.log.ram.total);
      }
    }
  }

  lemma HeadIsNewest(a: seq<Summary>, i: nat)
    requires Descending(a) && i < |a|
    ensures a[i].seqNo <= a[0].seqNo
    ensures a[i].seqNo == a[0].seqNo ==> i == 0
  {
  }

  lemma SameNewest(a: seq<Summary>, b: seq<Summary>)
    requires Descending(a) && Descending(b) && a != [] && b != []
    requires a[0] in b && b[0] in a
    ensures a[0] == b[0]
  {
    var i :| 0 <= i < |b| && b[i] == a[0];
    var j :| 0 <= j < |a| && a[j] == b[0];
    HeadIsNewest(b, i);
    HeadIsNewest(a, j);
  }

  lemma RestAgrees(a: seq<Summary>, b: seq<Summary>)
    requires a != [] && b != [] && a[0] == b[0]
    requires multiset(a) == multiset(b)
    ensures multiset(a[1..]) == multiset(b[1..])
  {
    assert a == [a[0]] + a[1..] && b == [b[0]] + b[1..];
    assert multiset(a[1..]) == multiset(a) - multiset{a[0]};
    assert multiset(b[1..]) == multiset(b) - multiset{b[0]};
  }

  /** Two newest-first lists of the same sessions are the same list. */
  lemma {:induction false} DescendingListsAgree(a: seq<Summary>, b: seq<Summary>)
    requires Descending(a) && Descending(b)
    requires multiset(a) == multiset(b)
    ensures a == b
    decreases |a|
  {
    assert |b| == |multiset(b)| == |multiset(a)| == |a|;
    if a != [] {
      assert a[0] in multiset(b) && b[0] in multiset(a);
      SameNewest(a, b);
      RestAgrees(a, b);
      DescendingListsAgree(a[1..], b[1..]);
      Uncons(a, b);
    }
  }

  lemma Uncons(a: seq<Summary>, b: seq<Summary>)
    requires a != [] && b != [] && a[0] == b[0] && a[1..] == b[1..]
    ensures a == b
  {
    assert a == [a[0]] + a[1..] && b == [b[0]] + b[1..];
  }

  /** With distinct numbers, newest first is strictly newest first. */
  lemma ListingDescends(w: World, all: seq<Summary>)
    requires Inv(w) && NewestFirst(all) && multiset(all) == multiset(Survivors(w.log, MAX_SESSIONS))
    ensures Descending(all)
  {
    SurvivorsDistinct(w, MAX_SESSIONS);
    forall i, j | 0 <= i < j < |all|
      ensures all[i].seqNo != all[j].seqNo
    {
      DistinctNumbers(Survivors(w.log, MAX_SESSIONS), all, i, j);
    }
  }

  lemma DistinctNumbers(found: seq<Summary>, all: seq<Summary>, i: nat, j: nat)
    requires forall a, b :: 0 <= a < b < |found| ==> found[a].seqNo != found[b].seqNo
    requires multiset(all) == multiset(found) && i < j < |all|
    ensures all[i].seqNo != all[j].seqNo
  {
    assert all[i] in multiset(found) && all[j] in multiset(found);
    OccursOnce(found, all[i]);
    OccursTwice(all, i, j);
    if all[i].seqNo == all[j].seqNo {
      SameNumberSameEntry(found, all[i], all[j]);
    }
  }

  lemma SameNumberSameEntry(found: seq<Summary>, x: Summary, y: Summary)
    requires forall a, b :: 0 <= a < b < |found| ==> found[a].seqNo != found[b].seqNo
    requires x in found && y in found && x.seqNo == y.seqNo
    ensures x == y
  {
  }

  lemma OccursTwice(all: seq<Summary>, i: nat, j: nat)
    requires i < j < |all|
    ensures all[i] == all[j] ==> multiset(all)[all[i]] >= 2
  {
    assert all == all[..j] + [all[j]] + all[j + 1..];
    assert all[i] in all[..j];
  }

  lemma OccursOnce(found: seq<Summary>, x: Summary)
    requires forall a, b :: 0 <= a < b < |found| ==> found[a].seqNo != found[b].seqNo
    ensures multiset(found)[x] <= 1
  {
    if found != [] {
      OccursOnce(found[1..], x);
      assert found == [found[0]] + found[1..];
      assert forall k :: 0 <= k < |found| - 1 ==> found[1..][k] == found[k + 1];
    }
  }

  /** The listing returned to the host is one definite list: strictly newest first, the
      newest `max` surviving sessions. */
  lemma ListingIsDetermined(w: World, a: seq<Summary>, b: seq<Summary>, max: nat)
    requires Inv(w)
    requires IsListing(a, Survivors(w.log, MAX_SESSIONS), max) && IsListing(b, Survivors(w.log, MAX_SESSIONS), max)
    ensures a == b && Descending(a)
    ensures |a| == Min(|Survivors(w.log, MAX_SESSIONS)|, max)
    ensures forall x :: x in a ==> x in Survivors(w.log, MAX_SESSIONS)
  {
    var found := Survivors(w.log, MAX_SESSIONS);
    var s: seq<Summary> :| NewestFirst(s) && multiset(s) == multiset(found) && a == s[..Min(|s|, max)];
    var t: seq<Summary> :| NewestFirst(t) && multiset(t) == multiset(found) && b == t[..Min(|t|, max)];
    ListingDescends(w, s);
    ListingDescends(w, t);
    DescendingListsAgree(s, t);
    assert |s| == |multiset(s)| == |multiset(found)| == |found|;
    forall x | x in a
      ensures x in found
    {
      assert x in multiset(s);
    }
  }

  lemma ListedAppears(s: Log, i: nat)
    requires Shaped(s) && i < MAX_SESSIONS
    ensures Listed(s, i) ==> SummaryOf(s, i) in Survivors(s, MAX_SESSIONS)
  {
    SurvivorsAreListedSlots(s, MAX_SESSIONS);
  }

  lemma ListedSlotReadable(w: World, i: nat, len: u32)
    requires Inv(w) && i < MAX_SESSIONS && Listed(w.log, i)
    ensures var x := SummaryOf(w.log, i);
      x.recCount <= REC_CAPACITY && |ReadSession(w.log, x.seqNo, 0, len)| == Min(len, REC_SIZE * x.recCount)
  {
    var x := SummaryOf(w.log, i);
    SlotRange(w, i);
    assert x.recCount == LiveEnd(w.log, i) - LiveStart(w.log, i);
    ReadLength(w, x.seqNo, 0, len);
    assert |Readable(w, x.seqNo)| == REC_SIZE * x.recCount;
  }

  /** A listed record count is, times 16, exactly what reading the session delivers. */
  lemma ListedCountIsReadable(w: World, x: Summary, len: u32)
    requires Inv(w) && x in Survivors(w.log, MAX_SESSIONS)
    ensures x.recCount <= REC_CAPACITY
    ensures |ReadSession(w.log, x.seqNo, 0, len)| == Min(len, REC_SIZE * x.recCount)
  {
    SurvivorsAreListedSlots(w.log, MAX_SESSIONS);
    var i :| 0 <= i < MAX_SESSIONS && Listed(w.log, i) && x == SummaryOf(w.log, i);
    ListedSlotReadable(w, i, len);
  }

  /** A session the list does not show reads as nothing. */
  lemma UnlistedReadsNothing(w: World, seqNo: u32, offset: u32, len: u32)
    requires Inv(w)
    requires forall x :: x in Survivors(w.log, MAX_SESSIONS) ==> x.seqNo != seqNo
    ensures ReadSession(w.log, seqNo, offset, len) == []
  {
    ReadLength(w, seqNo, offset, len);
    if Known(w.log.nv.dir, seqNo) {
      var i := (seqNo - 1) % MAX_SESSIONS;
      SlotRange(w, i);
      ListedAppears(w.log, i);
      KnownIsLocated(w, seqNo);
    }
  }

  // ---- which sessions are listed ---------------------------------------------------------

  /** The number is among the listed ones. */
  ghost predicate IsListed(list: seq<Summary>, seqNo: u32) {
    exists i :: 0 <= i < |list| && list[i].seqNo == seqNo
  }

  /** Something of session k, even if it has no record yet, lies behind what is overwritten. */
  ghost predicate ReachesIntoRing(w: World, k: nat)
    requires k in w.sessions && k in w.starts
  {
    REC_SIZE * w.starts[k] + |w.sessions[k]| > Max(0, |w.hist| - DATA_CAPACITY)
  }

  lemma ListedSlotReaches(w: World, i: nat)
    requires Inv(w) && i < MAX_SESSIONS && w.log.nv.dir[i].Session?
    ensures var k := w.log.nv.dir[i].seqNo;
      k in w.sessions && k in w.starts && (Listed(w.log, i) <==> ReachesIntoRing(w, k))
  {
    assert SessionOk(w, i);
    SlotRange(w, i);
  }

  lemma ListedMeansKnown(w: World, seqNo: u32)
    requires Inv(w) && IsListed(Survivors(w.log, MAX_SESSIONS), seqNo)
    ensures Known(w.log.nv.dir, seqNo) && Listed(w.log, (seqNo - 1) % MAX_SESSIONS)
  {
    var i := ListedSlot(w.log, seqNo);
    SlotRange(w, i);
  }

  lemma ListedSlot(s: Log, seqNo: u32) returns (i: nat)
    requires Shaped(s) && IsListed(Survivors(s, MAX_SESSIONS), seqNo)
    ensures i < MAX_SESSIONS && Listed(s, i) && s.nv.dir[i].seqNo == seqNo
  {
    var found := Survivors(s, MAX_SESSIONS);
    var j :| 0 <= j < |found| && found[j].seqNo == seqNo;
    assert found[j] in found;
    i := SlotOfListed(s, found[j]);
  }

  lemma SlotOfListed(s: Log, x: Summary) returns (i: nat)
    requires Shaped(s) && x in Survivors(s, MAX_SESSIONS)
    ensures i < MAX_SESSIONS && Listed(s, i) && x == SummaryOf(s, i)
  {
    SurvivorsAreListedSlots(s, MAX_SESSIONS);
    i :| 0 <= i < MAX_SESSIONS && Listed(s, i) && x == SummaryOf(s, i);
  }

  lemma SlotIsListed(w: World, i: nat)
    requires Inv(w) && i < MAX_SESSIONS && Listed(w.log, i)
    ensures IsListed(Survivors(w.log, MAX_SESSIONS), w.log.nv.dir[i].seqNo)
  {
    ListedAppears(w.log, i);
    MemberIsListed(Survivors(w.log, MAX_SESSIONS), SummaryOf(w.log, i));
  }

  lemma MemberIsListed(found: seq<Summary>, x: Summary)
    requires x in found
    ensures IsListed(found, x.seqNo)
  {
    var j :| 0 <= j < |found| && found[j] == x;
    assert found[j].seqNo == x.seqNo;
  }

  /** A session is listed exactly when the directory knows it and it ends behind what the ring
      has overwritten, records or none. */
  lemma ListedIffReachesIntoRing(w: World, seqNo: u32)
    requires Inv(w)
    ensures IsListed(Survivors(w.log, MAX_SESSIONS), seqNo)
      <==> Known(w.log.nv.dir, seqNo) && seqNo in w.sessions && seqNo in w.starts && ReachesIntoRing(w, seqNo)
  {
    var i := (seqNo - 1) % MAX_SESSIONS;
    if Known(w.log.nv.dir, seqNo) {
      ListedSlotReaches(w, i);
    }
    if IsListed(Survivors(w.log, MAX_SESSIONS), seqNo) {
      ListedMeansKnown(w, seqNo);
    } else if Known(w.log.nv.dir, seqNo) && Listed(w.log, i) {
      SlotIsListed(w, i);
    }
  }

  lemma RunningIsListed(w: World)
    requires Inv(w) && w.log.ram.active && w.log.ram.total > 0
    ensures IsListed(Survivors(w.log, MAX_SESSIONS), w.log.ram.curSeq)
  {
    RunningIsKnown(w);
    RunningRange(w);
    ListedIffReachesIntoRing(w, w.log.ram.curSeq);
  }

  lemma NoneNewerThanRunning(w: World, seqNo: u32)
    requires Inv(w) && w.log.ram.active && IsListed(Survivors(w.log, MAX_SESSIONS), seqNo)
    ensures seqNo <= w.log.ram.curSeq
  {
    ListedMeansKnown(w, seqNo);
    var i := (seqNo - 1) % MAX_SESSIONS;
    assert EntryOk(w.log.nv.dir[i], i, w.log.ram.seqNext, w.log.ram.total);
  }

  lemma SameElementsListed(all: seq<Summary>, found: seq<Summary>, seqNo: u32)
    requires multiset(all) == multiset(found)
    ensures IsListed(all, seqNo) <==> IsListed(found, seqNo)
  {
    assert forall x :: x in all <==> x in multiset(all);
    assert forall x :: x in found <==> x in multiset(found);
    assert forall i :: 0 <= i < |all| ==> all[i] in all;
    assert forall i :: 0 <= i < |found| ==> found[i] in found;
    if IsListed(all, seqNo) {
      var i :| 0 <= i < |all| && all[i].seqNo == seqNo;
      assert all[i] in found;
    }
    if IsListed(found, seqNo) {
      var i :| 0 <= i < |found| && found[i].seqNo == seqNo;
      assert found[i] in all;
    }
  }

  /** As soon as anything was ever recorded the running session heads the list, whether or not
      it has a record yet. */
  lemma RunningHeadsTheList(w: World, out: seq<Summary>, max: nat)
    requires Inv(w) && w.log.ram.active && w.log.ram.total > 0 && max > 0
    requires IsListing(out, Survivors(w.log, MAX_SESSIONS), max)
    ensures out != [] && out[0].seqNo == w.log.ram.curSeq
  {
    var found, cur := Survivors(w.log, MAX_SESSIONS), w.log.ram.curSeq;
    var all: seq<Summary> :| NewestFirst(all) && multiset(all) == multiset(found) && out == all[..Min(|all|, max)];
    RunningIsListed(w);
    SameElementsListed(all, found, cur);
    var i :| 0 <= i < |all| && all[i].seqNo == cur;
    assert all[0].seqNo >= cur;
    assert IsListed(all, all[0].seqNo);
    SameElementsListed(all, found, all[0].seqNo);
    NoneNewerThanRunning(w, all[0].seqNo);
  }
}
