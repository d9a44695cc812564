/** Where session reads stop agreeing with what was recorded, shown by runs of the log from
    its first boot. */
module LogLimits {
  import opened Words
  import opened Rings
  import opened LogSpec
  import opened LogRuns
  import opened LogInvariant
  import opened LogArchive
  import opened LogReads
  import opened LogTape
  import LogCrash

  // ---- recording records one at a time ---------------------------------------------

  /** A session runs, nothing is staged and the writer is idle. */
  ghost predicate Recording(w: World) {
    Inv(w) && w.log.ram.active && !w.armed && w.log.ram.head == w.log.ram.tail
  }

  predicate RefreshNow(r: Ram) {
    r.curCount + 1 - r.lastRefresh >= DIR_REFRESH_RECS
  }

  /** What n more records, `bytes` in all, change. */
  ghost predicate Recorded(w: World, d: World, bytes: seq<Byte>, n: nat)
    requires Shaped(w.log) && Shaped(d.log) && w.log.ram.curSeq in w.sessions
  {
    var r, k := w.log.ram, w.log.ram.curSeq;
    && d.hist == w.hist + bytes && d.log.ram.total == r.total + n
    && d.sessions == w.sessions[k as nat := w.sessions[k] + bytes] && d.starts == w.starts
    && d.log.ram.curSeq == k && d.log.ram.curCount == r.curCount + n
    && d.fw == w.fw && d.log.ram.seqNext == r.seqNext && (w.high == r.total ==> d.high == d.log.ram.total)
    && (r.curCount + n - r.lastRefresh < DIR_REFRESH_RECS ==> d.log.nv.dir == w.log.nv.dir && d.log.ram.lastRefresh == r.lastRefresh)
  }

  lemma OneAppended(r: Ram, rec: Rec)
    requires |r.stage| == STAGE_N
    ensures AppendAll(r, [rec]) == AppendOne(r, rec)
  {
    assert [rec][..0] == [];
    assert AppendAll(r, [rec][..0]) == r;
  }

  lemma OneStaged(s: Log, rec: Rec)
    requires Shaped(s) && s.ram.active && s.ram.head == s.ram.tail
    ensures var a := Append(s, [rec]);
      && Shaped(a) && a == s.(ram := s.ram.(stage := a.ram.stage, head := Wrap(s.ram.head + 1)))
      && DrainCount(a.ram) == 1 && Batch(a) == [rec]
      && WroteBatch(a).ram.tail == WroteBatch(a).ram.head
  {
    OneAppended(s.ram, rec);
    CounterFacts(s.ram.head, s.ram.tail);
  }

  lemma FlattenOne(rec: Rec)
    ensures Flatten([rec]) == rec
  {
  }

  lemma SubSmall(a: u32, b: u32)
    requires b <= a
    ensures Sub(a, b) == a - b
  {
  }

  lemma OneDrained(s: Log)
    requires Shaped(s) && s.ram.active && DrainCount(s.ram) == 1 && s.ram.curCount <= s.ram.total
    requires s.ram.lastRefresh <= s.ram.curCount && s.ram.total + BATCH_RECS < TWO32 && Sub(s.ram.head, s.ram.tail) <= STAGE_N
    ensures var d := Drain(s);
      && d.ram.total == s.ram.total + 1 && d.ram.curCount == s.ram.curCount + 1
      && d.ram.active && d.ram.curSeq == s.ram.curSeq && d.ram.tail == WroteBatch(s).ram.tail && d.ram.head == s.ram.head
      && (RefreshDue(WroteBatch(s).ram) <==> RefreshNow(s.ram))
      && (!RefreshNow(s.ram) ==> d.nv.dir == s.nv.dir && d.ram.lastRefresh == s.ram.lastRefresh)
  {
    WrittenRam(s);
    SubSmall(s.ram.curCount + 1, s.ram.lastRefresh);
    RefreshTouchesDirectoryOnly(WroteBatch(s));
  }

  /** The world once a record is staged and the writer has seen it. */
  ghost function Pending(w: World, rec: Rec): World
    requires Shaped(w.log)
  {
    w.(log := Append(w.log, [rec]), armed := true)
  }

  lemma PendOne(from: World, events: seq<Event>, w: World, rec: Rec)
    requires IsRun(from, events, w) && Recording(w)
    ensures Inv(Pending(w, rec))
    ensures IsRun(from, events + [AppendRecs([rec])] + [WriterTest], Pending(w, rec))
  {
    OneStaged(w.log, rec);
    AppendKeeps(w, [rec]);
    var staged := Next(w, AppendRecs([rec]));
    RunExtends(from, events, w, AppendRecs([rec]));
    assert w.log.ram.head != staged.log.ram.head;
    assert Next(staged, WriterTest) == Pending(w, rec);
    NextKeeps(staged, WriterTest);
    RunExtends(from, events + [AppendRecs([rec])], staged, WriterTest);
  }

  lemma DrainPending(w: World, rec: Rec)
    requires Recording(w) && HasRoom(w) && Inv(Pending(w, rec)) && w.log.ram.curSeq in w.sessions
    ensures Recording(Drained(Pending(w, rec))) && Recorded(w, Drained(Pending(w, rec)), rec, 1)
  {
    var armed := Pending(w, rec);
    OneStaged(w.log, rec);
    FlattenOne(rec);
    OneDrained(armed.log);
    NextKeeps(armed, WriterDrain);
  }

  /** Append, test, drain: one more record of the running session. */
  lemma RecordOne(from: World, events: seq<Event>, w: World, rec: Rec) returns (more: seq<Event>, drained: World)
    requires IsRun(from, events, w) && Recording(w) && HasRoom(w)
    ensures w.log.ram.curSeq in w.sessions
    ensures IsRun(from, more, drained) && (NoReset(events) ==> NoReset(more)) && Recording(drained) && Recorded(w, drained, rec, 1)
    ensures drained == Drained(Pending(w, rec)) && Inv(Pending(w, rec))
  {
    RunningRange(w);
    PendOne(from, events, w, rec);
    DrainPending(w, rec);
    drained := Drained(Pending(w, rec));
    more := events + [AppendRecs([rec])] + [WriterTest] + [WriterDrain];
    OneStaged(w.log, rec);
    RunExtends(from, events + [AppendRecs([rec])] + [WriterTest], Pending(w, rec), WriterDrain);
  }

  lemma RecordedThen(w: World, m: World, d: World, bytes: seq<Byte>, n: nat, rec: Rec)
    requires Shaped(w.log) && Shaped(m.log) && Shaped(d.log)
    requires w.log.ram.curSeq in w.sessions && m.log.ram.curSeq in m.sessions
    requires Recorded(w, m, bytes, n) && Recorded(m, d, rec, 1)
    ensures Recorded(w, d, bytes + rec, n + 1)
  {
    var k := w.log.ram.curSeq;
    assert (w.hist + bytes) + rec == w.hist + (bytes + rec);
    assert (w.sessions[k] + bytes) + rec == w.sessions[k] + (bytes + rec);
  }

  lemma NothingRecorded(w: World)
    requires Shaped(w.log) && w.log.ram.curSeq in w.sessions
    ensures Recorded(w, w, [], 0)
  {
    assert w.sessions[w.log.ram.curSeq] + [] == w.sessions[w.log.ram.curSeq] && w.hist + [] == w.hist;
  }

  lemma NoneRecorded(w: World, recs: seq<Rec>)
    requires Shaped(w.log) && w.log.ram.curSeq in w.sessions
    ensures RecordedFirst(w, w, recs, 0)
  {
    NothingRecorded(w);
    assert Flatten(recs[..0]) == [];
  }

  lemma FlattenSnoc(recs: seq<Rec>, n: nat)
    requires n < |recs|
    ensures Flatten(recs[..n + 1]) == Flatten(recs[..n]) + recs[n]
  {
    var whole, parts := Flatten(recs[..n + 1]), Flatten(recs[..n]) + recs[n];
    forall k | 0 <= k < |whole|
      ensures whole[k] == parts[k]
    {
      if k >= REC_SIZE * n {
        assert k / REC_SIZE == n && k % REC_SIZE == k - REC_SIZE * n;
      }
    }
  }

  /** World d is world w after the first n records of recs. */
  ghost predicate RecordedFirst(w: World, d: World, recs: seq<Rec>, n: nat) {
    && n <= |recs| && Shaped(w.log) && Shaped(d.log) && w.log.ram.curSeq in w.sessions
    && Recorded(w, d, Flatten(recs[..n]), n)
  }

  lemma RecordedSnoc(w: World, m: World, d: World, recs: seq<Rec>, n: nat, rec: Rec)
    requires n < |recs| && rec == recs[n] && RecordedFirst(w, m, recs, n)
    requires Shaped(d.log) && m.log.ram.curSeq in m.sessions && Recorded(m, d, rec, 1)
    ensures RecordedFirst(w, d, recs, n + 1)
  {
    RecordedThen(w, m, d, Flatten(recs[..n]), n, rec);
    FlattenSnoc(recs, n);
  }

  lemma RoomLeft(w: World, m: World, recs: seq<Rec>, n: nat)
    requires RecordedFirst(w, m, recs, n) && w.log.ram.total + n + BATCH_RECS < NEVER_REFRESHED
    ensures HasRoom(m)
  {
  }

  /** The running session can record any records. */
  lemma {:induction false} RecordAll(from: World, events: seq<Event>, w: World, recs: seq<Rec>, n: nat)
      returns (more: seq<Event>, d: World)
    requires IsRun(from, events, w) && Recording(w) && n <= |recs|
    requires w.log.ram.total + n + BATCH_RECS < NEVER_REFRESHED
    ensures IsRun(from, more, d) && (NoReset(events) ==> NoReset(more)) && Recording(d) && RecordedFirst(w, d, recs, n)
    decreases n
  {
    RunningRange(w);
    if n == 0 {
      more, d := events, w;
      NoneRecorded(w, recs);
    } else {
      var rec := recs[n - 1];
      var before, m := RecordAll(from, events, w, recs, n - 1);
      RoomLeft(w, m, recs, n - 1);
      more, d := RecordOne(from, before, m, rec);
      RecordedSnoc(w, m, d, recs, n - 1, rec);
    }
  }

  /** A new session begins when none runs and the writer is idle. */
  lemma Begin(from: World, events: seq<Event>, w: World, header: Header) returns (more: seq<Event>, d: World)
    requires IsRun(from, events, w) && Inv(w) && !w.log.ram.active && !w.armed && w.log.ram.seqNext + 1 < TWO32
    ensures IsRun(from, more, d) && (NoReset(events) ==> NoReset(more)) && Recording(d)
    ensures d.hist == w.hist && d.high == w.high && d.fw == w.fw
    ensures d.log.ram.total == w.log.ram.total && d.log.ram.curSeq == w.log.ram.seqNext
    ensures d.log.ram.curCount == d.log.ram.lastRefresh == 0
    ensures d.sessions == w.sessions[w.log.ram.seqNext as nat := []]
    ensures d.starts == w.starts[w.log.ram.seqNext as nat := w.log.ram.total]
    ensures d == Next(w, StartSession(header, true))
  {
    d := Next(w, StartSession(header, true));
    more := events + [StartSession(header, true)];
    StartKeeps(w, header, true);
    StartedFields(w, header);
    RunExtends(from, events, w, StartSession(header, true));
  }

  /** Session 1, begun right after the first boot, with any records. */
  lemma FirstSession(data: seq<Byte>, fw: u32, header: Header, recs: seq<Rec>) returns (events: seq<Event>, w: World)
    requires |data| == DATA_CAPACITY && |recs| + BATCH_RECS < NEVER_REFRESHED
    ensures IsRun(Factory(data, fw), events, w) && NoReset(events) && Recording(w) && w.high == w.log.ram.total == |recs|
    ensures w.hist == Flatten(recs) && w.sessions == map[1 := Flatten(recs)] && w.starts == map[1 := 0]
    ensures w.log.ram.curSeq == 1 && w.log.ram.seqNext == 2 && w.fw == fw
  {
    var f := Factory(data, fw);
    ReachableInv(data, fw, [], f);
    var e0, w0 := Begin(f, [], f, header);
    events, w := RecordAll(f, e0, w0, recs, |recs|);
    FirstRecorded(w0, w, recs);
  }

  lemma FirstRecorded(v: World, w: World, recs: seq<Rec>)
    requires RecordedFirst(v, w, recs, |recs|) && v.log.ram.curSeq == 1 && v.hist == [] && v.sessions == map[1 := []]
    ensures w.hist == Flatten(recs) && w.sessions == map[1 := Flatten(recs)] && w.starts == v.starts
    ensures w.log.ram.curSeq == 1 && w.log.ram.total == v.log.ram.total + |recs|
  {
    assert recs[..|recs|] == recs;
    assert [] + Flatten(recs) == Flatten(recs);
  }

  // ---- past 2^28 records -----------------------------------------------------------------

  const PAST: int := 0x1000_0001

  const ONES: Rec := seq(REC_SIZE, _ => 1)

  /** 2^28 records of zeros, then one of ones. */
  ghost function LateRecords(): (recs: seq<Rec>)
    ensures |recs| == PAST
  {
    seq(PAST, i => if i == PAST - 1 then ONES else ZERO_REC)
  }

  lemma LateBytes(k: nat)
    requires k < REC_SIZE * PAST
    ensures Flatten(LateRecords())[k] == if k >= TWO32 then 1 else 0
  {
    assert k / REC_SIZE == PAST - 1 <==> k >= TWO32;
  }

  /** A run of the log, one record past 2^28: the last record of its session is in the ring,
      and the append-only store returns its ones, but the byte address wraps and the read
      returns zeros from cell 0. */
  lemma PastLimitReadsWrongBytes(data: seq<Byte>, fw: u32, header: Header) returns (events: seq<Event>, w: World)
    requires |data| == DATA_CAPACITY
    ensures IsRun(Factory(data, fw), events, w) && NoReset(events) && Shaped(w.log) && w.log.ram.total == PAST
    ensures Known(w.log.nv.dir, 1) && Intact(w, 1) && !Addressable(w, 1, DATA_CAPACITY - REC_SIZE, REC_SIZE)
    ensures var got := ReadSession(w.log, 1, DATA_CAPACITY - REC_SIZE, REC_SIZE);
      && |got| == REC_SIZE && got[0] == 0
      && Window(Readable(w, 1), DATA_CAPACITY - REC_SIZE, REC_SIZE) == ONES
  {
    events, w := FirstSession(data, fw, header, LateRecords());
    LateReads(w);
  }

  lemma LateCell(w: World)
    requires Recording(w) && w.high == PAST && w.hist == Flatten(LateRecords())
    ensures w.log.nv.data[0] == 0
  {
    var k := TWO32 - 36544;
    assert k % DATA_CAPACITY == 0;
    LateBytes(k);
    assert RingAgrees(w.log.nv.data, w.hist, w.high);
  }

  lemma LateWindow(w: World)
    requires w.hist == Flatten(LateRecords()) && w.sessions == map[1 := w.hist] && w.starts == map[1 := 0]
    ensures FirstByte(w, 1) == TWO32 + REC_SIZE - DATA_CAPACITY
    ensures Window(Readable(w, 1), DATA_CAPACITY - REC_SIZE, REC_SIZE) == ONES
  {
    var all := Readable(w, 1);
    assert |all| == DATA_CAPACITY;
    forall j | DATA_CAPACITY - REC_SIZE <= j < DATA_CAPACITY
      ensures all[j] == 1
    {
      LateBytes(TWO32 + REC_SIZE - DATA_CAPACITY + j);
    }
  }

  lemma LateReads(w: World)
    requires Recording(w) && w.high == w.log.ram.total == PAST && w.log.ram.curSeq == 1
    requires w.hist == Flatten(LateRecords()) && w.sessions == map[1 := w.hist] && w.starts == map[1 := 0]
    ensures Known(w.log.nv.dir, 1) && Intact(w, 1) && !Addressable(w, 1, DATA_CAPACITY - REC_SIZE, REC_SIZE)
    ensures var got := ReadSession(w.log, 1, DATA_CAPACITY - REC_SIZE, REC_SIZE);
      && |got| == REC_SIZE && got[0] == 0
      && Window(Readable(w, 1), DATA_CAPACITY - REC_SIZE, REC_SIZE) == ONES
  {
    RunningIsKnown(w);
    LateWindow(w);
    LateCell(w);
    KnownIsLocated(w, 1);
    ReadVisits(w.log, w.log.nv.data, 1, FirstByte(w, 1), |Readable(w, 1)|, DATA_CAPACITY - REC_SIZE, REC_SIZE);
    assert OnRing(w.log, w.log.nv.data) == w.log;
    assert SpanCells(0, REC_SIZE)[0] == 0;
  }

  // ---- sessions whose first record is overwritten ---------------------------------------------

  ghost function Zeros(n: nat): (recs: seq<Rec>)
    ensures |recs| == n
  {
    seq(n, _ => ZERO_REC)
  }

  lemma StoppedFields(w: World)
    requires Recording(w) && w.log.ram.seqNext == 2
    ensures var d := Next(w, StopSession);
      && Inv(d) && !d.log.ram.active && !d.armed && d.log.ram.seqNext == 2
      && d.hist == w.hist && d.high == w.high && d.log.ram.total == w.log.ram.total
      && d.sessions == w.sessions && d.starts == w.starts && d.fw == w.fw
  {
    StopKeeps(w);
  }

  lemma StaysKnown(w: World, header: Header)
    requires Recording(w) && w.log.ram.seqNext == 2 && w.log.ram.curSeq == 1 && w.starts == map[1 := 0]
    requires Inv(Next(w, StopSession)) && !Next(w, StopSession).log.ram.active && Next(w, StopSession).log.ram.seqNext == 2
    requires Next(w, StopSession).starts == w.starts
    ensures Known(Next(w, StopSession).log.nv.dir, 1)
    ensures Known(Next(Next(w, StopSession), StartSession(header, true)).log.nv.dir, 1)
  {
    RunningIsKnown(w);
    EntriesGoExactly(w, StopSession, 1);
    EntriesGoExactly(Next(w, StopSession), StartSession(header, true), 1);
  }

  /** A session of zeros, one ring long, is closed and a second one begun. */
  lemma SecondBegun(data: seq<Byte>, fw: u32, header: Header) returns (events: seq<Event>, w: World)
    requires |data| == DATA_CAPACITY
    ensures IsRun(Factory(data, fw), events, w) && NoReset(events) && Recording(w) && w.fw == fw
    ensures w.log.ram.curSeq == 2 && w.log.ram.lastRefresh == w.log.ram.curCount == 0 && w.high == w.log.ram.total == REC_CAPACITY
    ensures w.hist == Flatten(Zeros(REC_CAPACITY)) && w.sessions == map[1 := w.hist, 2 := []]
    ensures w.starts == map[1 := 0, 2 := REC_CAPACITY] && Known(w.log.nv.dir, 1)
  {
    var f := Factory(data, fw);
    var e1, w1 := FirstSession(data, fw, header, Zeros(REC_CAPACITY));
    RunExtends(f, e1, w1, StopSession);
    StoppedFields(w1);
    StaysKnown(w1, header);
    events, w := Begin(f, e1 + [StopSession], Next(w1, StopSession), header);
  }

  /** A session one ring long, then the first 511 records of a second one. */
  lemma SecondSession(data: seq<Byte>, fw: u32, header: Header) returns (events: seq<Event>, w: World)
    requires |data| == DATA_CAPACITY
    ensures IsRun(Factory(data, fw), events, w) && NoReset(events) && Recording(w)
    ensures w.log.ram.curSeq == 2 && w.log.ram.lastRefresh == 0 && w.log.ram.curCount == DIR_REFRESH_RECS - 1
    ensures w.high == w.log.ram.total == REC_CAPACITY + DIR_REFRESH_RECS - 1
    ensures 1 in w.sessions && |w.sessions[1]| == DATA_CAPACITY && w.starts == map[1 := 0, 2 := REC_CAPACITY]
  {
    var e, v := SecondBegun(data, fw, header);
    events, w := RecordAll(Factory(data, fw), e, v, Zeros(DIR_REFRESH_RECS), DIR_REFRESH_RECS - 1);
  }

  lemma LastRecordRefreshes(w: World, d: World)
    requires Recording(w) && HasRoom(w) && w.log.ram.curSeq in w.sessions && Inv(Pending(w, ZERO_REC))
    requires d == Drained(Pending(w, ZERO_REC)) && RefreshNow(w.log.ram) && 1 in w.starts && w.log.ram.curSeq != 1
    requires w.starts[1] + REC_CAPACITY < w.log.ram.total + 1
    ensures !Known(d.log.nv.dir, 1)
  {
    var armed := Pending(w, ZERO_REC);
    OneStaged(w.log, ZERO_REC);
    OneDrained(armed.log);
    if Known(armed.log.nv.dir, 1) {
      EntriesGoExactly(armed, WriterDrain, 1);
    } else {
      StaysUnknown(armed.log, 1);
    }
  }

  lemma StaysUnknown(s: Log, k: nat)
    requires Shaped(s) && !Known(s.nv.dir, k)
    ensures !Known(Drain(s).nv.dir, k)
  {
  }

  /** A run of the log in which a session one ring long is followed by one of 512 records:
      the ring still holds 42966 records of the first, the append-only store returns them,
      but the refresh has taken the whole session from the directory. */
  lemma OverwrittenSessionVanishes(data: seq<Byte>, fw: u32, header: Header) returns (events: seq<Event>, w: World)
    requires |data| == DATA_CAPACITY
    ensures IsRun(Factory(data, fw), events, w) && NoReset(events) && Inv(w) && w.high == w.log.ram.total
    ensures |Readable(w, 1)| == REC_SIZE * (REC_CAPACITY - DIR_REFRESH_RECS)
    ensures !Known(w.log.nv.dir, 1) && forall offset: u32, len: u32 :: ReadSession(w.log, 1, offset, len) == []
  {
    var before, v := SecondSession(data, fw, header);
    events, w := RecordOne(Factory(data, fw), before, v, ZERO_REC);
    LastRecordRefreshes(v, w);
    forall offset: u32, len: u32
      ensures ReadSession(w.log, 1, offset, len) == []
    {
      ReadLength(w, 1, offset, len);
    }
  }

  // ---- crashes ----------------------------------------------------------------------------------

  /** Zeros one ring long are all of session 1, which is closed, and nothing after them is
      persisted. */
  ghost predicate OneRecordOver(w: World, cut: Cut)
    requires Shaped(w.log) && CutPossible(w, cut)
  {
    && Inv(w) && w.high == w.log.ram.total && (cut.Quiet? || cut.DuringBatch?)
    && Known(w.log.nv.dir, 1) && PersistedEnd(w.log) == REC_CAPACITY
    && 1 in w.starts && w.starts[1] == 0 && 1 in w.sessions && w.sessions[1] == Flatten(Zeros(REC_CAPACITY))
  }

  lemma CrashedSession(w: World, cut: Cut, d: World)
    requires Shaped(w.log) && CutPossible(w, cut) && OneRecordOver(w, cut) && d == AfterReset(w, cut, w.fw)
    ensures Inv(d) && Known(d.log.nv.dir, 1) && d.log.ram.total == REC_CAPACITY
    ensures 1 in d.starts && FirstByte(d, 1) == 0 && Readable(d, 1) == Flatten(Zeros(REC_CAPACITY))
  {
    ResetKeeps(w, cut, w.fw);
    BootKnows(Image(w, cut), w.fw, 1);
    LogCrash.CutAt(w.sessions, w.starts, 1, REC_CAPACITY);
  }

  lemma OnesAreShown(got: seq<Byte>, tape: seq<Byte>)
    requires tape == Flatten(Zeros(REC_CAPACITY)) + ONES && |got| == 1 && ShowsTape(got, tape, 0)
    ensures got == [1]
  {
    assert ShowsByte(got[0], tape, 0);
    assert ShownAt(|tape|, 0) == DATA_CAPACITY;
  }

  /** After such a crash the log lists session 1 in full, and its first byte reads wrong. */
  lemma CrashReadsWrong(w: World, cut: Cut, d: World)
    requires Shaped(w.log) && CutPossible(w, cut) && OneRecordOver(w, cut) && d == AfterReset(w, cut, w.fw)
    requires LogCrash.WrittenAt(w, cut) == Flatten(Zeros(REC_CAPACITY)) + ONES
    ensures Shaped(d.log) && Known(d.log.nv.dir, 1) && Readable(d, 1) == Flatten(Zeros(REC_CAPACITY))
    ensures ReadSession(d.log, 1, 0, 1) == [1] && Window(Readable(d, 1), 0, 1) == [0]
  {
    CrashedSession(w, cut, d);
    EarlyReadsAreAddressable(d, 1, 0, 1);
    LogCrash.CrashReadsWhatWasWritten(w, cut, d, 1, 0, 1);
    ReadLength(d, 1, 0, 1);
    OnesAreShown(ReadSession(d.log, 1, 0, 1), LogCrash.WrittenAt(w, cut));
  }

  lemma OneMore(w: World, d: World, rec: Rec)
    requires Recording(w) && w.log.ram.curSeq == 2 && w.log.ram.lastRefresh == w.log.ram.curCount == 0
    requires w.high == w.log.ram.total == REC_CAPACITY && w.hist == Flatten(Zeros(REC_CAPACITY))
    requires w.sessions == map[1 := w.hist, 2 := []] && w.starts == map[1 := 0, 2 := REC_CAPACITY] && Known(w.log.nv.dir, 1)
    requires Recording(d) && Recorded(w, d, ONES, 1)
    ensures OneRecordOver(d, Quiet) && LogCrash.WrittenAt(d, Quiet) == Flatten(Zeros(REC_CAPACITY)) + ONES
  {
    ActiveEnd(d.log);
  }

  /** A run of the log without a torn write: a closed session one ring long, one record of the
      next session, a reset between two operations.  The record is forgotten, the closed
      session is listed in full, and its first record reads back as the forgotten one. */
  lemma ForgottenRecordIsExposed(data: seq<Byte>, fw: u32, header: Header) returns (events: seq<Event>, d: World)
    requires |data| == DATA_CAPACITY
    ensures IsRun(Factory(data, fw), events + [Reset(Quiet, fw)], d) && NoReset(events)
    ensures Shaped(d.log) && Known(d.log.nv.dir, 1) && Readable(d, 1) == Flatten(Zeros(REC_CAPACITY))
    ensures ReadSession(d.log, 1, 0, 1) == [1] && Window(Readable(d, 1), 0, 1) == [0]
  {
    var e, v := SecondBegun(data, fw, header);
    var w;
    events, w := RecordOne(Factory(data, fw), e, v, ONES);
    OneMore(v, w, ONES);
    d := AfterReset(w, Quiet, fw);
    CrashReadsWrong(w, Quiet, d);
    RunExtends(Factory(data, fw), events, w, Reset(Quiet, fw));
  }

  lemma OneTorn(w: World)
    requires Recording(w) && w.log.ram.curSeq == 2 && w.log.ram.lastRefresh == w.log.ram.curCount == 0
    requires w.high == w.log.ram.total == REC_CAPACITY && w.hist == Flatten(Zeros(REC_CAPACITY))
    requires w.sessions == map[1 := w.hist, 2 := []] && w.starts == map[1 := 0, 2 := REC_CAPACITY] && Known(w.log.nv.dir, 1)
    requires Inv(Pending(w, ONES))
    ensures CutPossible(Pending(w, ONES), DuringBatch(ONES)) && OneRecordOver(Pending(w, ONES), DuringBatch(ONES))
    ensures LogCrash.WrittenAt(Pending(w, ONES), DuringBatch(ONES)) == Flatten(Zeros(REC_CAPACITY)) + ONES
  {
    OneStaged(w.log, ONES);
    ActiveEnd(w.log);
  }

  /** The same by a batch that was being written when the power failed. */
  lemma TornBatchIsExposed(data: seq<Byte>, fw: u32, header: Header) returns (events: seq<Event>, d: World)
    requires |data| == DATA_CAPACITY
    ensures IsRun(Factory(data, fw), events + [Reset(DuringBatch(ONES), fw)], d)
    ensures Shaped(d.log) && Known(d.log.nv.dir, 1) && Readable(d, 1) == Flatten(Zeros(REC_CAPACITY))
    ensures ReadSession(d.log, 1, 0, 1) == [1] && Window(Readable(d, 1), 0, 1) == [0]
  {
    var e, v := SecondBegun(data, fw, header);
    PendOne(Factory(data, fw), e, v, ONES);
    events := e + [AppendRecs([ONES])] + [WriterTest];
    OneTorn(v);
    d := AfterReset(Pending(v, ONES), DuringBatch(ONES), fw);
    CrashReadsWrong(Pending(v, ONES), DuringBatch(ONES), d);
    RunExtends(Factory(data, fw), events, Pending(v, ONES), Reset(DuringBatch(ONES), fw));
  }
}
