/** Every transition of LogRuns keeps the log invariant. */
module LogInvariant {
  import opened Words
  import opened Rings
  import opened LogSpec
  import opened LogRuns

  // ---- the flash ring ----------------------------------------------------------

  /** The ring holds a whole number of records, so the byte address of absolute record
      `total` is the byte-wise remainder of its absolute byte position. */
  lemma RecordAndByteWrapAgree(total: nat)
    ensures REC_SIZE * total % DATA_CAPACITY == total % REC_CAPACITY * REC_SIZE
  {
    var q, r := total / REC_CAPACITY, total % REC_CAPACITY;
    assert REC_SIZE * total == DATA_CAPACITY * q + REC_SIZE * r;
  }

  /** A batch of n records at the write head fills the cells of the next n positions and
      touches no cell of the positions less than one ring length behind them. */
  lemma BatchCells(total: nat, n: nat, k: int)
    requires total % REC_CAPACITY + n <= REC_CAPACITY
    requires REC_SIZE * (total + n) - DATA_CAPACITY <= k < REC_SIZE * (total + n) && 0 <= k
    ensures var off := total % REC_CAPACITY * REC_SIZE;
      if k < REC_SIZE * total
      then !(off <= k % DATA_CAPACITY < off + REC_SIZE * n)
      else k % DATA_CAPACITY == off + (k - REC_SIZE * total)
  {
    RecordAndByteWrapAgree(total);
    var base := REC_SIZE * total;
    var off := base % DATA_CAPACITY;
    if k >= base {
      assert k == base / DATA_CAPACITY * DATA_CAPACITY + (off + (k - base));
    } else if base - k <= off {
      assert k == base / DATA_CAPACITY * DATA_CAPACITY + (off - (base - k));
    } else {
      assert k == (base / DATA_CAPACITY - 1) * DATA_CAPACITY + (off - (base - k) + DATA_CAPACITY);
    }
  }

  /** Writing a batch keeps every byte the new high-water mark still protects; when the
      batch counts as history, the history including it agrees too. */
  lemma BatchKeepsRing(data: seq<Byte>, hist: seq<Byte>, high: nat, total: nat, n: nat, bytes: seq<Byte>)
    requires |data| == DATA_CAPACITY && |hist| == REC_SIZE * total
    requires RingAgrees(data, hist, high)
    requires total % REC_CAPACITY + n <= REC_CAPACITY && |bytes| == REC_SIZE * n
    ensures RingAgrees(Splice(data, total % REC_CAPACITY * REC_SIZE, bytes), hist + bytes, Max(high, total + n))
  {
    var after, grown, mark := Splice(data, total % REC_CAPACITY * REC_SIZE, bytes), hist + bytes, Max(high, total + n);
    forall k | 0 <= k < |grown| && REC_SIZE * mark - DATA_CAPACITY <= k
      ensures after[k % DATA_CAPACITY] == grown[k]
    {
      BatchCells(total, n, k);
    }
  }

  lemma ShorterHistoryAgrees(data: seq<Byte>, hist: seq<Byte>, high: nat, n: nat)
    requires |data| == DATA_CAPACITY && n <= |hist|
    requires RingAgrees(data, hist, high)
    ensures RingAgrees(data, hist[..n], high)
  {
  }

  // ---- writer --------------------------------------------------------------------

  lemma WrittenRam(s: Log)
    requires Shaped(s) && s.ram.total + BATCH_RECS < TWO32 && Sub(s.ram.head, s.ram.tail) <= STAGE_N
    ensures var n, r := DrainCount(s.ram), WroteBatch(s).ram;
      && r == s.ram.(tail := r.tail, total := s.ram.total + n, curCount := r.curCount)
      && (s.ram.curCount <= s.ram.total ==> r.curCount == s.ram.curCount + n)
      && Sub(r.head, r.tail) <= STAGE_N
  {
    PoppedCounterFacts(s.ram.head, s.ram.tail, DrainCount(s.ram));
  }

  lemma WrittenCounters(w: World)
    requires Inv(w) && w.armed && HasRoom(w)
    ensures var n, r := DrainCount(w.log.ram), WroteBatch(w.log).ram;
      && r.total == w.log.ram.total + n
      && (w.log.ram.active ==> r.curCount == w.log.ram.curCount + n)
      && Sub(r.head, r.tail) <= STAGE_N
  {
    WrittenRam(w.log);
  }

  lemma LargerTotalKeepsDirectory(dir: seq<Entry>, seqNext: int, total: int, total': int)
    requires DirectoryOk(dir, seqNext, total) && total <= total' < NEVER_REFRESHED
    ensures DirectoryOk(dir, seqNext, total')
  {
    forall i | 0 <= i < MAX_SESSIONS
      ensures EntryOk(dir[i], i, seqNext, total')
    {
      assert EntryOk(dir[i], i, seqNext, total);
    }
  }

  /** Persisting the live count of the newest session keeps the ranges ordered. */
  lemma RefreshKeepsDirectory(dir: seq<Entry>, cur: nat, e: Entry, seqNext: int, total: int)
    requires DirectoryOk(dir, seqNext, total) && cur < MAX_SESSIONS
    requires dir[cur].Session? && e.Session? && e.seqNo == dir[cur].seqNo == seqNext - 1
    requires e.start == dir[cur].start && e.start + e.count <= total
    ensures DirectoryOk(dir[cur := e], seqNext, total)
  {
    var after := dir[cur := e];
    forall i | 0 <= i < MAX_SESSIONS
      ensures EntryOk(after[i], i, seqNext, total)
    {
      assert EntryOk(dir[i], i, seqNext, total);
    }
    forall i, j | 0 <= i < MAX_SESSIONS && 0 <= j < MAX_SESSIONS
      ensures Before(after[i], after[j])
    {
      assert Before(dir[i], dir[j]);
      assert EntryOk(dir[i], i, seqNext, total) && EntryOk(dir[j], j, seqNext, total);
    }
  }

  lemma FreeingKeepsDirectory(dir: seq<Entry>, after: seq<Entry>, seqNext: int, total: int)
    requires DirectoryOk(dir, seqNext, total) && |after| == |dir|
    requires forall i :: 0 <= i < |dir| ==> after[i] == dir[i] || after[i] == Free
    ensures DirectoryOk(after, seqNext, total)
  {
    forall i | 0 <= i < MAX_SESSIONS
      ensures EntryOk(after[i], i, seqNext, total)
    {
      assert EntryOk(dir[i], i, seqNext, total);
    }
    forall i, j | 0 <= i < MAX_SESSIONS && 0 <= j < MAX_SESSIONS
      ensures Before(after[i], after[j])
    {
      assert Before(dir[i], dir[j]);
    }
  }

  /** The history and session bytes once the batch of an armed writer is in. */
  ghost function Mid(w: World): World
    requires Shaped(w.log)
  {
    Drained(w).(log := WroteBatch(w.log))
  }

  /** Between the data write and the directory update only the lag bound is looser. */
  lemma WroteBatchKeeps(w: World)
    requires Inv(w) && w.armed && HasRoom(w)
    ensures var m := Mid(w);
      && |m.hist| == REC_SIZE * m.log.ram.total
      && m.log.ram.total <= m.high
      && RingAgrees(m.log.nv.data, m.hist, m.high)
      && DirectoryOk(m.log.nv.dir, m.log.ram.seqNext, m.log.ram.total)
      && m.high <= PersistedEnd(w.log) + DIR_REFRESH_RECS - 1 + BATCH_RECS
      && (forall i :: 0 <= i < MAX_SESSIONS ==> SessionOk(m, i))
  {
    var m, r, n := Mid(w), w.log.ram, DrainCount(w.log.ram);
    WrittenCounters(w);
    BatchKeepsRing(w.log.nv.data, w.hist, w.high, r.total, n, NewBytes(w));
    LargerTotalKeepsDirectory(w.log.nv.dir, r.seqNext, r.total, r.total + n);
    if r.active {
      ActiveEnd(w.log);
    }
    forall i | 0 <= i < MAX_SESSIONS
      ensures SessionOk(m, i)
    {
      MidSession(w, i);
    }
  }

  lemma RecordsGrow(hist: seq<Byte>, bytes: seq<Byte>, from: nat, count: nat, n: nat)
    requires REC_SIZE * (from + count) == |hist| && |bytes| == REC_SIZE * n
    ensures Records(hist + bytes, from, count + n) == Records(hist, from, count) + bytes
  {
  }

  lemma RecordsKept(hist: seq<Byte>, bytes: seq<Byte>, from: nat, count: nat)
    requires REC_SIZE * (from + count) <= |hist|
    ensures Records(hist + bytes, from, count) == Records(hist, from, count)
  {
  }

  lemma RecordsPrefix(hist: seq<Byte>, n: nat, from: nat, count: nat)
    requires REC_SIZE * (from + count) <= n <= |hist|
    ensures Records(Prefix(hist, n), from, count) == Records(hist, from, count)
  {
  }

  lemma MidSession(w: World, i: nat)
    requires Inv(w) && w.armed && HasRoom(w) && i < MAX_SESSIONS
    ensures SessionOk(Mid(w), i)
  {
    WrittenCounters(w);
    assert SessionOk(w, i);
    if w.log.nv.dir[i].Session? {
      assert EntryOk(w.log.nv.dir[i], i, w.log.ram.seqNext, w.log.ram.total);
      if w.log.ram.active && i == w.log.ram.curSlot {
        CurrentSessionGrows(w);
      } else {
        OtherSessionUntouched(w, i);
        RecordsKept(w.hist, NewBytes(w), w.log.nv.dir[i].start, w.log.nv.dir[i].count);
      }
    }
  }

  lemma CurrentSessionGrows(w: World)
    requires Shaped(w.log) && w.log.ram.active && ActiveOk(w.log) && SessionOk(w, w.log.ram.curSlot)
    requires |w.hist| == REC_SIZE * w.log.ram.total
    requires WroteBatch(w.log).ram.total == w.log.ram.total + DrainCount(w.log.ram)
    requires WroteBatch(w.log).ram.curCount == w.log.ram.curCount + DrainCount(w.log.ram)
    ensures SessionOk(Mid(w), w.log.ram.curSlot)
  {
    RecordsGrow(w.hist, NewBytes(w), w.log.ram.curStart, w.log.ram.curCount, DrainCount(w.log.ram));
  }

  lemma OtherSessionUntouched(w: World, i: nat)
    requires Inv(w) && i < MAX_SESSIONS && w.log.nv.dir[i].Session?
    requires !(w.log.ram.active && i == w.log.ram.curSlot)
    ensures w.log.nv.dir[i].seqNo in w.sessions
    ensures GrownSessions(w)[w.log.nv.dir[i].seqNo] == w.sessions[w.log.nv.dir[i].seqNo]
  {
    var r, dir := w.log.ram, w.log.nv.dir;
    assert SessionOk(w, i);
    assert EntryOk(dir[i], i, r.seqNext, r.total);
    if r.active {
      assert EntryOk(dir[r.curSlot], r.curSlot, r.seqNext, r.total);
    }
  }

  lemma CountGrowsBy(c: u32, n: nat)
    requires n <= BATCH_RECS
    ensures Sub(Wrap(c + n), c) == n
  {
  }

  lemma LateRefreshMeansErased(w: World)
    requires Shaped(w.log) && InactiveOk(w) && w.armed && !w.log.ram.active
    requires RefreshDue(WroteBatch(w.log).ram)
    ensures AllFree(w.log.nv.dir)
  {
    CountGrowsBy(w.log.ram.curCount, DrainCount(w.log.ram));
  }

  lemma NothingToInvalidate(s: Log)
    requires Shaped(s) && AllFree(s.nv.dir)
    ensures InvalidatePrefix(RefreshCurrent(s, false), MAX_SESSIONS) == s
  {
    assert RefreshCurrent(s, false) == s;
    assert InvalidatePrefix(s, MAX_SESSIONS).nv.dir == s.nv.dir;
  }

  lemma EmptyDrain(s: Log)
    requires Shaped(s) && DrainCount(s.ram) == 0
    ensures WroteBatch(s) == s
  {
    assert WroteBatch(s).nv.data == s.nv.data;
  }

  /** A drain after stop or erase stays below the refresh threshold or finds no session:
      it moves records, and leaves the directory alone. */
  lemma LateDrainOnlyWrites(w: World)
    requires Shaped(w.log) && InactiveOk(w) && w.armed && !w.log.ram.active
    ensures Drain(w.log) == WroteBatch(w.log)
  {
    if DrainCount(w.log.ram) == 0 {
      EmptyDrain(w.log);
    } else if RefreshDue(WroteBatch(w.log).ram) {
      LateRefreshMeansErased(w);
      NothingToInvalidate(WroteBatch(w.log));
    }
  }

  lemma LateDrainKeeps(w: World)
    requires Inv(w) && w.armed && HasRoom(w) && !w.log.ram.active
    ensures Inv(Drained(w))
  {
    var d := Drained(w);
    WrittenCounters(w);
    WroteBatchKeeps(w);
    LateDrainOnlyWrites(w);
    assert d.log == Mid(w).log;
    assert forall i :: 0 <= i < MAX_SESSIONS && SessionOk(Mid(w), i) ==> SessionOk(d, i);
  }

  /** Invalidation after a refresh frees other sessions only, so the end stays persisted. */
  lemma RefreshedState(w: World, slots: nat)
    requires Inv(w) && w.armed && HasRoom(w) && w.log.ram.active
    ensures var s := InvalidatePrefix(RefreshCurrent(WroteBatch(w.log), false), slots);
      && s.ram.total == w.log.ram.total + DrainCount(w.log.ram)
      && s.ram.lastRefresh == s.ram.curCount == w.log.ram.curCount + DrainCount(w.log.ram)
      && DirectoryOk(s.nv.dir, s.ram.seqNext, s.ram.total)
      && ActiveOk(s)
      && PersistedEnd(s) == s.ram.total
  {
    var m := WroteBatch(w.log);
    var f := RefreshCurrent(m, false);
    var s := InvalidatePrefix(f, slots);
    WrittenCounters(w);
    WroteBatchKeeps(w);
    RefreshKeepsDirectory(m.nv.dir, m.ram.curSlot, f.nv.dir[m.ram.curSlot], m.ram.seqNext, m.ram.total);
    FreeingKeepsDirectory(f.nv.dir, s.nv.dir, s.ram.seqNext, s.ram.total);
    ActiveEnd(s);
  }

  lemma RefreshedSessions(w: World, slots: nat, i: nat)
    requires Inv(w) && w.armed && HasRoom(w) && w.log.ram.active && i < MAX_SESSIONS
    ensures SessionOk(Mid(w).(log := InvalidatePrefix(RefreshCurrent(WroteBatch(w.log), false), slots)), i)
  {
    WrittenCounters(w);
    MidSession(w, i);
  }

  lemma RefreshTouchesDirectoryOnly(s: Log)
    requires Shaped(s)
    ensures var r := InvalidatePrefix(RefreshCurrent(s, false), MAX_SESSIONS);
      r.nv == s.nv.(dir := r.nv.dir) && r.ram == s.ram.(lastRefresh := r.ram.lastRefresh)
  {
  }

  lemma RefreshingDrainKeeps(w: World)
    requires Inv(w) && w.armed && HasRoom(w) && w.log.ram.active
    ensures Inv(Mid(w).(log := InvalidatePrefix(RefreshCurrent(WroteBatch(w.log), false), MAX_SESSIONS)))
  {
    var d := Mid(w).(log := InvalidatePrefix(RefreshCurrent(WroteBatch(w.log), false), MAX_SESSIONS));
    WrittenCounters(w);
    WroteBatchKeeps(w);
    RefreshedState(w, MAX_SESSIONS);
    RefreshTouchesDirectoryOnly(WroteBatch(w.log));
    RefreshReachesHigh(w);
    forall i | 0 <= i < MAX_SESSIONS
      ensures SessionOk(d, i)
    {
      RefreshedSessions(w, MAX_SESSIONS, i);
    }
  }

  lemma RefreshReachesHigh(w: World)
    requires Inv(w) && w.armed && HasRoom(w) && w.log.ram.active
    ensures Mid(w).high <= w.log.ram.total + DrainCount(w.log.ram) + DIR_REFRESH_RECS - 1 + BATCH_RECS
  {
    ActiveEnd(w.log);
  }

  lemma PlainActive(s: Log)
    requires Shaped(s) && s.ram.active && ActiveOk(s) && !RefreshDue(WroteBatch(s).ram)
    requires WroteBatch(s).ram.total == s.ram.total + DrainCount(s.ram)
    requires WroteBatch(s).ram.curCount == s.ram.curCount + DrainCount(s.ram)
    ensures ActiveOk(WroteBatch(s))
  {
  }

  lemma PlainDrainKeeps(w: World)
    requires Inv(w) && w.armed && HasRoom(w) && w.log.ram.active
    requires !RefreshDue(WroteBatch(w.log).ram)
    ensures Inv(Mid(w))
  {
    WrittenCounters(w);
    WroteBatchKeeps(w);
    PlainActive(w.log);
    ActiveEnd(w.log);
  }

  lemma ActiveDrainKeeps(w: World)
    requires Inv(w) && w.armed && HasRoom(w) && w.log.ram.active
    ensures Inv(Drained(w))
  {
    if DrainCount(w.log.ram) == 0 {
      EmptyDrain(w.log);
      CountGrowsBy(w.log.ram.curCount, 0);
      PlainDrainKeeps(w);
      assert Drained(w) == Mid(w);
    } else if RefreshDue(WroteBatch(w.log).ram) {
      RefreshingDrainKeeps(w);
      assert Drained(w) == Mid(w).(log := Drain(w.log));
    } else {
      PlainDrainKeeps(w);
      assert Drained(w) == Mid(w);
    }
  }

  // ---- commands --------------------------------------------------------------------

  lemma AppendTouchesStagingOnly(r: Ram, recs: seq<Rec>)
    requires |r.stage| == STAGE_N && Sub(r.head, r.tail) <= STAGE_N
    ensures var a := AppendAll(r, recs);
      && Sub(a.head, a.tail) <= STAGE_N
      && a == r.(stage := a.stage, head := a.head, dropped := a.dropped)
    decreases |recs|
  {
    if recs != [] {
      AppendTouchesStagingOnly(r, recs[..|recs| - 1]);
      var b := AppendAll(r, recs[..|recs| - 1]);
      CounterFacts(b.head, b.tail);
    }
  }

  lemma AppendKeeps(w: World, recs: seq<Rec>)
    requires Inv(w)
    ensures Inv(Next(w, AppendRecs(recs)))
  {
    var d := Next(w, AppendRecs(recs));
    if w.log.ram.active {
      AppendTouchesStagingOnly(w.log.ram, recs);
    }
    assert forall i :: 0 <= i < MAX_SESSIONS && SessionOk(w, i) ==> SessionOk(d, i);
  }

  lemma StartKeepsDirectory(dir: seq<Entry>, seqNo: u32, total: u32, header: Header)
    requires DirectoryOk(dir, seqNo, total) && 1 <= seqNo
    ensures DirectoryOk(dir[(seqNo - 1) % MAX_SESSIONS := Session(seqNo, total, 0, header, true)], seqNo + 1, total)
  {
    var after := dir[(seqNo - 1) % MAX_SESSIONS := Session(seqNo, total, 0, header, true)];
    forall i | 0 <= i < MAX_SESSIONS
      ensures EntryOk(after[i], i, seqNo + 1, total)
    {
      assert EntryOk(dir[i], i, seqNo, total);
    }
    forall i, j | 0 <= i < MAX_SESSIONS && 0 <= j < MAX_SESSIONS
      ensures Before(after[i], after[j])
    {
      assert Before(dir[i], dir[j]);
      assert EntryOk(dir[i], i, seqNo, total) && EntryOk(dir[j], j, seqNo, total);
    }
  }

  lemma StartedSession(w: World, header: Header, writeOk: bool, i: nat)
    requires Inv(w) && Enabled(w, StartSession(header, writeOk)) && i < MAX_SESSIONS
    ensures SessionOk(Next(w, StartSession(header, writeOk)), i)
  {
    assert SessionOk(w, i);
    assert EntryOk(w.log.nv.dir[i], i, w.log.ram.seqNext, w.log.ram.total);
  }

  lemma StartKeeps(w: World, header: Header, writeOk: bool)
    requires Inv(w) && Enabled(w, StartSession(header, writeOk))
    ensures Inv(Next(w, StartSession(header, writeOk)))
  {
    var d := Next(w, StartSession(header, writeOk));
    forall i | 0 <= i < MAX_SESSIONS
      ensures SessionOk(d, i)
    {
      StartedSession(w, header, writeOk, i);
    }
    if !w.log.ram.active {
      if writeOk {
        StartRecorded(w, header);
      } else {
        StartRefused(w, header);
      }
    }
  }

  lemma StartedRuns(s: Log, header: Header)
    requires Shaped(s) && !s.ram.active && 1 <= s.ram.seqNext < TWO32 - 1
    ensures ActiveOk(Start(s, header, true).0)
  {
  }

  lemma StartedActive(w: World, header: Header)
    requires Inv(w) && !w.log.ram.active && w.log.ram.seqNext + 1 < TWO32
    ensures var s := Start(w.log, header, true).0; DirectoryOk(s.nv.dir, s.ram.seqNext, s.ram.total) && ActiveOk(s)
  {
    StartKeepsDirectory(w.log.nv.dir, w.log.ram.seqNext, w.log.ram.total, header);
    StartedRuns(w.log, header);
  }

  lemma StartRecorded(w: World, header: Header)
    requires Inv(w) && !w.log.ram.active && w.log.ram.seqNext + 1 < TWO32
    ensures var s := Start(w.log, header, true).0;
      DirectoryOk(s.nv.dir, s.ram.seqNext, s.ram.total) && ActiveOk(s) && PersistedEnd(w.log) <= PersistedEnd(s)
  {
    StartedActive(w, header);
    EndsWithinTotal(w.log);
    ActiveEnd(Start(w.log, header, true).0);
  }

  lemma StartRefused(w: World, header: Header)
    requires Inv(w) && !w.log.ram.active && w.log.ram.seqNext + 1 < TWO32
    ensures var s := Start(w.log, header, false).0; DirectoryOk(s.nv.dir, s.ram.seqNext, s.ram.total)
  {
    forall i | 0 <= i < MAX_SESSIONS
      ensures EntryOk(w.log.nv.dir[i], i, w.log.ram.seqNext + 1, w.log.ram.total)
    {
      assert EntryOk(w.log.nv.dir[i], i, w.log.ram.seqNext, w.log.ram.total);
    }
  }

  /** Stop persists the final count: the directory then accounts for every record. */
  lemma StopPersistsAll(w: World)
    requires Inv(w) && w.log.ram.active
    ensures var s := Stop(w.log);
      && !s.ram.active && s.ram.curCount == s.ram.lastRefresh
      && s.ram.total == w.log.ram.total == PersistedEnd(s)
      && DirectoryOk(s.nv.dir, s.ram.seqNext, s.ram.total)
  {
    var s, r := Stop(w.log), w.log.ram;
    RefreshKeepsDirectory(w.log.nv.dir, r.curSlot, s.nv.dir[r.curSlot], r.seqNext, r.total);
    EndsWithinTotal(s);
    MaxEndReached(s.nv.dir, r.curSlot, r.total);
  }

  lemma StopKeeps(w: World)
    requires Inv(w)
    ensures Inv(Next(w, StopSession))
  {
    var d := Next(w, StopSession);
    if w.log.ram.active {
      StopPersistsAll(w);
      ActiveEnd(w.log);
    }
    assert forall i :: 0 <= i < MAX_SESSIONS && SessionOk(w, i) ==> SessionOk(d, i);
  }

  lemma EraseKeeps(w: World)
    requires Inv(w) && !w.log.ram.active
    ensures Inv(Next(w, EraseAll))
  {
    NothingPersisted(WipedDir(), MAX_SESSIONS);
  }

  // ---- reset -----------------------------------------------------------------------

  /** What a boot needs to know about the flash it finds. */
  ghost predicate Bootable(nv: Flash, hist: seq<Byte>, high: nat, sessions: map<nat, seq<Byte>>, starts: map<nat, nat>,
                           seqNext: u32, total: nat) {
    && FlashShaped(nv)
    && 1 <= seqNext
    && |hist| == REC_SIZE * total
    && total <= high
    && RingAgrees(nv.data, hist, high)
    && DirectoryOk(nv.dir, seqNext, total)
    && high <= MaxEnd(nv.dir, MAX_SESSIONS) + DIR_REFRESH_RECS - 1 + BATCH_RECS
    && (forall i :: 0 <= i < MAX_SESSIONS ==> PersistedOk(nv.dir[i], hist, sessions, starts, MaxEnd(nv.dir, MAX_SESSIONS)))
  }

  /** The persisted part of a session is a prefix of what it recorded: all of it, or what
      lies before the persisted end. */
  ghost predicate PersistedOk(e: Entry, hist: seq<Byte>, sessions: map<nat, seq<Byte>>, starts: map<nat, nat>, end: nat) {
    e.Session? ==>
      && e.seqNo in sessions
      && e.seqNo in starts && starts[e.seqNo] == e.start
      && REC_SIZE * e.count <= |sessions[e.seqNo]|
      && REC_SIZE * (e.start + e.count) <= |hist|
      && Prefix(sessions[e.seqNo], REC_SIZE * e.count) == Records(hist, e.start, e.count)
      && (|sessions[e.seqNo]| == REC_SIZE * e.count || end == e.start + e.count)
  }

  lemma ClosedEntries(dir: seq<Entry>, seqNext: u32, total: int)
    requires DirectoryOk(dir, seqNext, total)
    ensures forall i :: 0 <= i < MAX_SESSIONS && dir[i].Session? ==>
      && 1 <= dir[i].seqNo < seqNext
      && EndOf(dir[i]) == dir[i].start + dir[i].count <= total
      && Closed(dir[i]) == dir[i].(open := false)
  {
    forall i | 0 <= i < MAX_SESSIONS && dir[i].Session?
      ensures 1 <= dir[i].seqNo < seqNext
      ensures EndOf(dir[i]) == dir[i].start + dir[i].count <= total
      ensures Closed(dir[i]) == dir[i].(open := false)
    {
      assert EntryOk(dir[i], i, seqNext, total);
    }
  }

  lemma BootCounters(dir: seq<Entry>, seqNext: u32, total: int)
    requires DirectoryOk(dir, seqNext, total) && 1 <= seqNext
    ensures MaxEnd(ClosedDir(dir, MAX_SESSIONS), MAX_SESSIONS) == MaxEnd(dir, MAX_SESSIONS) <= total
    ensures 1 <= NextSeq(dir, MAX_SESSIONS)
    ensures forall i :: 0 <= i < MAX_SESSIONS && dir[i].Session? ==>
      && dir[i].start + dir[i].count <= MaxEnd(dir, MAX_SESSIONS)
      && dir[i].seqNo < NextSeq(dir, MAX_SESSIONS)
  {
    ClosedEntries(dir, seqNext, total);
    MaxEndIsMaximum(dir, MAX_SESSIONS);
    NextSeqAbove(dir, MAX_SESSIONS, seqNext);
    MaxEndSame(dir, ClosedDir(dir, MAX_SESSIONS), MAX_SESSIONS);
  }

  lemma BootDirectory(dir: seq<Entry>, seqNext: u32, total: int)
    requires DirectoryOk(dir, seqNext, total) && 1 <= seqNext
    ensures DirectoryOk(ClosedDir(dir, MAX_SESSIONS), NextSeq(dir, MAX_SESSIONS), MaxEnd(dir, MAX_SESSIONS))
  {
    var closed, m, next := ClosedDir(dir, MAX_SESSIONS), MaxEnd(dir, MAX_SESSIONS), NextSeq(dir, MAX_SESSIONS);
    BootCounters(dir, seqNext, total);
    ClosedEntries(dir, seqNext, total);
    forall i | 0 <= i < MAX_SESSIONS
      ensures EntryOk(closed[i], i, next, m)
    {
      assert EntryOk(dir[i], i, seqNext, total);
    }
    forall i, j | 0 <= i < MAX_SESSIONS && 0 <= j < MAX_SESSIONS
      ensures Before(closed[i], closed[j])
    {
      assert Before(dir[i], dir[j]);
    }
  }

  /** The world a matching firmware boots into. */
  ghost function Booted(nv: Flash, fw: u32, hist: seq<Byte>, high: nat, sessions: map<nat, seq<Byte>>, starts: map<nat, nat>,
                        headers: map<nat, Header>): World
    requires FlashShaped(nv)
  {
    var log := Boot(nv, fw);
    World(log, fw, false, Prefix(hist, REC_SIZE * log.ram.total), high,
          CutSessions(sessions, starts, log.ram.total), starts, headers)
  }

  lemma BootRebuilds(nv: Flash, fw: u32, hist: seq<Byte>, high: nat, sessions: map<nat, seq<Byte>>, starts: map<nat, nat>,
                     headers: map<nat, Header>, seqNext: u32, total: nat)
    requires Bootable(nv, hist, high, sessions, starts, seqNext, total) && nv.stamp == Some(fw)
    ensures Inv(Booted(nv, fw, hist, high, sessions, starts, headers))
  {
    var d := Booted(nv, fw, hist, high, sessions, starts, headers);
    BootDirectory(nv.dir, seqNext, total);
    BootCounters(nv.dir, seqNext, total);
    ShorterHistoryAgrees(nv.data, hist, high, REC_SIZE * d.log.ram.total);
    forall i | 0 <= i < MAX_SESSIONS
      ensures SessionOk(d, i)
    {
      BootedSession(nv, fw, hist, high, sessions, starts, headers, seqNext, total, i);
    }
  }

  lemma BootedSession(nv: Flash, fw: u32, hist: seq<Byte>, high: nat, sessions: map<nat, seq<Byte>>, starts: map<nat, nat>,
                      headers: map<nat, Header>, seqNext: u32, total: nat, i: nat)
    requires Bootable(nv, hist, high, sessions, starts, seqNext, total) && nv.stamp == Some(fw) && i < MAX_SESSIONS
    ensures SessionOk(Booted(nv, fw, hist, high, sessions, starts, headers), i)
  {
    var e := nv.dir[i];
    if e.Session? {
      ClosedEntries(nv.dir, seqNext, total);
      BootCounters(nv.dir, seqNext, total);
      assert EntryOk(e, i, seqNext, total);
      assert PersistedOk(e, hist, sessions, starts, MaxEnd(nv.dir, MAX_SESSIONS));
      BootedEntry(nv, fw, hist, high, sessions, starts, headers, i);
    }
  }

  /** Cut at the persisted end, a session is what the directory says was persisted. */
  lemma CutIsPersisted(e: Entry, hist: seq<Byte>, sessions: map<nat, seq<Byte>>, starts: map<nat, nat>, end: nat)
    requires e.Session? && PersistedOk(e, hist, sessions, starts, end) && e.start + e.count <= end
    ensures e.seqNo in CutSessions(sessions, starts, end)
    ensures CutSessions(sessions, starts, end)[e.seqNo] == Records(hist, e.start, e.count)
  {
  }

  lemma BootedEntry(nv: Flash, fw: u32, hist: seq<Byte>, high: nat, sessions: map<nat, seq<Byte>>, starts: map<nat, nat>,
                    headers: map<nat, Header>, i: nat)
    requires FlashShaped(nv) && nv.stamp == Some(fw) && i < MAX_SESSIONS
    requires nv.dir[i].Session? && PersistedOk(nv.dir[i], hist, sessions, starts, MaxEnd(nv.dir, MAX_SESSIONS))
    requires Closed(nv.dir[i]) == nv.dir[i].(open := false)
    requires nv.dir[i].start + nv.dir[i].count <= MaxEnd(nv.dir, MAX_SESSIONS)
    requires REC_SIZE * MaxEnd(nv.dir, MAX_SESSIONS) <= |hist|
    ensures SessionOk(Booted(nv, fw, hist, high, sessions, starts, headers), i)
  {
    var d, e := Booted(nv, fw, hist, high, sessions, starts, headers), nv.dir[i];
    assert d.log.nv.dir[i] == e.(open := false);
    CutIsPersisted(e, hist, sessions, starts, d.log.ram.total);
    RecordsPrefix(hist, REC_SIZE * d.log.ram.total, e.start, e.count);
  }

  lemma SessionPersists(w: World, i: nat, end: nat)
    requires Shaped(w.log) && i < MAX_SESSIONS && SessionOk(w, i)
    requires w.log.nv.dir[i].Session? ==>
      var e, count := w.log.nv.dir[i], CountOf(w.log, i);
      e.count <= count && (e.count == count || end == e.start + e.count)
    ensures PersistedOk(w.log.nv.dir[i], w.hist, w.sessions, w.starts, end)
  {
    var e := w.log.nv.dir[i];
    if e.Session? {
      assert Prefix(Records(w.hist, e.start, CountOf(w.log, i)), REC_SIZE * e.count) == Records(w.hist, e.start, e.count);
    }
  }

  lemma AllPersisted(w: World)
    requires Inv(w)
    ensures forall i :: 0 <= i < MAX_SESSIONS ==> PersistedOk(w.log.nv.dir[i], w.hist, w.sessions, w.starts, PersistedEnd(w.log))
  {
    EndsWithinTotal(w.log);
    if w.log.ram.active { ActiveEnd(w.log); }
    forall i | 0 <= i < MAX_SESSIONS
      ensures PersistedOk(w.log.nv.dir[i], w.hist, w.sessions, w.starts, PersistedEnd(w.log))
    {
      assert SessionOk(w, i);
      SessionPersists(w, i, PersistedEnd(w.log));
    }
  }

  lemma QuietImage(w: World)
    requires Inv(w)
    ensures Bootable(w.log.nv, w.hist, w.high, w.sessions, w.starts, w.log.ram.seqNext, w.log.ram.total)
  {
    AllPersisted(w);
  }

  lemma BatchImage(w: World, junk: seq<Byte>)
    requires Inv(w) && CutPossible(w, DuringBatch(junk))
    ensures Bootable(Image(w, DuringBatch(junk)), w.hist, HighAt(w, DuringBatch(junk)), w.sessions, w.starts,
                     w.log.ram.seqNext, w.log.ram.total)
  {
    var r, n := w.log.ram, DrainCount(w.log.ram);
    AllPersisted(w);
    BatchKeepsRing(w.log.nv.data, w.hist, w.high, r.total, n, junk);
    ShorterHistoryAgrees(Image(w, DuringBatch(junk)).data, w.hist + junk, HighAt(w, DuringBatch(junk)), |w.hist|);
    assert (w.hist + junk)[..|w.hist|] == w.hist;
    if r.active {
      ActiveEnd(w.log);
    }
  }

  /** With no session left in the directory a refresh and the checks change nothing. */
  lemma RefreshImageInactive(w: World, slots: nat)
    requires Inv(w) && CutPossible(w, DuringRefresh(slots)) && !w.log.ram.active
    ensures AllFree(w.log.nv.dir)
    ensures Image(w, DuringRefresh(slots)) == WroteBatch(w.log).nv
  {
    WrittenCounters(w);
    LateRefreshMeansErased(w);
    assert Image(w, DuringRefresh(slots)).dir == w.log.nv.dir;
  }

  lemma RefreshImage(w: World, slots: nat)
    requires Inv(w) && CutPossible(w, DuringRefresh(slots))
    ensures Bootable(Image(w, DuringRefresh(slots)), w.hist + NewBytes(w), HighAt(w, DuringRefresh(slots)), GrownSessions(w),
                     w.starts, w.log.ram.seqNext, w.log.ram.total + DrainCount(w.log.ram))
  {
    WrittenCounters(w);
    WroteBatchKeeps(w);
    var nv := Image(w, DuringRefresh(slots));
    if w.log.ram.active {
      RefreshedState(w, slots);
      ActiveEnd(w.log);
      var m := Mid(w).(log := InvalidatePrefix(RefreshCurrent(WroteBatch(w.log), false), slots));
      forall i | 0 <= i < MAX_SESSIONS
        ensures PersistedOk(nv.dir[i], w.hist + NewBytes(w), GrownSessions(w), w.starts, MaxEnd(nv.dir, MAX_SESSIONS))
      {
        RefreshedSessions(w, slots, i);
        SessionPersists(m, i, MaxEnd(nv.dir, MAX_SESSIONS));
      }
    } else {
      RefreshImageInactive(w, slots);
    }
  }

  lemma WipedBootKeeps(w: World, cut: Cut, fw: u32)
    requires Inv(w) && CutPossible(w, cut) && Image(w, cut).stamp != Some(fw)
    ensures Inv(AfterReset(w, cut, fw))
  {
    NothingPersisted(WipedDir(), MAX_SESSIONS);
  }

  lemma ResetKeeps(w: World, cut: Cut, fw: u32)
    requires Inv(w) && CutPossible(w, cut)
    ensures Inv(AfterReset(w, cut, fw))
  {
    if Image(w, cut).stamp != Some(fw) {
      WipedBootKeeps(w, cut, fw);
    } else {
      match cut
      case Quiet =>
        QuietImage(w);
        BootRebuilds(w.log.nv, fw, w.hist, w.high, w.sessions, w.starts, w.headers, w.log.ram.seqNext, w.log.ram.total);
      case DuringBatch(junk) =>
        BatchImage(w, junk);
        BootRebuilds(Image(w, cut), fw, w.hist, HighAt(w, cut), w.sessions, w.starts, w.headers,
                     w.log.ram.seqNext, w.log.ram.total);
      case DuringRefresh(slots) =>
        RefreshImage(w, slots);
        BootRebuilds(Image(w, cut), fw, w.hist + NewBytes(w), HighAt(w, cut), GrownSessions(w), w.starts, w.headers,
                     w.log.ram.seqNext, w.log.ram.total + DrainCount(w.log.ram));
      case DuringErase(_) =>
        assert false;
    }
  }

  // ---- all runs ----------------------------------------------------------------------

  lemma NextKeeps(w: World, e: Event)
    requires Inv(w) && Enabled(w, e)
    ensures Inv(Next(w, e))
  {
    match e
    case StartSession(header, writeOk) => StartKeeps(w, header, writeOk);
    case AppendRecs(recs) => AppendKeeps(w, recs);
    case WriterTest =>
      assert forall i :: 0 <= i < MAX_SESSIONS && SessionOk(w, i) ==> SessionOk(Next(w, e), i);
      if w.log.ram.active { ActiveEnd(w.log); }
    case WriterDrain =>
      if w.log.ram.active { ActiveDrainKeeps(w); } else { LateDrainKeeps(w); }
    case StopSession => StopKeeps(w);
    case EraseAll => EraseKeeps(w);
    case Reset(cut, fw) => ResetKeeps(w, cut, fw);
  }

  /** First boot of a firmware on a flash whose directory is not its own. */
  ghost function Factory(data: seq<Byte>, fw: u32): World
    requires |data| == DATA_CAPACITY
  {
    World(Boot(Flash(data, WipedDir(), None), fw), fw, false, [], 0, map[], map[], map[])
  }

  /** The worlds of a run, each event enabled when it happens. */
  ghost predicate IsRun(from: World, events: seq<Event>, to: World)
    decreases |events|
  {
    Shaped(from.log) &&
    if events == [] then from == to
    else Enabled(from, events[0]) && IsRun(Next(from, events[0]), events[1..], to)
  }

  lemma {:induction false} RunsKeep(from: World, events: seq<Event>, to: World)
    requires Inv(from) && IsRun(from, events, to)
    ensures Inv(to)
    decreases |events|
  {
    if events != [] {
      NextKeeps(from, events[0]);
      RunsKeep(Next(from, events[0]), events[1..], to);
    }
  }

  lemma {:induction false} RunExtends(from: World, events: seq<Event>, w: World, e: Event)
    requires IsRun(from, events, w) && Shaped(w.log) && Enabled(w, e) && Shaped(Next(w, e).log)
    ensures IsRun(from, events + [e], Next(w, e))
    decreases |events|
  {
    var all := events + [e];
    if events == [] {
      assert all[1..] == [];
    } else {
      RunExtends(Next(from, events[0]), events[1..], w, e);
      assert all[1..] == events[1..] + [e];
    }
  }

  /** The invariant holds in every world reachable from any initial flash contents. */
  lemma {:induction false} ReachableInv(data: seq<Byte>, fw: u32, events: seq<Event>, w: World)
    requires |data| == DATA_CAPACITY && IsRun(Factory(data, fw), events, w)
    ensures Inv(w)
  {
    NothingPersisted(WipedDir(), MAX_SESSIONS);
    assert Inv(Factory(data, fw));
    RunsKeep(Factory(data, fw), events, w);
  }
}
