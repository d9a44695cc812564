/** What the directory still finds: over every run no recorded session disappears from it,
    unless a later session took its slot or overwrote its first record. */
module LogArchive {
  import opened Words
  import opened Rings
  import opened LogSpec
  import opened LogRuns
  import opened LogInvariant

  /** Session j came after session k, and took its slot or ran when records up to `end`
      had overwritten the first record of k. */
  predicate Displaces(starts: map<nat, nat>, j: nat, k: nat, end: u32)
    requires k in starts
  {
    k < j && ((j - k) % MAX_SESSIONS == 0 || starts[k] < RingFloor(end))
  }

  ghost predicate Displaced(starts: map<nat, nat>, k: nat, end: u32)
    requires k in starts
  {
    exists j :: j in starts && Displaces(starts, j, k, end)
  }

  ghost predicate NothingLost(dir: seq<Entry>, starts: map<nat, nat>, end: u32)
    requires |dir| == MAX_SESSIONS
  {
    forall k :: k in starts ==> Known(dir, k) || Displaced(starts, k, end)
  }

  ghost predicate Numbered(starts: map<nat, nat>, seqNext: u32) {
    forall k :: k in starts ==> 1 <= k < seqNext
  }

  /** A session is the range of the history from its start on. */
  predicate IsRange(hist: seq<Byte>, start: nat, bytes: seq<Byte>) {
    REC_SIZE * start + |bytes| <= |hist| && bytes == hist[REC_SIZE * start..REC_SIZE * start + |bytes|]
  }

  ghost predicate AllRanges(hist: seq<Byte>, sessions: map<nat, seq<Byte>>, starts: map<nat, nat>) {
    && sessions.Keys == starts.Keys
    && forall k :: k in sessions ==> IsRange(hist, starts[k], sessions[k])
  }

  /** Only the running session holds records the directory does not account for. */
  ghost predicate AllPersistedBut(sessions: map<nat, seq<Byte>>, starts: map<nat, nat>, running: Option<nat>, end: nat) {
    forall k :: k in sessions && k in starts ==>
      starts[k] <= end && (Some(k) != running ==> REC_SIZE * starts[k] + |sessions[k]| <= REC_SIZE * end)
  }

  function RunningSession(s: Log): Option<nat> {
    if s.ram.active then Some(s.ram.curSeq) else None
  }

  ghost predicate Archived(dir: seq<Entry>, seqNext: u32, hist: seq<Byte>, sessions: map<nat, seq<Byte>>,
                           starts: map<nat, nat>, running: Option<nat>, end: u32)
    requires |dir| == MAX_SESSIONS
  {
    && NothingLost(dir, starts, end)
    && Numbered(starts, seqNext)
    && AllRanges(hist, sessions, starts)
    && AllPersistedBut(sessions, starts, running, end)
  }

  ghost predicate Archive(w: World)
    requires Shaped(w.log)
  {
    Archived(w.log.nv.dir, w.log.ram.seqNext, w.hist, w.sessions, w.starts, RunningSession(w.log), PersistedEnd(w.log))
  }

  // ---- directory changes -----------------------------------------------------------

  /** Displacement is for good: starts only accumulate and the persisted end only grows. */
  lemma StaysDisplaced(starts: map<nat, nat>, starts': map<nat, nat>, k: nat, end: u32, end': u32)
    requires k in starts && Displaced(starts, k, end) && end <= end'
    requires forall x :: x in starts ==> x in starts' && starts'[x] == starts[x]
    ensures Displaced(starts', k, end')
  {
    var j :| j in starts && Displaces(starts, j, k, end);
    assert Displaces(starts', j, k, end');
  }

  /** A change of the directory loses nothing if every entry that goes was displaced. */
  lemma DirectoryMovesOn(dir: seq<Entry>, dir': seq<Entry>, starts: map<nat, nat>, starts': map<nat, nat>, end: u32, end': u32)
    requires |dir| == |dir'| == MAX_SESSIONS && NothingLost(dir, starts, end) && end <= end'
    requires forall x :: x in starts ==> x in starts' && starts'[x] == starts[x]
    requires forall k :: k in starts && Known(dir, k) ==> Known(dir', k) || Displaced(starts', k, end')
    requires forall k :: k in starts' && k !in starts ==> Known(dir', k)
    ensures NothingLost(dir', starts', end')
  {
    forall k | k in starts'
      ensures Known(dir', k) || Displaced(starts', k, end')
    {
      if k in starts && !Known(dir, k) {
        StaysDisplaced(starts, starts', k, end, end');
      }
    }
  }

  /** Entries keep their numbers. */
  lemma SameNumbersKnown(dir: seq<Entry>, dir': seq<Entry>, k: nat)
    requires |dir| == |dir'| == MAX_SESSIONS
    requires forall i :: 0 <= i < MAX_SESSIONS && dir[i].Session? ==> dir'[i].Session? && dir'[i].seqNo == dir[i].seqNo
    ensures Known(dir, k) ==> Known(dir', k)
  {
  }

  /** The newest session is always known: whoever is not was displaced by a later one. */
  lemma {:induction false} SomeLaterKnown(dir: seq<Entry>, starts: map<nat, nat>, end: u32, seqNext: u32, k: nat)
    requires |dir| == MAX_SESSIONS && NothingLost(dir, starts, end) && Numbered(starts, seqNext) && k in starts
    ensures exists j :: j in starts && k <= j && Known(dir, j)
    decreases seqNext - k
  {
    if !Known(dir, k) {
      var j :| j in starts && Displaces(starts, j, k, end);
      SomeLaterKnown(dir, starts, end, seqNext, j);
    }
  }

  /** The boot scan numbers the next session above all recorded ones. */
  lemma BootNumbersOn(dir: seq<Entry>, starts: map<nat, nat>, end: u32, seqNext: u32, total: int)
    requires DirectoryOk(dir, seqNext, total) && 1 <= seqNext
    requires NothingLost(dir, starts, end) && Numbered(starts, seqNext)
    ensures Numbered(starts, NextSeq(dir, MAX_SESSIONS))
  {
    BootCounters(dir, seqNext, total);
    forall k | k in starts
      ensures k < NextSeq(dir, MAX_SESSIONS)
    {
      SomeLaterKnown(dir, starts, end, seqNext, k);
    }
  }

  // ---- session ranges ----------------------------------------------------------------

  lemma RangesGrow(hist: seq<Byte>, bytes: seq<Byte>, sessions: map<nat, seq<Byte>>, starts: map<nat, nat>)
    requires AllRanges(hist, sessions, starts)
    ensures AllRanges(hist + bytes, sessions, starts)
  {
    forall k | k in sessions
      ensures IsRange(hist + bytes, starts[k], sessions[k])
    {
      assert IsRange(hist, starts[k], sessions[k]);
    }
  }

  lemma RangeGrows(hist: seq<Byte>, bytes: seq<Byte>, start: nat, mine: seq<Byte>)
    requires IsRange(hist, start, mine) && REC_SIZE * start + |mine| == |hist|
    ensures IsRange(hist + bytes, start, mine + bytes)
  {
    var from := REC_SIZE * start;
    assert (hist + bytes)[from..from + |mine + bytes|] == hist[from..] + bytes;
    assert hist[from..] == mine;
  }

  /** The batch extends the session whose range ends where the history ends. */
  lemma RangeExtends(hist: seq<Byte>, bytes: seq<Byte>, sessions: map<nat, seq<Byte>>, starts: map<nat, nat>, k: nat)
    requires AllRanges(hist, sessions, starts) && k in sessions && REC_SIZE * starts[k] + |sessions[k]| == |hist|
    ensures AllRanges(hist + bytes, sessions[k := sessions[k] + bytes], starts)
  {
    RangesGrow(hist, bytes, sessions, starts);
    RangeGrows(hist, bytes, starts[k], sessions[k]);
  }

  lemma RangeCut(hist: seq<Byte>, start: nat, bytes: seq<Byte>, total: nat)
    requires IsRange(hist, start, bytes) && start <= total && REC_SIZE * total <= |hist|
    ensures var cut := Prefix(bytes, REC_SIZE * (total - start));
      IsRange(Prefix(hist, REC_SIZE * total), start, cut) && REC_SIZE * start + |cut| <= REC_SIZE * total
  {
    var cut, from := Prefix(bytes, REC_SIZE * (total - start)), REC_SIZE * start;
    var whole := Prefix(hist, REC_SIZE * total);
    assert |whole| == REC_SIZE * total && from + |cut| <= REC_SIZE * total;
    assert cut == hist[from..from + |cut|];
    assert whole[from..from + |cut|] == hist[from..from + |cut|];
  }

  lemma RangesCut(hist: seq<Byte>, sessions: map<nat, seq<Byte>>, starts: map<nat, nat>, total: nat)
    requires AllRanges(hist, sessions, starts) && REC_SIZE * total <= |hist|
    requires forall k :: k in starts ==> starts[k] <= total
    ensures AllRanges(Prefix(hist, REC_SIZE * total), CutSessions(sessions, starts, total), starts)
    ensures AllPersistedBut(CutSessions(sessions, starts, total), starts, None, total)
  {
    var cut := CutSessions(sessions, starts, total);
    forall k | k in cut
      ensures IsRange(Prefix(hist, REC_SIZE * total), starts[k], cut[k])
      ensures REC_SIZE * starts[k] + |cut[k]| <= REC_SIZE * total
    {
      RangeCut(hist, starts[k], sessions[k], total);
    }
  }

  // ---- every transition ----------------------------------------------------------------

  /** Entries know the numbers and starts of their sessions. */
  ghost predicate EntriesRecorded(dir: seq<Entry>, starts: map<nat, nat>)
    requires |dir| == MAX_SESSIONS
  {
    forall i :: 0 <= i < MAX_SESSIONS && dir[i].Session? ==>
      && (dir[i].seqNo - 1) % MAX_SESSIONS == i
      && dir[i].seqNo in starts && starts[dir[i].seqNo] == dir[i].start
  }

  lemma InvRecordsEntries(w: World)
    requires Inv(w)
    ensures EntriesRecorded(w.log.nv.dir, w.starts)
  {
    forall i | 0 <= i < MAX_SESSIONS && w.log.nv.dir[i].Session?
      ensures (w.log.nv.dir[i].seqNo - 1) % MAX_SESSIONS == i
      ensures w.log.nv.dir[i].seqNo in w.starts && w.starts[w.log.nv.dir[i].seqNo] == w.log.nv.dir[i].start
    {
      assert SessionOk(w, i);
      assert EntryOk(w.log.nv.dir[i], i, w.log.ram.seqNext, w.log.ram.total);
    }
  }

  /** The check of a refresh frees only what the running session has overwritten. */
  lemma SweepLosesNothing(dir: seq<Entry>, starts: map<nat, nat>, end: u32, cur: nat, e: Entry, slots: nat, total: u32, seqNext: u32)
    requires |dir| == MAX_SESSIONS && cur < MAX_SESSIONS && NothingLost(dir, starts, end) && end <= total
    requires EntriesRecorded(dir, starts) && Numbered(starts, seqNext)
    requires dir[cur].Session? && e.Session? && e.seqNo == dir[cur].seqNo == seqNext - 1
    ensures NothingLost(Invalidated(dir[cur := e], slots, RingFloor(total), true, cur), starts, total)
  {
    var dir' := Invalidated(dir[cur := e], slots, RingFloor(total), true, cur);
    forall k | k in starts && Known(dir, k)
      ensures Known(dir', k) || Displaced(starts, k, total)
    {
      var i := (k - 1) % MAX_SESSIONS;
      if i != cur && dir'[i].Free? {
        assert Displaces(starts, seqNext - 1, k, total);
      }
    }
    DirectoryMovesOn(dir, dir', starts, starts, end, total);
  }

  /** A start takes the slot of the session sixteen numbers before. */
  lemma StartLosesNothing(dir: seq<Entry>, starts: map<nat, nat>, end: u32, end': u32, seqNo: u32, e: Entry, start: nat)
    requires |dir| == MAX_SESSIONS && NothingLost(dir, starts, end) && end <= end'
    requires EntriesRecorded(dir, starts) && Numbered(starts, seqNo) && 1 <= seqNo
    requires e.Session? && e.seqNo == seqNo
    ensures NothingLost(dir[(seqNo - 1) % MAX_SESSIONS := e], starts[seqNo := start], end')
  {
    var dir', starts' := dir[(seqNo - 1) % MAX_SESSIONS := e], starts[seqNo := start];
    forall k | k in starts && Known(dir, k)
      ensures Known(dir', k) || Displaced(starts', k, end')
    {
      if (k - 1) % MAX_SESSIONS == (seqNo - 1) % MAX_SESSIONS {
        SameSlotDistance(k, seqNo);
        assert Displaces(starts', seqNo, k, end');
      }
    }
    DirectoryMovesOn(dir, dir', starts, starts', end, end');
  }

  lemma SameSlotDistance(k: nat, j: nat)
    requires 1 <= k && 1 <= j && (k - 1) % MAX_SESSIONS == (j - 1) % MAX_SESSIONS
    ensures (j - k) % MAX_SESSIONS == 0
  {
  }

  lemma StartArchives(dir: seq<Entry>, seqNo: u32, hist: seq<Byte>, sessions: map<nat, seq<Byte>>, starts: map<nat, nat>,
                      end: u32, total: u32, e: Entry)
    requires |dir| == MAX_SESSIONS && Archived(dir, seqNo, hist, sessions, starts, None, end)
    requires EntriesRecorded(dir, starts) && 1 <= seqNo && seqNo + 1 < TWO32
    requires end <= total && REC_SIZE * total == |hist| && e.Session? && e.seqNo == seqNo
    ensures Archived(dir[(seqNo - 1) % MAX_SESSIONS := e], seqNo + 1, hist, sessions[seqNo as nat := []],
                     starts[seqNo as nat := total], Some(seqNo), total)
  {
    StartLosesNothing(dir, starts, end, total, seqNo, e, total);
    NewSessionRange(hist, sessions, starts, seqNo, total);
    NewSessionPersists(sessions, starts, end, seqNo, total);
  }

  lemma StartedFields(w: World, header: Header)
    requires Inv(w) && Enabled(w, StartSession(header, true)) && !w.log.ram.active
    ensures var d, r := Next(w, StartSession(header, true)), w.log.ram;
      && d.log.nv.dir == w.log.nv.dir[(r.seqNext - 1) % MAX_SESSIONS := Session(r.seqNext, r.total, 0, header, true)]
      && d.log.ram.seqNext == r.seqNext + 1 && d.hist == w.hist && RunningSession(d.log) == Some(r.seqNext)
      && d.sessions == w.sessions[r.seqNext as nat := []] && d.starts == w.starts[r.seqNext as nat := r.total]
  {
  }

  lemma ArchiveStartRuns(w: World, header: Header)
    requires Inv(w) && Archive(w) && Enabled(w, StartSession(header, true)) && !w.log.ram.active
    ensures Archive(Next(w, StartSession(header, true)))
  {
    var r := w.log.ram;
    InvRecordsEntries(w);
    StartedEnd(w, header);
    StartedFields(w, header);
    StartArchives(w.log.nv.dir, r.seqNext, w.hist, w.sessions, w.starts, PersistedEnd(w.log), r.total,
                  Session(r.seqNext, r.total, 0, header, true));
  }

  lemma ArchiveStartRefused(w: World, header: Header, writeOk: bool)
    requires Inv(w) && Archive(w) && Enabled(w, StartSession(header, writeOk)) && (w.log.ram.active || !writeOk)
    ensures Archive(Next(w, StartSession(header, writeOk)))
  {
    var d := Next(w, StartSession(header, writeOk));
    assert d.log.nv == w.log.nv && w.log.ram.seqNext <= d.log.ram.seqNext && RunningSession(d.log) == RunningSession(w.log);
  }

  lemma NewSessionPersists(sessions: map<nat, seq<Byte>>, starts: map<nat, nat>, end: nat, k: nat, total: nat)
    requires AllPersistedBut(sessions, starts, None, end) && end <= total
    ensures AllPersistedBut(sessions[k := []], starts[k := total], Some(k), total)
  {
  }

  lemma ArchiveStart(w: World, header: Header, writeOk: bool)
    requires Inv(w) && Archive(w) && Enabled(w, StartSession(header, writeOk))
    ensures Archive(Next(w, StartSession(header, writeOk)))
  {
    if !w.log.ram.active && writeOk {
      ArchiveStartRuns(w, header);
    } else {
      ArchiveStartRefused(w, header, writeOk);
    }
  }

  lemma StartedEnd(w: World, header: Header)
    requires Inv(w) && !w.log.ram.active && w.log.ram.seqNext + 1 < TWO32
    ensures PersistedEnd(w.log) <= PersistedEnd(Start(w.log, header, true).0) == w.log.ram.total
  {
    StartRecorded(w, header);
    ActiveEnd(Start(w.log, header, true).0);
  }

  lemma NewSessionRange(hist: seq<Byte>, sessions: map<nat, seq<Byte>>, starts: map<nat, nat>, k: nat, start: nat)
    requires AllRanges(hist, sessions, starts) && REC_SIZE * start == |hist|
    ensures AllRanges(hist, sessions[k := []], starts[k := start])
  {
    forall x | x in sessions && x != k
      ensures IsRange(hist, starts[x], sessions[x])
    {
    }
  }

  lemma ArchiveStop(w: World)
    requires Inv(w) && Archive(w)
    ensures Archive(Next(w, StopSession))
  {
    if w.log.ram.active {
      StopPersistsAll(w);
      ActiveEnd(w.log);
      RunningRange(w);
      StopKeepsNumbers(w.log);
      SameNumbersArchived(w.log.nv.dir, Stop(w.log).nv.dir, w.log.ram.seqNext, w.hist, w.sessions, w.starts,
                          w.log.ram.curSeq, PersistedEnd(w.log), w.log.ram.total);
    }
  }

  lemma StopKeepsNumbers(s: Log)
    requires Shaped(s) && s.ram.active && ActiveOk(s)
    ensures var d := Stop(s);
      && d.ram.seqNext == s.ram.seqNext && !d.ram.active
      && forall i :: 0 <= i < MAX_SESSIONS && s.nv.dir[i].Session? ==>
           d.nv.dir[i].Session? && d.nv.dir[i].seqNo == s.nv.dir[i].seqNo
  {
  }

  /** Closing the running session leaves the directory's numbers alone. */
  lemma SameNumbersArchived(dir: seq<Entry>, dir': seq<Entry>, seqNext: u32, hist: seq<Byte>, sessions: map<nat, seq<Byte>>,
                            starts: map<nat, nat>, cur: nat, end: u32, end': u32)
    requires |dir| == |dir'| == MAX_SESSIONS && end <= end'
    requires Archived(dir, seqNext, hist, sessions, starts, Some(cur), end)
    requires forall i :: 0 <= i < MAX_SESSIONS && dir[i].Session? ==> dir'[i].Session? && dir'[i].seqNo == dir[i].seqNo
    requires cur in sessions && cur in starts && REC_SIZE * starts[cur] + |sessions[cur]| <= REC_SIZE * end'
    ensures Archived(dir', seqNext, hist, sessions, starts, None, end')
  {
    forall k | k in starts && Known(dir, k)
      ensures Known(dir', k)
    {
      SameNumbersKnown(dir, dir', k);
    }
    DirectoryMovesOn(dir, dir', starts, starts, end, end');
  }

  /** While a session runs, everything recorded later than others is its own. */
  lemma RunningRange(w: World)
    requires Inv(w) && w.log.ram.active
    ensures var k := w.log.ram.curSeq;
      && k in w.sessions && k in w.starts && w.starts[k] == w.log.ram.curStart
      && REC_SIZE * w.starts[k] + |w.sessions[k]| == |w.hist|
  {
    assert SessionOk(w, w.log.ram.curSlot);
  }

  /** The running session can be found in the directory. */
  lemma RunningIsKnown(w: World)
    requires Inv(w) && w.log.ram.active
    ensures Known(w.log.nv.dir, w.log.ram.curSeq)
  {
    var r := w.log.ram;
    assert EntryOk(w.log.nv.dir[r.curSlot], r.curSlot, r.seqNext, r.total);
  }

  /** The history and the sessions once a batch is in, whatever becomes of the directory. */
  lemma BatchRanges(w: World)
    requires Inv(w) && Archive(w) && w.armed && HasRoom(w)
    ensures AllRanges(w.hist + NewBytes(w), GrownSessions(w), w.starts)
    ensures forall end: nat :: end >= PersistedEnd(w.log) ==>
      AllPersistedBut(GrownSessions(w), w.starts, RunningSession(w.log), end)
  {
    if w.log.ram.active {
      RunningRange(w);
      RangeExtends(w.hist, NewBytes(w), w.sessions, w.starts, w.log.ram.curSeq);
    } else {
      RangesGrow(w.hist, NewBytes(w), w.sessions, w.starts);
    }
  }

  /** The directory of a refresh, its check complete or cut short. */
  lemma RefreshLosesNothing(w: World, slots: nat)
    requires Inv(w) && Archive(w) && w.armed && HasRoom(w) && w.log.ram.active
    ensures var s := InvalidatePrefix(RefreshCurrent(WroteBatch(w.log), false), slots);
      && NothingLost(s.nv.dir, w.starts, PersistedEnd(s))
      && PersistedEnd(w.log) <= PersistedEnd(s) == s.ram.total == w.log.ram.total + DrainCount(w.log.ram)
  {
    var m := WroteBatch(w.log);
    WrittenCounters(w);
    InvRecordsEntries(w);
    EndsWithinTotal(w.log);
    RefreshedState(w, slots);
    SweepLosesNothing(w.log.nv.dir, w.starts, PersistedEnd(w.log), w.log.ram.curSlot,
                      RefreshCurrent(m, false).nv.dir[w.log.ram.curSlot], slots, m.ram.total, w.log.ram.seqNext);
  }

  lemma ArchiveDrain(w: World)
    requires Inv(w) && Archive(w) && w.armed && HasRoom(w)
    ensures Archive(Drained(w))
  {
    BatchRanges(w);
    if !w.log.ram.active {
      LateDrainOnlyWrites(w);
    } else if DrainCount(w.log.ram) > 0 && RefreshDue(WroteBatch(w.log).ram) {
      RefreshLosesNothing(w, MAX_SESSIONS);
    }
  }

  // ---- resets ---------------------------------------------------------------------------

  lemma BootArchive(nv: Flash, fw: u32, hist: seq<Byte>, high: nat, sessions: map<nat, seq<Byte>>, starts: map<nat, nat>,
                    headers: map<nat, Header>, seqNext: u32, total: nat, running: Option<nat>)
    requires FlashShaped(nv) && nv.stamp == Some(fw) && DirectoryOk(nv.dir, seqNext, total) && 1 <= seqNext
    requires NothingLost(nv.dir, starts, MaxEnd(nv.dir, MAX_SESSIONS)) && Numbered(starts, seqNext)
    requires AllRanges(hist, sessions, starts) && AllPersistedBut(sessions, starts, running, MaxEnd(nv.dir, MAX_SESSIONS))
    requires REC_SIZE * total <= |hist|
    ensures Archive(Booted(nv, fw, hist, high, sessions, starts, headers))
  {
    var end := MaxEnd(nv.dir, MAX_SESSIONS);
    var closed := ClosedDir(nv.dir, MAX_SESSIONS);
    BootCounters(nv.dir, seqNext, total);
    BootNumbersOn(nv.dir, starts, end, seqNext, total);
    forall k | k in starts && Known(nv.dir, k)
      ensures Known(closed, k)
    {
      SameNumbersKnown(nv.dir, closed, k);
    }
    DirectoryMovesOn(nv.dir, closed, starts, starts, end, end);
    RangesCut(hist, sessions, starts, end);
  }

  lemma RefreshCutArchive(w: World, slots: nat)
    requires Inv(w) && Archive(w) && CutPossible(w, DuringRefresh(slots))
    ensures Archive(AfterReset(w, DuringRefresh(slots), w.fw))
  {
    var nv, r := Image(w, DuringRefresh(slots)), w.log.ram;
    WrittenCounters(w);
    BatchRanges(w);
    if r.active {
      RefreshLosesNothing(w, slots);
      RefreshedState(w, slots);
    } else {
      RefreshImageInactive(w, slots);
      LargerTotalKeepsDirectory(nv.dir, r.seqNext, r.total, r.total + DrainCount(r));
    }
    BootArchive(nv, w.fw, w.hist + NewBytes(w), HighAt(w, DuringRefresh(slots)), GrownSessions(w), w.starts, w.headers, r.seqNext,
                r.total + DrainCount(r), RunningSession(w.log));
  }

  lemma WipedArchive(w: World, cut: Cut, fw: u32)
    requires Shaped(w.log) && CutPossible(w, cut) && Image(w, cut).stamp != Some(fw)
    ensures Archive(AfterReset(w, cut, fw))
  {
  }

  lemma ArchiveReset(w: World, cut: Cut, fw: u32)
    requires Inv(w) && Archive(w) && CutPossible(w, cut)
    ensures Archive(AfterReset(w, cut, fw))
  {
    var nv, r := Image(w, cut), w.log.ram;
    if nv.stamp != Some(fw) {
      WipedArchive(w, cut, fw);
    } else if cut.DuringRefresh? {
      RefreshCutArchive(w, cut.slots);
    } else {
      BootArchive(nv, fw, w.hist, HighAt(w, cut), w.sessions, w.starts, w.headers, r.seqNext, r.total, RunningSession(w.log));
    }
  }

  // ---- all runs ----------------------------------------------------------------------------

  lemma ArchiveKeeps(w: World, e: Event)
    requires Inv(w) && Archive(w) && Enabled(w, e) && Inv(Next(w, e))
    ensures Archive(Next(w, e))
  {
    match e
    case StartSession(header, writeOk) => ArchiveStart(w, header, writeOk);
    case AppendRecs(recs) =>
      if w.log.ram.active { AppendTouchesStagingOnly(w.log.ram, recs); }
    case WriterTest =>
    case WriterDrain => ArchiveDrain(w);
    case StopSession => ArchiveStop(w);
    case EraseAll =>
    case Reset(cut, fw) => ArchiveReset(w, cut, fw);
  }

  lemma {:induction false} RunsArchive(from: World, events: seq<Event>, to: World)
    requires Inv(from) && Archive(from) && IsRun(from, events, to)
    ensures Inv(to) && Archive(to)
    decreases |events|
  {
    if events != [] {
      NextKeeps(from, events[0]);
      ArchiveKeeps(from, events[0]);
      RunsArchive(Next(from, events[0]), events[1..], to);
    }
  }

  lemma {:induction false} ReachableArchive(data: seq<Byte>, fw: u32, events: seq<Event>, w: World)
    requires |data| == DATA_CAPACITY && IsRun(Factory(data, fw), events, w)
    ensures Inv(w) && Archive(w)
  {
    ReachableInv(data, fw, [], Factory(data, fw));
    RunsArchive(Factory(data, fw), events, w);
  }

  /** Over every run, resets included: a recorded session is in the directory, in the slot of
      its number, unless a later session took that slot or ran when the records persisted
      had overwritten its first one.  The newest session is always there. */
  lemma {:induction false} NoSessionDisappears(data: seq<Byte>, fw: u32, events: seq<Event>, w: World, k: nat)
    requires |data| == DATA_CAPACITY && IsRun(Factory(data, fw), events, w) && Shaped(w.log) && k in w.sessions
    ensures k in w.starts
    ensures !Known(w.log.nv.dir, k) ==> Displaced(w.starts, k, PersistedEnd(w.log))
    ensures (forall j :: j in w.sessions ==> j <= k) ==> Known(w.log.nv.dir, k)
    ensures PersistedEnd(w.log) <= w.log.ram.total && IsRange(w.hist, w.starts[k], w.sessions[k])
  {
    ReachableArchive(data, fw, events, w);
    EndsWithinTotal(w.log);
  }

  // ---- exactly which sessions go ------------------------------------------------------

  /** The pending drain persists the running session's count and checks the directory. */
  ghost predicate Refreshing(w: World)
    requires Shaped(w.log)
  {
    var r, n := w.log.ram, DrainCount(w.log.ram);
    r.active && n > 0 && r.curCount + n - r.lastRefresh >= 512
  }

  lemma RefreshDueIff(w: World)
    requires Inv(w) && w.armed && HasRoom(w) && w.log.ram.active
    ensures RefreshDue(WroteBatch(w.log).ram) <==> w.log.ram.curCount + DrainCount(w.log.ram) - w.log.ram.lastRefresh >= 512
  {
    WrittenCounters(w);
    CountGrows(w.log.ram.curCount + DrainCount(w.log.ram), w.log.ram.lastRefresh);
  }

  lemma CountGrows(count: u32, since: u32)
    requires since <= count
    ensures Sub(count, since) == count - since
  {
  }

  /** Session k, which began at record `start`, keeps its entry when the counter has reached
      `total`: it is the running one, or its first record is still in the ring. */
  predicate Spared(w: World, k: nat, start: nat, total: nat) {
    k == w.log.ram.curSeq || start >= total - REC_CAPACITY
  }

  ghost predicate KeepsEntry(w: World, e: Event, k: nat)
    requires Shaped(w.log) && Enabled(w, e) && k in w.starts
  {
    var total := w.log.ram.total + DrainCount(w.log.ram);
    match e
    case StartSession(_, writeOk) => w.log.ram.active || !writeOk || (w.log.ram.seqNext - k) % MAX_SESSIONS != 0
    case WriterDrain => Refreshing(w) ==> Spared(w, k, w.starts[k], total)
    case EraseAll => false
    case Reset(cut, fw) =>
      fw == w.fw && !cut.DuringErase? && (cut.DuringRefresh? && (k - 1) % MAX_SESSIONS < cut.slots ==> Spared(w, k, w.starts[k], total))
    case _ => true
  }

  lemma SlotOfNumber(seqNext: u32, k: nat)
    requires 1 <= k < seqNext
    ensures SlotOf(seqNext) == (k - 1) % MAX_SESSIONS <==> (seqNext - k) % MAX_SESSIONS == 0
  {
  }

  lemma RefreshKeepsEntryIff(w: World, slots: nat, k: nat)
    requires Inv(w) && w.armed && HasRoom(w) && w.log.ram.active
    requires k in w.starts && Known(w.log.nv.dir, k)
    ensures Known(InvalidatePrefix(RefreshCurrent(WroteBatch(w.log), false), slots).nv.dir, k)
      <==> ((k - 1) % MAX_SESSIONS < slots ==> Spared(w, k, w.starts[k], w.log.ram.total + DrainCount(w.log.ram)))
  {
    WrittenCounters(w);
    InvRecordsEntries(w);
  }

  lemma StartKeepsEntryIff(w: World, header: Header, writeOk: bool, k: nat)
    requires Inv(w) && Enabled(w, StartSession(header, writeOk)) && k in w.starts && Known(w.log.nv.dir, k)
    ensures Known(Next(w, StartSession(header, writeOk)).log.nv.dir, k) <==> KeepsEntry(w, StartSession(header, writeOk), k)
  {
    var i := (k - 1) % MAX_SESSIONS;
    assert EntryOk(w.log.nv.dir[i], i, w.log.ram.seqNext, w.log.ram.total);
    SlotOfNumber(w.log.ram.seqNext, k);
    if !w.log.ram.active && writeOk { StartedFields(w, header); }
  }

  lemma DrainKeepsEntryIff(w: World, k: nat)
    requires Inv(w) && Enabled(w, WriterDrain) && k in w.starts && Known(w.log.nv.dir, k)
    ensures Known(Next(w, WriterDrain).log.nv.dir, k) <==> KeepsEntry(w, WriterDrain, k)
  {
    if !w.log.ram.active {
      LateDrainOnlyWrites(w);
    } else {
      RefreshDueIff(w);
      RefreshKeepsEntryIff(w, MAX_SESSIONS, k);
    }
  }

  lemma BootKnows(nv: Flash, fw: u32, k: nat)
    requires FlashShaped(nv)
    ensures Known(Boot(nv, fw).nv.dir, k) <==> nv.stamp == Some(fw) && Known(nv.dir, k)
  {
  }

  lemma ResetKeepsEntryIff(w: World, cut: Cut, fw: u32, k: nat)
    requires Inv(w) && CutPossible(w, cut) && k in w.starts && Known(w.log.nv.dir, k)
    ensures Known(Next(w, Reset(cut, fw)).log.nv.dir, k) <==> KeepsEntry(w, Reset(cut, fw), k)
  {
    BootKnows(Image(w, cut), fw, k);
    if cut.DuringRefresh? {
      if w.log.ram.active {
        RefreshKeepsEntryIff(w, cut.slots, k);
      } else {
        RefreshImageInactive(w, cut.slots);
      }
    }
  }

  /** Every transition takes from the directory exactly the sessions it has to: a start the
      one sixteen numbers before, a refresh those whose first record is overwritten, an erase
      or another firmware all of them, everything else none. */
  lemma EntriesGoExactly(w: World, e: Event, k: nat)
    requires Inv(w) && Enabled(w, e) && k in w.starts && Known(w.log.nv.dir, k)
    ensures Known(Next(w, e).log.nv.dir, k) <==> KeepsEntry(w, e, k)
  {
    match e
    case StartSession(header, writeOk) => StartKeepsEntryIff(w, header, writeOk, k);
    case WriterDrain => DrainKeepsEntryIff(w, k);
    case Reset(cut, fw) => ResetKeepsEntryIff(w, cut, fw, k);
    case _ =>
  }

  // ---- what a dump says about itself ---------------------------------------------------

  /** Every entry carries the header its session was started with. */
  ghost predicate Labelled(dir: seq<Entry>, headers: map<nat, Header>) {
    forall i :: 0 <= i < |dir| && dir[i].Session? ==> dir[i].seqNo in headers && headers[dir[i].seqNo] == dir[i].header
  }

  /** Entries may go, or change their count, but keep number and header. */
  lemma StaysLabelled(dir: seq<Entry>, after: seq<Entry>, headers: map<nat, Header>)
    requires Labelled(dir, headers) && |after| == |dir|
    requires forall i :: 0 <= i < |dir| && after[i].Session? ==>
      dir[i].Session? && after[i].seqNo == dir[i].seqNo && after[i].header == dir[i].header
    ensures Labelled(after, headers)
  {
  }

  lemma DrainLabelled(s: Log, slots: nat, headers: map<nat, Header>)
    requires Shaped(s) && Labelled(s.nv.dir, headers)
    ensures Labelled(LogSpec.Drain(s).nv.dir, headers)
    ensures Labelled(InvalidatePrefix(RefreshCurrent(WroteBatch(s), false), slots).nv.dir, headers)
  {
    StaysLabelled(s.nv.dir, LogSpec.Drain(s).nv.dir, headers);
    StaysLabelled(s.nv.dir, InvalidatePrefix(RefreshCurrent(WroteBatch(s), false), slots).nv.dir, headers);
  }

  lemma StartLabelled(w: World, header: Header, writeOk: bool)
    requires Inv(w) && Labelled(w.log.nv.dir, w.headers) && Enabled(w, StartSession(header, writeOk))
    ensures Labelled(Next(w, StartSession(header, writeOk)).log.nv.dir, Next(w, StartSession(header, writeOk)).headers)
  {
    forall i | 0 <= i < MAX_SESSIONS && w.log.nv.dir[i].Session?
      ensures w.log.nv.dir[i].seqNo < w.log.ram.seqNext
    {
      assert EntryOk(w.log.nv.dir[i], i, w.log.ram.seqNext, w.log.ram.total);
    }
  }

  lemma ImageLabelled(w: World, cut: Cut)
    requires Shaped(w.log) && CutPossible(w, cut) && Labelled(w.log.nv.dir, w.headers)
    ensures Labelled(Image(w, cut).dir, w.headers)
  {
    if cut.DuringRefresh? {
      DrainLabelled(w.log, cut.slots, w.headers);
    }
  }

  lemma ResetLabelled(w: World, cut: Cut, fw: u32)
    requires Shaped(w.log) && CutPossible(w, cut) && Labelled(w.log.nv.dir, w.headers)
    ensures Labelled(AfterReset(w, cut, fw).log.nv.dir, AfterReset(w, cut, fw).headers)
  {
    ImageLabelled(w, cut);
    if Image(w, cut).stamp == Some(fw) {
      StaysLabelled(Image(w, cut).dir, ClosedDir(Image(w, cut).dir, MAX_SESSIONS), w.headers);
    }
  }

  lemma NextLabelled(w: World, e: Event)
    requires Inv(w) && Labelled(w.log.nv.dir, w.headers) && Enabled(w, e)
    ensures Labelled(Next(w, e).log.nv.dir, Next(w, e).headers)
  {
    match e
    case StartSession(header, writeOk) => StartLabelled(w, header, writeOk);
    case WriterDrain => DrainLabelled(w.log, 0, w.headers);
    case StopSession => StaysLabelled(w.log.nv.dir, Next(w, e).log.nv.dir, w.headers);
    case Reset(cut, fw) => ResetLabelled(w, cut, fw);
    case _ =>
  }

  lemma {:induction false} RunsLabelled(from: World, events: seq<Event>, to: World)
    requires Inv(from) && Labelled(from.log.nv.dir, from.headers) && IsRun(from, events, to)
    ensures Labelled(to.log.nv.dir, to.headers)
    decreases |events|
  {
    if events != [] {
      NextKeeps(from, events[0]);
      NextLabelled(from, events[0]);
      RunsLabelled(Next(from, events[0]), events[1..], to);
    }
  }

  /** Over every run, resets included, a session the directory knows is listed with the
      header it was started with. */
  lemma {:induction false} DumpsAreSelfDescribing(data: seq<Byte>, fw: u32, events: seq<Event>, w: World, i: nat)
    requires |data| == DATA_CAPACITY && IsRun(Factory(data, fw), events, w) && Shaped(w.log)
    requires i < MAX_SESSIONS && Listed(w.log, i)
    ensures var x := SummaryOf(w.log, i); x.seqNo in w.headers && x.header == w.headers[x.seqNo] && x.seqNo in w.sessions
  {
    ReachableInv(data, fw, [], Factory(data, fw));
    RunsLabelled(Factory(data, fw), events, w);
    ReachableInv(data, fw, events, w);
    assert SessionOk(w, i);
  }

  // ---- which sessions are marked open --------------------------------------------------

  /** Only the running session is marked as cut off should power fail now. */
  ghost predicate OnlyRunningOpen(s: Log)
    requires Shaped(s)
  {
    forall i :: 0 <= i < MAX_SESSIONS && s.nv.dir[i].Session? ==>
      (s.nv.dir[i].open <==> s.ram.active && i == s.ram.curSlot)
  }

  /** A drain changes the entry of the running session only in its count. */
  lemma DrainKeepsOpen(w: World)
    requires Inv(w) && Enabled(w, WriterDrain) && OnlyRunningOpen(w.log)
    ensures OnlyRunningOpen(Drained(w).log)
  {
    if !w.log.ram.active {
      LateDrainOnlyWrites(w);
    }
  }

  lemma NextKeepsOpen(w: World, e: Event)
    requires Inv(w) && OnlyRunningOpen(w.log) && Enabled(w, e) && Shaped(Next(w, e).log)
    ensures OnlyRunningOpen(Next(w, e).log)
  {
    match e
    case AppendRecs(recs) =>
      if w.log.ram.active { AppendTouchesStagingOnly(w.log.ram, recs); }
    case WriterDrain => DrainKeepsOpen(w);
    case Reset(cut, fw) => ResetClosesAll(w, cut, fw);
    case _ =>
  }

  lemma ResetClosesAll(w: World, cut: Cut, fw: u32)
    requires Shaped(w.log) && CutPossible(w, cut)
    ensures OnlyRunningOpen(AfterReset(w, cut, fw).log)
  {
  }

  lemma {:induction false} RunsKeepOpen(from: World, events: seq<Event>, to: World)
    requires Inv(from) && OnlyRunningOpen(from.log) && IsRun(from, events, to)
    ensures Inv(to) && OnlyRunningOpen(to.log)
    decreases |events|
  {
    if events != [] {
      NextKeeps(from, events[0]);
      NextKeepsOpen(from, events[0]);
      RunsKeepOpen(Next(from, events[0]), events[1..], to);
    }
  }

  /** Over every run an entry is marked open exactly while its session is running. */
  lemma {:induction false} OpenMeansRunning(data: seq<Byte>, fw: u32, events: seq<Event>, w: World)
    requires |data| == DATA_CAPACITY && IsRun(Factory(data, fw), events, w) && Shaped(w.log)
    ensures OnlyRunningOpen(w.log)
  {
    ReachableInv(data, fw, [], Factory(data, fw));
    RunsKeepOpen(Factory(data, fw), events, w);
  }

  /** What a start does.  Refused while a session runs, it changes nothing at all.  Otherwise
      it uses up a session number and discards what was staged, even if the directory write
      then fails; only when that succeeds is a session running, empty, from the counter on. */
  lemma StartLaw(w: World, header: Header, writeOk: bool)
    requires Inv(w) && Enabled(w, StartSession(header, writeOk))
    ensures w.log.ram.active ==> Next(w, StartSession(header, writeOk)) == w && Start(w.log, header, writeOk).1 == Busy
    ensures !w.log.ram.active ==>
      var d, r := Next(w, StartSession(header, writeOk)), w.log.ram;
      && d.log.ram.seqNext == r.seqNext + 1 && d.log.ram.head == d.log.ram.tail == r.head
      && d.log.ram.total == r.total && d.log.nv.data == w.log.nv.data && d.hist == w.hist
      && d.log.ram.active == writeOk && (!writeOk ==> d.log.nv == w.log.nv && d.sessions == w.sessions)
      && (writeOk ==> d.log.ram.curSeq == r.seqNext && d.log.ram.curCount == 0 && d.log.ram.dropped == 0)
      && (writeOk ==> r.seqNext in d.sessions && d.sessions[r.seqNext] == [])
      && Start(w.log, header, writeOk).1 == if writeOk then LogSpec.Running else EntryWriteFailed
  {
  }
}
