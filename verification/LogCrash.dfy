/** Resets of the log: what a boot rebuilds, what a crash costs and what it exposes. */
module LogCrash {
  import opened Words
  import opened Rings
  import opened LogSpec
  import opened LogRuns
  import opened LogInvariant
  import opened LogArchive
  import opened LogReads
  import opened LogTape

  /** After any reset the rebuilt counter trails the physically written records by at most
      511 + 256, and the history up to it is the one from before the reset. */
  lemma CrashLag(w: World, cut: Cut)
    requires Inv(w) && CutPossible(w, cut) && !cut.DuringErase?
    ensures var d := AfterReset(w, cut, w.fw);
      && d.high == HighAt(w, cut)
      && d.log.ram.total <= d.high <= d.log.ram.total + 511 + 256
      && |d.hist| == REC_SIZE * d.log.ram.total
      && d.hist <= w.hist + NewBytes(w)
  {
    ResetKeeps(w, cut, w.fw);
    EndsWithinTotal(AfterReset(w, cut, w.fw).log);
    RebuiltEnd(Image(w, cut), w.fw);
  }

  lemma RebuiltEnd(nv: Flash, fw: u32)
    requires FlashShaped(nv) && nv.stamp == Some(fw)
    ensures Boot(nv, fw).ram.total == PersistedEnd(Boot(nv, fw))
  {
    MaxEndSame(nv.dir, ClosedDir(nv.dir, MAX_SESSIONS), MAX_SESSIONS);
  }

  /** What the sessions hold when the cut happens; a refresh comes after its batch. */
  ghost function SessionsAt(w: World, cut: Cut): map<nat, seq<Byte>>
    requires Shaped(w.log)
  {
    if cut.DuringRefresh? then GrownSessions(w) else w.sessions
  }

  lemma CutAt(sessions: map<nat, seq<Byte>>, starts: map<nat, nat>, k: nat, total: nat)
    requires k in sessions && k in starts && starts[k] <= total
    ensures var cut := CutSessions(sessions, starts, total);
      && k in cut && cut[k] <= sessions[k]
      && |sessions[k]| - |cut[k]| == Max(0, REC_SIZE * starts[k] + |sessions[k]| - REC_SIZE * total)
      && (REC_SIZE * starts[k] + |sessions[k]| <= REC_SIZE * total ==> cut[k] == sessions[k])
  {
  }

  lemma CrashDuringRefresh(w: World, slots: nat, k: nat)
    requires Inv(w) && Archive(w) && CutPossible(w, DuringRefresh(slots)) && k in w.sessions
    ensures var d := AfterReset(w, DuringRefresh(slots), w.fw);
      && k in d.sessions && k in GrownSessions(w) && d.sessions[k] == GrownSessions(w)[k]
      && d.log.ram.total == (if w.log.ram.active then w.log.ram.total + DrainCount(w.log.ram) else PersistedEnd(w.log))
  {
    BatchRanges(w);
    var total := AfterReset(w, DuringRefresh(slots), w.fw).log.ram.total;
    if w.log.ram.active {
      RefreshLosesNothing(w, slots);
      RunningRange(w);
    } else {
      RefreshImageInactive(w, slots);
    }
    CutAt(GrownSessions(w), w.starts, k, total);
  }

  lemma CrashBeforeRefresh(w: World, cut: Cut, k: nat)
    requires Inv(w) && Archive(w) && CutPossible(w, cut) && (cut.Quiet? || cut.DuringBatch?) && k in w.sessions
    ensures var d := AfterReset(w, cut, w.fw);
      && k in d.sessions && d.sessions[k] <= w.sessions[k]
      && |w.sessions[k]| - |d.sessions[k]| <= REC_SIZE * 511
      && (Some(k) != RunningSession(w.log) ==> d.sessions[k] == w.sessions[k])
      && w.log.ram.total - d.log.ram.total <= (if w.log.ram.active then 511 else 256)
  {
    CutAt(w.sessions, w.starts, k, PersistedEnd(w.log));
    if w.log.ram.active {
      ActiveEnd(w.log);
      RunningRange(w);
    }
  }

  /** What a reset costs, at any point of a drain and whether or not the directory still
      knows the session: a closed session keeps every record; the running one loses at most
      511, or none once its refresh has begun, the batch before it included.  (Which entries
      a reset takes from the directory is ResetKeepsEntryIff.) */
  lemma CrashKeepsSessions(w: World, cut: Cut, k: nat)
    requires Inv(w) && Archive(w) && CutPossible(w, cut) && !cut.DuringErase? && k in w.sessions
    ensures var d, full := AfterReset(w, cut, w.fw), SessionsAt(w, cut);
      && k in d.sessions && k in full && d.sessions[k] <= full[k]
      && |full[k]| - |d.sessions[k]| <= REC_SIZE * 511
      && (Some(k) != RunningSession(w.log) || cut.DuringRefresh? ==> d.sessions[k] == full[k])
      && w.log.ram.total - d.log.ram.total <= (if w.log.ram.active then 511 else 256)
  {
    if cut.DuringRefresh? {
      CrashDuringRefresh(w, cut.slots, k);
    } else {
      CrashBeforeRefresh(w, cut, k);
    }
  }

  // ---- what a crash exposes ------------------------------------------------------------

  /** What was physically written when the cut happens: the history, and of the pending batch
      the part that the cut lets through, or junk. */
  ghost function WrittenAt(w: World, cut: Cut): seq<Byte>
    requires Shaped(w.log) && CutPossible(w, cut)
  {
    match cut
    case DuringBatch(junk) => w.hist + junk
    case DuringRefresh(_) => w.hist + NewBytes(w)
    case _ => w.hist
  }

  lemma HistoryIsTape(w: World)
    requires Inv(w) && w.high == w.log.ram.total
    ensures Taped(w, w.hist)
  {
  }

  lemma OverlayAtEnd(hist: seq<Byte>, bytes: seq<Byte>)
    ensures Overlay(hist, |hist|, bytes) == hist + bytes
  {
  }

  lemma CrashTaped(w: World, cut: Cut)
    requires Inv(w) && w.high == w.log.ram.total && CutPossible(w, cut) && !cut.DuringErase?
    ensures Inv(AfterReset(w, cut, w.fw)) && Taped(AfterReset(w, cut, w.fw), WrittenAt(w, cut))
  {
    HistoryIsTape(w);
    HighIsNear(w);
    ResetKeeps(w, cut, w.fw);
    match cut
    case Quiet => BootTaped(w, cut, w.fw, w.hist);
    case DuringBatch(junk) =>
      TornTaped(w, w.hist, junk, w.fw);
      OverlayAtEnd(w.hist, junk);
    case DuringRefresh(slots) =>
      RefreshTaped(w, w.hist, slots, w.fw);
      OverlayAtEnd(w.hist, NewBytes(w));
  }

  /** A world whose counter is at the high-water mark crashes: whatever the log had forgotten
      or torn, reads of the sessions found at boot return what was written last in their
      cells, so one ring length before the end the records that overwrote them. */
  lemma CrashReadsWhatWasWritten(w: World, cut: Cut, d: World, k: u32, offset: u32, len: u32)
    requires Inv(w) && w.high == w.log.ram.total && CutPossible(w, cut) && !cut.DuringErase?
    requires d == AfterReset(w, cut, w.fw) && Known(d.log.nv.dir, k) && Addressable(d, k, offset, len)
    ensures Taped(d, WrittenAt(w, cut)) && k in d.starts
    ensures ShowsTape(ReadSession(d.log, k, offset, len), WrittenAt(w, cut), FirstByte(d, k) + offset)
  {
    CrashTaped(w, cut);
    ReadShowsTape(d, WrittenAt(w, cut), k, offset, len);
  }

  // ---- which bytes survive every torn batch -----------------------------------------------

  /** Byte p is not one ring length before any byte of the batch [from, to), nor before other
      bytes than its own. */
  predicate SparedBy(tape: seq<Byte>, from: nat, to: nat, p: nat) {
    || p >= Max(|tape|, to) - DATA_CAPACITY
    || (!(from <= p + DATA_CAPACITY < to) && p + DATA_CAPACITY < |tape| && p < |tape| && tape[p + DATA_CAPACITY] == tape[p])
  }

  ghost predicate TornReadsRight(w: World, junk: seq<Byte>, k: u32, offset: u32, len: u32, j: nat)
    requires Shaped(w.log) && CutPossible(w, DuringBatch(junk))
  {
    ReadsRight(AfterReset(w, DuringBatch(junk), w.fw), k, offset, len, j)
  }

  /** Junk in the ring changes nothing else. */
  lemma TornFollowsQuiet(w: World, junk: seq<Byte>)
    requires Shaped(w.log) && CutPossible(w, DuringBatch(junk))
    ensures var d, q := AfterReset(w, DuringBatch(junk), w.fw), AfterReset(w, Quiet, w.fw);
      && d.sessions == q.sessions && d.starts == q.starts && d.hist == q.hist
      && d.log.nv.dir == q.log.nv.dir && d.log.ram == q.log.ram
  {
  }

  /** The ring cell of byte p shows its own byte after junk was written from `at` on. */
  predicate JunkSpares(tape: seq<Byte>, at: nat, junk: seq<Byte>, p: nat) {
    var q := p + DATA_CAPACITY;
    p < |tape| && (
      || p >= Max(|tape|, at + |junk|) - DATA_CAPACITY
      || (if at <= q < at + |junk| then junk[q - at] == tape[p] else q < |tape| && tape[q] == tape[p]))
  }

  lemma OverlaidShows(tape: seq<Byte>, at: nat, junk: seq<Byte>, p: nat)
    requires p < at <= |tape| && ShownAt(|Overlay(tape, at, junk)|, p) < |Overlay(tape, at, junk)|
    ensures var over := Overlay(tape, at, junk);
      over[ShownAt(|over|, p)] == over[p] <==> JunkSpares(tape, at, junk, p)
  {
  }

  lemma NotSpared(tape: seq<Byte>, at: nat, n: nat, p: nat) returns (junk: seq<Byte>)
    requires p < at <= |tape| && !SparedBy(tape, at, at + n, p)
    ensures |junk| == n && !JunkSpares(tape, at, junk, p)
  {
    var other: Byte := if tape[p] == 0 then 1 else 0;
    junk := seq(n, _ => other);
  }

  /** The position of a byte of session k once the log has rebooted. */
  ghost function RebootByte(w: World, k: u32, offset: u32, j: nat): nat
    requires Shaped(w.log)
  {
    var d := AfterReset(w, Quiet, w.fw);
    if k in d.starts then FirstByte(d, k) + offset + j else 0
  }

  /** Byte j of a read after the reboot lies within the session and is addressable. */
  ghost predicate RebootReads(w: World, k: u32, offset: u32, len: u32, j: nat)
    requires Shaped(w.log)
  {
    var d := AfterReset(w, Quiet, w.fw);
    k in d.starts && Addressable(d, k, offset, len) && j < Taken(|Readable(d, k)|, offset, len)
  }

  lemma TornReadsAlike(w: World, junk: seq<Byte>, k: u32, offset: u32, len: u32, j: nat)
    requires Shaped(w.log) && CutPossible(w, DuringBatch(junk)) && RebootReads(w, k, offset, len, j)
    ensures var d := AfterReset(w, DuringBatch(junk), w.fw);
      && k in d.starts && Addressable(d, k, offset, len) && j < Taken(|Readable(d, k)|, offset, len)
      && RebootByte(w, k, offset, j) == FirstByte(d, k) + offset + j
  {
    TornFollowsQuiet(w, junk);
  }

  lemma TornReadsRightIff(w: World, tape: seq<Byte>, junk: seq<Byte>, k: u32, offset: u32, len: u32, j: nat)
    requires Inv(w) && Taped(w, tape) && Known(w.log.nv.dir, k) && CutPossible(w, DuringBatch(junk))
    requires RebootReads(w, k, offset, len, j)
    ensures RebootByte(w, k, offset, j) < |w.hist| <= |tape|
    ensures TornReadsRight(w, junk, k, offset, len, j) <==> JunkSpares(tape, |w.hist|, junk, RebootByte(w, k, offset, j))
  {
    var d := AfterReset(w, DuringBatch(junk), w.fw);
    BootKnows(Image(w, DuringBatch(junk)), w.fw, k);
    ResetKeeps(w, DuringBatch(junk), w.fw);
    TornTaped(w, tape, junk, w.fw);
    TornReadsAlike(w, junk, k, offset, len, j);
    TapedReadsRightIff(d, w.hist, tape, junk, k, offset, len, j);
  }

  lemma TapedReadsRightIff(d: World, hist: seq<Byte>, tape: seq<Byte>, junk: seq<Byte>, k: u32, offset: u32, len: u32, j: nat)
    requires Inv(d) && d.hist <= hist <= tape && Taped(d, Overlay(tape, |hist|, junk)) && Known(d.log.nv.dir, k)
    requires k in d.starts && Addressable(d, k, offset, len) && j < Taken(|Readable(d, k)|, offset, len)
    ensures FirstByte(d, k) + offset + j < |hist|
    ensures ReadsRight(d, k, offset, len, j) <==> JunkSpares(tape, |hist|, junk, FirstByte(d, k) + offset + j)
  {
    ReadsRightIffShown(d, Overlay(tape, |hist|, junk), k, offset, len, j);
    ReadableIsHistory(d, k, offset + j);
    OverlaidShows(tape, |hist|, junk, FirstByte(d, k) + offset + j);
  }

  lemma RebootInside(w: World, tape: seq<Byte>, k: u32, offset: u32, len: u32, j: nat)
    requires Inv(w) && w.hist <= tape && Known(w.log.nv.dir, k) && RebootReads(w, k, offset, len, j)
    ensures RebootByte(w, k, offset, j) < |w.hist| <= |tape|
  {
    BootKnows(w.log.nv, w.fw, k);
    ResetKeeps(w, Quiet, w.fw);
    ReadableIsHistory(AfterReset(w, Quiet, w.fw), k, offset + j);
  }

  lemma SparedReadsRight(w: World, tape: seq<Byte>, junk: seq<Byte>, k: u32, offset: u32, len: u32, j: nat)
    requires Inv(w) && Taped(w, tape) && Known(w.log.nv.dir, k) && CutPossible(w, DuringBatch(junk))
    requires RebootReads(w, k, offset, len, j)
    requires SparedBy(tape, |w.hist|, |w.hist| + |junk|, RebootByte(w, k, offset, j))
    ensures TornReadsRight(w, junk, k, offset, len, j)
  {
    TornReadsRightIff(w, tape, junk, k, offset, len, j);
  }

  lemma SomeJunkReadsWrong(w: World, tape: seq<Byte>, n: nat, k: u32, offset: u32, len: u32, j: nat) returns (junk: seq<Byte>)
    requires Inv(w) && Taped(w, tape) && Known(w.log.nv.dir, k) && w.armed && HasRoom(w) && n == REC_SIZE * DrainCount(w.log.ram)
    requires RebootReads(w, k, offset, len, j) && !SparedBy(tape, |w.hist|, |w.hist| + n, RebootByte(w, k, offset, j))
    ensures |junk| == n && !TornReadsRight(w, junk, k, offset, len, j)
  {
    RebootInside(w, tape, k, offset, len, j);
    junk := NotSpared(tape, |w.hist|, n, RebootByte(w, k, offset, j));
    TornReadsRightIff(w, tape, junk, k, offset, len, j);
  }

  /** Exactly which readable bytes survive every possible torn batch, whatever crashed before:
      those within one ring length of the end of what is then written, and those one ring
      length before bytes that the batch spares and that happen to be the same. */
  lemma TornBatchSparesExactly(w: World, tape: seq<Byte>, n: nat, k: u32, offset: u32, len: u32, j: nat)
    requires Inv(w) && Taped(w, tape) && Known(w.log.nv.dir, k) && w.armed && HasRoom(w) && n == REC_SIZE * DrainCount(w.log.ram)
    requires RebootReads(w, k, offset, len, j)
    ensures (forall junk: seq<Byte> :: |junk| == n ==> TornReadsRight(w, junk, k, offset, len, j))
       <==> SparedBy(tape, |w.hist|, |w.hist| + n, RebootByte(w, k, offset, j))
  {
    if SparedBy(tape, |w.hist|, |w.hist| + n, RebootByte(w, k, offset, j)) {
      forall junk: seq<Byte> | |junk| == n
        ensures TornReadsRight(w, junk, k, offset, len, j)
      {
        SparedReadsRight(w, tape, junk, k, offset, len, j);
      }
    } else {
      var junk := SomeJunkReadsWrong(w, tape, n, k, offset, len, j);
    }
  }

  // ---- clean reboot --------------------------------------------------------------------

  lemma NextSeqReached(dir: seq<Entry>, top: nat, seqNext: int)
    requires |dir| == MAX_SESSIONS && top < MAX_SESSIONS && 1 <= seqNext < TWO32
    requires forall i :: 0 <= i < MAX_SESSIONS && dir[i].Session? ==> 1 <= dir[i].seqNo < seqNext
    requires dir[top].Session? && dir[top].seqNo == seqNext - 1
    ensures NextSeq(dir, MAX_SESSIONS) == seqNext
  {
    NextSeqAbove(dir, MAX_SESSIONS, seqNext);
  }

  /** Two logs no query can tell apart: same counters, ring and directory ranges. */
  ghost predicate SameToQueries(a: Log, b: Log)
    requires Shaped(a) && Shaped(b)
  {
    && a.ram.total == b.ram.total && !a.ram.active && !b.ram.active
    && a.nv.data == b.nv.data
    && forall i :: 0 <= i < MAX_SESSIONS ==> EntriesMatch(a.nv.dir[i], b.nv.dir[i])
  }

  predicate EntriesMatch(x: Entry, y: Entry) {
    x.Session? == y.Session? && (x.Session? ==> x.(open := false) == y.(open := false))
  }

  lemma SameSurvivors(a: Log, b: Log, k: nat)
    requires Shaped(a) && Shaped(b) && SameToQueries(a, b) && k <= MAX_SESSIONS
    ensures Survivors(a, k) == Survivors(b, k)
  {
    if k > 0 {
      SameSurvivors(a, b, k - 1);
      assert EntriesMatch(a.nv.dir[k - 1], b.nv.dir[k - 1]);
    }
  }

  lemma SameSlot(a: Log, b: Log, seqNo: u32, k: nat)
    requires Shaped(a) && Shaped(b) && SameToQueries(a, b) && k <= MAX_SESSIONS
    ensures FindSlot(a.nv.dir, seqNo, k) == FindSlot(b.nv.dir, seqNo, k)
    decreases MAX_SESSIONS - k
  {
    if k < MAX_SESSIONS {
      assert EntriesMatch(a.nv.dir[k], b.nv.dir[k]);
      SameSlot(a, b, seqNo, k + 1);
    }
  }

  lemma SameRange(a: Log, b: Log, i: nat)
    requires Shaped(a) && Shaped(b) && SameToQueries(a, b) && i < MAX_SESSIONS && a.nv.dir[i].Session?
    ensures b.nv.dir[i].Session? && LiveStart(a, i) == LiveStart(b, i) && LiveEnd(a, i) == LiveEnd(b, i)
  {
    assert EntriesMatch(a.nv.dir[i], b.nv.dir[i]);
  }

  lemma SameReads(a: Log, b: Log, seqNo: u32, offset: u32, len: u32)
    requires Shaped(a) && Shaped(b) && SameToQueries(a, b)
    ensures ReadSession(a, seqNo, offset, len) == ReadSession(b, seqNo, offset, len)
  {
    SameSlot(a, b, seqNo, 0);
    var i := FindSlot(a.nv.dir, seqNo, 0);
    if i < MAX_SESSIONS {
      SameRange(a, b, i);
      ReadOfSlot(a, a.nv.data, seqNo, offset, len, i);
      ReadOfSlot(b, b.nv.data, seqNo, offset, len, i);
      assert OnRing(a, a.nv.data) == a && OnRing(b, b.nv.data) == b;
    }
  }

  lemma RebootMatches(w: World)
    requires Inv(w) && !w.log.ram.active && w.log.ram.total == PersistedEnd(w.log)
    ensures SameToQueries(w.log, AfterReset(w, Quiet, w.fw).log)
  {
    var b := AfterReset(w, Quiet, w.fw).log;
    ClosedEntries(w.log.nv.dir, w.log.ram.seqNext, w.log.ram.total);
    forall i | 0 <= i < MAX_SESSIONS
      ensures EntriesMatch(w.log.nv.dir[i], b.nv.dir[i])
    {
      assert EntryOk(w.log.nv.dir[i], i, w.log.ram.seqNext, w.log.ram.total);
    }
  }

  /** Stop, then reboot: counters, session list and every readable byte come back. */
  lemma StopThenRebootIsIdentity(w: World, seqNo: u32, offset: u32, len: u32)
    requires Inv(w) && w.log.ram.active
    ensures var s := Next(w, StopSession); var b := AfterReset(s, Quiet, s.fw);
      && b.log.ram.total == s.log.ram.total == w.log.ram.total
      && b.log.ram.seqNext == s.log.ram.seqNext == w.log.ram.seqNext
      && Survivors(b.log, MAX_SESSIONS) == Survivors(s.log, MAX_SESSIONS)
      && ReadSession(b.log, seqNo, offset, len) == ReadSession(s.log, seqNo, offset, len)
      && b.hist == s.hist == w.hist
  {
    var s := Next(w, StopSession);
    var b := AfterReset(s, Quiet, s.fw);
    StopKeeps(w);
    StopPersistsAll(w);
    RebootMatches(s);
    SameSurvivors(s.log, b.log, MAX_SESSIONS);
    SameReads(s.log, b.log, seqNo, offset, len);
    ClosedEntries(s.log.nv.dir, s.log.ram.seqNext, s.log.ram.total);
    NextSeqReached(s.log.nv.dir, w.log.ram.curSlot, s.log.ram.seqNext);
  }

  /** A drain that slips in after stop writes records no session owns: the reboot hands
      back exactly those positions. */
  lemma LateDrainIsForgotten(w: World)
    requires Inv(w) && w.armed && HasRoom(w) && !w.log.ram.active
    ensures var d := Next(w, WriterDrain); var b := AfterReset(d, Quiet, d.fw);
      && b.log.ram.total == d.log.ram.total - DrainCount(w.log.ram) == w.log.ram.total
      && (b.log.ram.total == d.log.ram.total <==> w.log.ram.head == w.log.ram.tail)
      && b.hist == w.hist
  {
    WrittenCounters(w);
    LateDrainOnlyWrites(w);
    LateDrainKeeps(w);
  }

  lemma NothingSurvives(s: Log, k: nat)
    requires Shaped(s) && AllFree(s.nv.dir) && k <= MAX_SESSIONS
    ensures Survivors(s, k) == []
  {
  }

  /** The first boot of another firmware finds no session at all. */
  lemma OtherFirmwareStartsEmpty(w: World, fw: u32, seqNo: u32, offset: u32, len: u32)
    requires Inv(w) && fw != w.fw
    ensures var d := AfterReset(w, Quiet, fw);
      && Inv(d) && d.log.ram.total == 0 && d.log.ram.seqNext == 1
      && Survivors(d.log, MAX_SESSIONS) == []
      && ReadSession(d.log, seqNo, offset, len) == []
  {
    var d := AfterReset(w, Quiet, fw);
    ResetKeeps(w, Quiet, fw);
    NothingSurvives(d.log, MAX_SESSIONS);
    ReadLength(d, seqNo, offset, len);
  }

  /** An erased log, and one booted from it: empty, with its counters at the start. */
  ghost predicate Empty(s: Log)
    requires Shaped(s)
  {
    s.ram.total == 0 && s.ram.seqNext == 1 && AllFree(s.nv.dir)
  }

  lemma EmptyShowsNothing(w: World, seqNo: u32, offset: u32, len: u32)
    requires Inv(w) && Empty(w.log)
    ensures Survivors(w.log, MAX_SESSIONS) == [] && ReadSession(w.log, seqNo, offset, len) == []
  {
    NothingSurvives(w.log, MAX_SESSIONS);
    ReadLength(w, seqNo, offset, len);
  }

  lemma EraseEmpties(w: World)
    requires Inv(w) && !w.log.ram.active
    ensures var d := Next(w, EraseAll); Inv(d) && Empty(d.log)
  {
    EraseKeeps(w);
  }

  lemma RebootStaysEmpty(d: World)
    requires Inv(d) && Empty(d.log)
    ensures var b := AfterReset(d, Quiet, d.fw); Inv(b) && Empty(b.log)
  {
    ResetKeeps(d, Quiet, d.fw);
    NothingPersisted(d.log.nv.dir, MAX_SESSIONS);
  }

  /** Erase starts over: nothing is listed or read, counting begins anew, and a reboot finds
      it the same. */
  lemma EraseStartsOver(w: World, seqNo: u32, offset: u32, len: u32)
    requires Inv(w) && !w.log.ram.active
    ensures var d := Next(w, EraseAll); var b := AfterReset(d, Quiet, d.fw);
      && d.log.ram.total == b.log.ram.total == 0 && d.log.ram.seqNext == b.log.ram.seqNext == 1
      && Survivors(d.log, MAX_SESSIONS) == Survivors(b.log, MAX_SESSIONS) == []
      && ReadSession(d.log, seqNo, offset, len) == ReadSession(b.log, seqNo, offset, len) == []
  {
    var d := Next(w, EraseAll);
    EraseEmpties(w);
    RebootStaysEmpty(d);
    EmptyShowsNothing(d, seqNo, offset, len);
    EmptyShowsNothing(AfterReset(d, Quiet, d.fw), seqNo, offset, len);
  }

  /** What the boot scan makes of any directory of its own firmware, reachable or not: sessions
      keep number, start and header and are closed, with no records if they died before the
      first refresh; the counter is the largest end. */
  lemma BootScan(nv: Flash, fw: u32, i: nat)
    requires FlashShaped(nv) && nv.stamp == Some(fw) && i < MAX_SESSIONS
    ensures var b, e := Boot(nv, fw), nv.dir[i];
      && (e.Free? ==> b.nv.dir[i] == Free)
      && (e.Session? ==>
            && b.nv.dir[i] == (if e.open then e.(open := false, count := if e.count == 0xFFFF_FFFF then 0 else e.count) else e)
            && Wrap(e.start + if e.count == 0xFFFF_FFFF then 0 else e.count) <= b.ram.total)
      && (b.ram.total > 0 ==> exists j :: 0 <= j < MAX_SESSIONS && nv.dir[j].Session? && EndOf(nv.dir[j]) == b.ram.total)
      && b.nv.data == nv.data && !b.ram.active && b.ram.head == b.ram.tail
  {
    MaxEndIsMaximum(nv.dir, MAX_SESSIONS);
  }

  // ---- interrupted boots and refused writes ------------------------------------------

  lemma NextSeqSame(a: seq<Entry>, b: seq<Entry>, k: nat)
    requires k <= |a| == |b|
    requires forall i :: 0 <= i < k ==> a[i].Session? == b[i].Session? && (a[i].Session? ==> a[i].seqNo == b[i].seqNo)
    ensures NextSeq(a, k) == NextSeq(b, k)
  {
    if k > 0 {
      NextSeqSame(a, b, k - 1);
    }
  }

  /** A reset while the boot scan was closing entries changes nothing for the next boot. */
  lemma InterruptedBootIsHarmless(nv: Flash, fw: u32, slots: nat)
    requires FlashShaped(nv)
    ensures Boot(nv.(dir := ClosedDir(nv.dir, slots)), fw) == Boot(nv, fw)
  {
    var half := ClosedDir(nv.dir, slots);
    MaxEndSame(nv.dir, half, MAX_SESSIONS);
    NextSeqSame(nv.dir, half, MAX_SESSIONS);
    assert ClosedDir(half, MAX_SESSIONS) == ClosedDir(nv.dir, MAX_SESSIONS);
  }

  /** writer_drain_batch when the flash refuses the data write: tail, counters and directory
      move on all the same. */
  ghost function RefusedDrain(s: Log): Log
    requires Shaped(s)
  {
    OnRing(LogSpec.Drain(s), s.nv.data)
  }

  /** The world a drain leads to knows the running session, which reaches to its end. */
  lemma DrainedKnows(w: World)
    requires Inv(w) && w.armed && HasRoom(w) && w.log.ram.active
    ensures var d, k := Drained(w), w.log.ram.curSeq;
      Inv(d) && Known(d.log.nv.dir, k) && k in d.starts && REC_SIZE * d.log.ram.total == |w.hist| + REC_SIZE * DrainCount(w.log.ram)
  {
    ActiveDrainKeeps(w);
    RunningStays(w);
    RunningIsKnown(Drained(w));
    RunningRange(Drained(w));
  }

  lemma RunningStays(w: World)
    requires Inv(w) && w.armed && HasRoom(w) && w.log.ram.active
    ensures Drained(w).log.ram.active && Drained(w).log.ram.curSeq == w.log.ram.curSeq
  {
  }

  /** From position |hist| on, `got`, read from position `first` on, is what lies one ring
      length before: the history there, once the ring has gone round. */
  ghost predicate OneRingBack(got: seq<Byte>, first: nat, data: seq<Byte>, hist: seq<Byte>)
    requires |data| == DATA_CAPACITY
  {
    && first + |got| <= |hist| + DATA_CAPACITY
    && forall j :: 0 <= j < |got| && first + j >= |hist| ==>
         got[j] == if first + j >= DATA_CAPACITY then hist[first + j - DATA_CAPACITY] else data[first + j]
  }

  lemma OldCellsOneRingBack(got: seq<Byte>, first: nat, n: nat, data: seq<Byte>, hist: seq<Byte>, high: nat)
    requires |data| == DATA_CAPACITY && RingAgrees(data, hist, high) && |hist| == REC_SIZE * high
    requires Fetches(got, data, first, n) && first + n <= |hist| + DATA_CAPACITY
    ensures OneRingBack(got, first, data, hist)
  {
    forall j | 0 <= j < |got| && first + j >= |hist|
      ensures got[j] == if first + j >= DATA_CAPACITY then hist[first + j - DATA_CAPACITY] else data[first + j]
    {
      if first + j >= DATA_CAPACITY {
        assert (first + j - DATA_CAPACITY) % DATA_CAPACITY == (first + j) % DATA_CAPACITY;
      }
    }
  }

  /** A read of session k in world d returned `got` though the ring is still as in world w. */
  ghost predicate ServesOneRingBack(got: seq<Byte>, w: World, d: World, k: nat, offset: nat, len: nat)
    requires |w.log.nv.data| == DATA_CAPACITY
  {
    && k in d.starts && |got| == Taken(|Readable(d, k)|, offset, len)
    && (got != [] ==> OneRingBack(got, FirstByte(d, k) + offset, w.log.nv.data, w.hist))
  }

  lemma LocatedOneRingBack(s: Log, data: seq<Byte>, hist: seq<Byte>, high: nat, k: u32, first: nat, n: nat, offset: u32, len: u32)
    requires Located(s, k, first, n) && NoneOrFits(first + offset, Taken(n, offset, len))
    requires |data| == DATA_CAPACITY && RingAgrees(data, hist, high) && |hist| == REC_SIZE * high
    requires REC_SIZE * s.ram.total <= |hist| + DATA_CAPACITY
    ensures var got := ReadSession(OnRing(s, data), k, offset, len);
      |got| == Taken(n, offset, len) && (got != [] ==> OneRingBack(got, first + offset, data, hist))
  {
    LocatedFits(s, k, first, n, offset, len);
    LocatedFetch(s, data, k, first, n, offset, len);
    if Taken(n, offset, len) > 0 {
      OldCellsOneRingBack(ReadSession(OnRing(s, data), k, offset, len), first + offset, Taken(n, offset, len), data, hist, high);
    }
  }

  lemma LocatedServes(w: World, d: World, k: u32, offset: u32, len: u32)
    requires k in d.starts && Located(d.log, k, FirstByte(d, k), |Readable(d, k)|) && Addressable(d, k, offset, len)
    requires |w.log.nv.data| == DATA_CAPACITY && RingAgrees(w.log.nv.data, w.hist, w.high) && |w.hist| == REC_SIZE * w.high
    requires REC_SIZE * d.log.ram.total <= |w.hist| + DATA_CAPACITY
    ensures ServesOneRingBack(ReadSession(OnRing(d.log, w.log.nv.data), k, offset, len), w, d, k, offset, len)
  {
    LocatedOneRingBack(d.log, w.log.nv.data, w.hist, w.high, k, FirstByte(d, k), |Readable(d, k)|, offset, len);
  }

  /** After a refused data write the log serves as its new records, byte for byte, whatever
      lies one ring length before them. */
  lemma RefusedBatchReadsOneRingBack(w: World, offset: u32, len: u32)
    requires Inv(w) && w.armed && HasRoom(w) && w.log.ram.active && w.high == w.log.ram.total
    requires Addressable(Drained(w), w.log.ram.curSeq, offset, len)
    ensures ServesOneRingBack(ReadSession(RefusedDrain(w.log), w.log.ram.curSeq, offset, len), w, Drained(w),
                              w.log.ram.curSeq, offset, len)
  {
    var d, k := Drained(w), w.log.ram.curSeq;
    DrainedKnows(w);
    KnownIsLocated(d, k);
    LocatedServes(w, d, k, offset, len);
  }
}
