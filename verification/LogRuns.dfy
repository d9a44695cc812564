/** Runs of the flash log: every interleaving of session commands, pump appends, writer
    drains and resets, the last one at any point of a flash update.

    Beside the log itself a World carries what the log is supposed to remember: the
    append-only history of bytes by absolute position, where in it every session began and
    what it recorded, the header it was started with, and the highest record the flash ring
    was ever physically written up to.  None of these consults the directory of the log. */
module LogRuns {
  import opened Words
  import opened Rings
  import opened LogSpec

  datatype World = World(
    log: Log,
    fw: u32,                          // version word of the running firmware
    armed: bool,                      // the writer saw `active` and is about to take the lock
    hist: seq<Byte>,                  // all records since the counter's origin
    high: nat,                        // records physically written, lost ones included
    sessions: map<nat, seq<Byte>>,    // everything each session recorded
    starts: map<nat, nat>,            // the history record each session began at
    headers: map<nat, Header>)        // what it was started with

  /** Where a reset interrupts the log.  A directory entry is written atomically; an
      interrupted data batch leaves arbitrary bytes where the batch was going. */
  datatype Cut =
    | Quiet
    | DuringBatch(junk: seq<Byte>)
    | DuringRefresh(slots: nat)       // entry refreshed, `slots` slots checked for invalidation
    | DuringErase(slots: nat)         // meta block and `slots` entries wiped, not yet stamped

  datatype Event =
    | StartSession(header: Header, writeOk: bool)
    | AppendRecs(recs: seq<Rec>)
    | WriterTest
    | WriterDrain
    | StopSession
    | EraseAll
    | Reset(cut: Cut, fw: u32)

  // ---- transitions -----------------------------------------------------------

  /** Erase follows stop on the one command thread that also starts sessions.  Counter
      exhaustion (2^32 - 2 records or session numbers) is outside the model. */
  ghost predicate Enabled(w: World, e: Event)
    requires Shaped(w.log)
  {
    match e
    case StartSession(_, _) => w.log.ram.seqNext + 1 < TWO32
    case AppendRecs(_) => true
    case WriterTest => !w.armed
    case WriterDrain => w.armed && HasRoom(w)
    case StopSession => true
    case EraseAll => !w.log.ram.active
    case Reset(cut, _) => CutPossible(w, cut)
  }

  predicate HasRoom(w: World) {
    w.log.ram.total + BATCH_RECS < NEVER_REFRESHED
  }

  ghost predicate CutPossible(w: World, cut: Cut)
    requires Shaped(w.log)
  {
    match cut
    case Quiet => true
    case DuringBatch(junk) => w.armed && HasRoom(w) && |junk| == REC_SIZE * DrainCount(w.log.ram)
    case DuringRefresh(slots) =>
      w.armed && HasRoom(w) && DrainCount(w.log.ram) > 0 && RefreshDue(WroteBatch(w.log).ram)
    case DuringErase(slots) => !w.log.ram.active
  }

  ghost function NewBytes(w: World): seq<Byte>
    requires Shaped(w.log)
  {
    Flatten(Batch(w.log))
  }

  /** The sessions once the pending batch is in: it belongs to the active session. */
  ghost function GrownSessions(w: World): map<nat, seq<Byte>>
    requires Shaped(w.log)
  {
    if w.log.ram.active && w.log.ram.curSeq in w.sessions
    then w.sessions[w.log.ram.curSeq := w.sessions[w.log.ram.curSeq] + NewBytes(w)]
    else w.sessions
  }

  ghost function Drained(w: World): World
    requires Shaped(w.log)
  {
    w.(log := Drain(w.log), armed := false, hist := w.hist + NewBytes(w),
       high := Max(w.high, w.log.ram.total + DrainCount(w.log.ram)), sessions := GrownSessions(w))
  }

  /** Flash contents found by the next boot. */
  ghost function Image(w: World, cut: Cut): (nv: Flash)
    requires Shaped(w.log) && CutPossible(w, cut)
    ensures FlashShaped(nv)
  {
    match cut
    case Quiet => w.log.nv
    case DuringBatch(junk) => w.log.nv.(data := Splice(w.log.nv.data, WriteOffset(w.log.ram), junk))
    case DuringRefresh(slots) => InvalidatePrefix(RefreshCurrent(WroteBatch(w.log), false), slots).nv
    case DuringErase(slots) =>
      w.log.nv.(stamp := None, dir := seq(MAX_SESSIONS, i requires 0 <= i < MAX_SESSIONS =>
        if i < slots then Free else w.log.nv.dir[i]))
  }

  /** Records physically touched when the cut happens. */
  ghost function HighAt(w: World, cut: Cut): nat
    requires Shaped(w.log)
  {
    if cut.DuringBatch? || cut.DuringRefresh? then Max(w.high, w.log.ram.total + DrainCount(w.log.ram)) else w.high
  }

  function Prefix(s: seq<Byte>, n: nat): seq<Byte> {
    s[..Min(n, |s|)]
  }

  /** The directory still knows session k. */
  predicate Known(dir: seq<Entry>, k: nat)
    requires |dir| == MAX_SESSIONS
  {
    dir[(k - 1) % MAX_SESSIONS].Session? && dir[(k - 1) % MAX_SESSIONS].seqNo == k
  }

  /** Of each session, what lies before record `total` of the history. */
  function CutSessions(sessions: map<nat, seq<Byte>>, starts: map<nat, nat>, total: nat): (cut: map<nat, seq<Byte>>) {
    map k | k in sessions && k in starts :: Prefix(sessions[k], REC_SIZE * Max(0, total - starts[k]))
  }

  /** After a reset the counter resumes at the persisted end: what the history and each
      session hold beyond it is lost.  A boot that does not trust the directory forgets all. */
  ghost function AfterReset(w: World, cut: Cut, fw: u32): World
    requires Shaped(w.log) && CutPossible(w, cut)
  {
    var log := Boot(Image(w, cut), fw);
    var hist := if cut.DuringRefresh? then w.hist + NewBytes(w) else w.hist;
    var sessions := if cut.DuringRefresh? then GrownSessions(w) else w.sessions;
    if Image(w, cut).stamp != Some(fw) then World(log, fw, false, [], 0, map[], map[], map[])
    else
      World(log, fw, false, Prefix(hist, REC_SIZE * log.ram.total), HighAt(w, cut),
            CutSessions(sessions, w.starts, log.ram.total), w.starts, w.headers)
  }

  ghost function Next(w: World, e: Event): World
    requires Shaped(w.log) && Enabled(w, e)
  {
    match e
    case StartSession(header, writeOk) =>
      var (log, outcome) := Start(w.log, header, writeOk);
      if outcome.Running?
      then w.(log := log, sessions := w.sessions[w.log.ram.seqNext := []],
              starts := w.starts[w.log.ram.seqNext := |w.hist| / REC_SIZE],
              headers := w.headers[w.log.ram.seqNext := header])
      else w.(log := log)
    case AppendRecs(recs) => w.(log := Append(w.log, recs))
    case WriterTest => w.(armed := w.log.ram.active && w.log.ram.head != w.log.ram.tail)
    case WriterDrain => Drained(w)
    case StopSession => w.(log := Stop(w.log))
    case EraseAll => w.(log := Erase(w.log, w.fw), hist := [], high := 0, sessions := map[], starts := map[], headers := map[])
    case Reset(cut, fw) => AfterReset(w, cut, fw)
  }

  // ---- invariant -------------------------------------------------------------

  /** Every byte within one ring length of the physical high-water mark is in its cell. */
  ghost predicate RingAgrees(data: seq<Byte>, hist: seq<Byte>, high: nat)
    requires |data| == DATA_CAPACITY
  {
    forall k :: 0 <= k < |hist| && REC_SIZE * high - DATA_CAPACITY <= k ==> data[k % DATA_CAPACITY] == hist[k]
  }

  ghost predicate EntryOk(e: Entry, i: nat, seqNext: int, total: int) {
    e.Session? ==>
      && (e.seqNo - 1) % MAX_SESSIONS == i
      && 1 <= e.seqNo < seqNext
      && e.start + e.count <= total
  }

  ghost predicate Before(a: Entry, b: Entry) {
    a.Session? && b.Session? && a.seqNo < b.seqNo ==> a.start + a.count <= b.start
  }

  /** Slots match session numbers; ranges are disjoint and ordered like the numbers. */
  ghost predicate DirectoryOk(dir: seq<Entry>, seqNext: int, total: int) {
    && |dir| == MAX_SESSIONS
    && 0 <= total < NEVER_REFRESHED
    && (forall i :: 0 <= i < MAX_SESSIONS ==> EntryOk(dir[i], i, seqNext, total))
    && (forall i, j :: 0 <= i < MAX_SESSIONS && 0 <= j < MAX_SESSIONS ==> Before(dir[i], dir[j]))
  }

  ghost predicate ActiveOk(s: Log)
    requires Shaped(s)
  {
    var r, e := s.ram, s.nv.dir[s.ram.curSlot];
    r.active ==>
      && e.Session? && e.open
      && e.seqNo == r.curSeq == r.seqNext - 1
      && e.start == r.curStart
      && e.count == r.lastRefresh <= r.curCount < r.lastRefresh + DIR_REFRESH_RECS
      && r.total == r.curStart + r.curCount
  }

  ghost predicate AllFree(dir: seq<Entry>) {
    forall i :: 0 <= i < |dir| ==> dir[i].Free?
  }

  function PersistedEnd(s: Log): u32
    requires Shaped(s)
  {
    MaxEnd(s.nv.dir, MAX_SESSIONS)
  }

  ghost predicate InactiveOk(w: World)
    requires Shaped(w.log)
  {
    var r := w.log.ram;
    !r.active ==>
      && r.total <= PersistedEnd(w.log) + BATCH_RECS
      && (w.armed ==> r.total == PersistedEnd(w.log) && (r.curCount == r.lastRefresh || AllFree(w.log.nv.dir)))
  }

  /** Records [from, from + count) of the history. */
  function Records(hist: seq<Byte>, from: nat, count: nat): seq<Byte>
    requires REC_SIZE * (from + count) <= |hist|
  {
    hist[REC_SIZE * from..REC_SIZE * (from + count)]
  }

  /** The bytes of slot i's session are exactly its range of the history. */
  ghost predicate SessionOk(w: World, i: nat)
    requires Shaped(w.log) && i < MAX_SESSIONS
  {
    var e := w.log.nv.dir[i];
    e.Session? ==>
      && e.start + CountOf(w.log, i) <= w.log.ram.total
      && e.seqNo in w.sessions
      && e.seqNo in w.starts && w.starts[e.seqNo] == e.start
      && REC_SIZE * (e.start + CountOf(w.log, i)) <= |w.hist|
      && w.sessions[e.seqNo] == Records(w.hist, e.start, CountOf(w.log, i))
  }

  ghost predicate Inv(w: World) {
    && Shaped(w.log)
    && w.log.nv.stamp == Some(w.fw)
    && |w.hist| == REC_SIZE * w.log.ram.total
    && 1 <= w.log.ram.seqNext
    && w.log.ram.total <= w.high
    && Sub(w.log.ram.head, w.log.ram.tail) <= STAGE_N
    && RingAgrees(w.log.nv.data, w.hist, w.high)
    && DirectoryOk(w.log.nv.dir, w.log.ram.seqNext, w.log.ram.total)
    && ActiveOk(w.log)
    && InactiveOk(w)
    && w.high <= PersistedEnd(w.log) + DIR_REFRESH_RECS - 1 + BATCH_RECS
    && (forall i :: 0 <= i < MAX_SESSIONS ==> SessionOk(w, i))
  }

  // ---- facts about the boot scan ---------------------------------------------

  /** MaxEnd is the maximum: an upper bound, and reached unless it is 0. */
  lemma MaxEndIsMaximum(dir: seq<Entry>, k: nat)
    requires k <= |dir|
    ensures forall i :: 0 <= i < k && dir[i].Session? ==> EndOf(dir[i]) <= MaxEnd(dir, k)
    ensures MaxEnd(dir, k) == 0 || exists i :: 0 <= i < k && dir[i].Session? && EndOf(dir[i]) == MaxEnd(dir, k)
  {
    if k > 0 {
      MaxEndIsMaximum(dir, k - 1);
    }
  }

  lemma MaxEndReached(dir: seq<Entry>, top: nat, m: int)
    requires |dir| == MAX_SESSIONS && top < MAX_SESSIONS
    requires dir[top].Session? && EndOf(dir[top]) == m
    requires forall i :: 0 <= i < MAX_SESSIONS && dir[i].Session? ==> EndOf(dir[i]) <= m
    ensures MaxEnd(dir, MAX_SESSIONS) == m
  {
    MaxEndIsMaximum(dir, MAX_SESSIONS);
  }

  /** The boot scan is blind to everything but the ends of valid entries. */
  lemma MaxEndSame(a: seq<Entry>, b: seq<Entry>, k: nat)
    requires k <= |a| == |b|
    requires forall i :: 0 <= i < k ==> a[i].Session? == b[i].Session? && (a[i].Session? ==> EndOf(a[i]) == EndOf(b[i]))
    ensures MaxEnd(a, k) == MaxEnd(b, k)
  {
    if k > 0 {
      MaxEndSame(a, b, k - 1);
    }
  }

  lemma NextSeqAbove(dir: seq<Entry>, k: nat, seqNext: int)
    requires k <= |dir| && 1 <= seqNext < TWO32
    requires forall i :: 0 <= i < k && dir[i].Session? ==> 1 <= dir[i].seqNo < seqNext
    ensures 1 <= NextSeq(dir, k) <= seqNext
    ensures forall i :: 0 <= i < k && dir[i].Session? ==> dir[i].seqNo < NextSeq(dir, k)
    ensures NextSeq(dir, k) == 1 || exists i :: 0 <= i < k && dir[i].Session? && NextSeq(dir, k) == dir[i].seqNo + 1
  {
    if k > 0 {
      NextSeqAbove(dir, k - 1, seqNext);
    }
  }

  lemma NothingPersisted(dir: seq<Entry>, k: nat)
    requires k <= |dir| && AllFree(dir)
    ensures MaxEnd(dir, k) == 0 && NextSeq(dir, k) == 1
  {
    if k > 0 {
      NothingPersisted(dir, k - 1);
    }
  }

  /** While a session runs, its entry carries the persisted end. */
  lemma ActiveEnd(s: Log)
    requires Shaped(s) && s.ram.active && ActiveOk(s)
    requires DirectoryOk(s.nv.dir, s.ram.seqNext, s.ram.total)
    ensures PersistedEnd(s) == s.ram.curStart + s.ram.lastRefresh
  {
    var dir, cur := s.nv.dir, s.ram.curSlot;
    forall i | 0 <= i < MAX_SESSIONS && dir[i].Session?
      ensures EndOf(dir[i]) <= s.ram.curStart + s.ram.lastRefresh
    {
      assert EntryOk(dir[i], i, s.ram.seqNext, s.ram.total);
      if i != cur {
        assert EntryOk(dir[cur], cur, s.ram.seqNext, s.ram.total);
        assert Before(dir[i], dir[cur]);
      }
    }
    assert EntryOk(dir[cur], cur, s.ram.seqNext, s.ram.total);
    MaxEndReached(dir, cur, s.ram.curStart + s.ram.lastRefresh);
  }

  lemma EndsWithinTotal(s: Log)
    requires Shaped(s) && DirectoryOk(s.nv.dir, s.ram.seqNext, s.ram.total)
    ensures PersistedEnd(s) <= s.ram.total
    ensures forall i :: 0 <= i < MAX_SESSIONS && s.nv.dir[i].Session? ==>
      EndOf(s.nv.dir[i]) == s.nv.dir[i].start + s.nv.dir[i].count
  {
    var dir := s.nv.dir;
    forall i | 0 <= i < MAX_SESSIONS && dir[i].Session?
      ensures EndOf(dir[i]) == dir[i].start + dir[i].count <= s.ram.total
    {
      assert EntryOk(dir[i], i, s.ram.seqNext, s.ram.total);
    }
    MaxEndIsMaximum(dir, MAX_SESSIONS);
  }
}
