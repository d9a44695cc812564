/** The circular multi-session flash log as a transition system on values.

    Each operation below is one critical section of the log mutex (or, for Append, one
    call in pump context).  The class in ImuLog.dfy carries them out step by step on
    arrays and is proved to compute exactly these functions; what the log promises is
    proved about these functions in LogRuns.dfy, LogReads.dfy and LogCrash.dfy. */
module LogSpec {
  import opened Words
  import opened Rings

  const MAX_SESSIONS: int := 16
  const REC_SIZE: int := 16
  const DATA_CAPACITY: int := 695648    // 0xAB000 - 0x1000 - 17 * 32 - 128
  const REC_CAPACITY: int := 43478      // DATA_CAPACITY / REC_SIZE, exactly
  const BATCH_RECS: int := 256
  const DIR_REFRESH_RECS: int := 512
  const NEVER_REFRESHED: int := 0xFFFF_FFFF

  newtype Byte = b: int | 0 <= b < 256

  /** One 16-byte sample record. */
  type Rec = r: seq<Byte> | |r| == REC_SIZE witness seq(REC_SIZE, _ => 0)

  const ZERO_REC: Rec := seq(REC_SIZE, _ => 0)

  datatype Header = Header(wallStart: u32, odrCode: u32, content: u32, accelFs: u32, gyroFs: u32)

  /** A directory slot; Free is any slot without the entry magic. */
  datatype Entry =
    | Free
    | Session(seqNo: u32, start: u32, count: u32, header: Header, open: bool)

  /** What survives a reset.  `stamp` is the firmware word of a valid directory meta block. */
  datatype Flash = Flash(data: seq<Byte>, dir: seq<Entry>, stamp: Option<u32>)

  datatype Ram = Ram(
    total: u32,         // records ever written (ring position)
    seqNext: u32,
    active: bool,
    curSeq: u32,
    curStart: u32,
    curCount: u32,
    curSlot: nat,
    lastRefresh: u32,
    stage: seq<Rec>,
    head: u32,
    tail: u32,
    dropped: u32)

  datatype Log = Log(nv: Flash, ram: Ram)

  ghost predicate FlashShaped(nv: Flash) {
    |nv.data| == DATA_CAPACITY && |nv.dir| == MAX_SESSIONS
  }

  ghost predicate Shaped(s: Log) {
    && FlashShaped(s.nv)
    && |s.ram.stage| == STAGE_N
    && s.ram.curSlot < MAX_SESSIONS
  }

  // ---- bytes ---------------------------------------------------------------

  function Flatten(recs: seq<Rec>): (bytes: seq<Byte>)
    ensures |bytes| == REC_SIZE * |recs|
  {
    seq(REC_SIZE * |recs|, k requires 0 <= k < REC_SIZE * |recs| => recs[k / REC_SIZE][k % REC_SIZE])
  }

  function Splice(data: seq<Byte>, off: nat, bytes: seq<Byte>): (after: seq<Byte>)
    requires off + |bytes| <= |data|
    ensures |after| == |data|
    ensures forall k :: 0 <= k < |data| ==>
      after[k] == if off <= k < off + |bytes| then bytes[k - off] else data[k]
  {
    data[..off] + bytes + data[off + |bytes|..]
  }

  /** Bytes [offset, offset + len) of `content`, clipped to what there is. */
  function Window(content: seq<Byte>, offset: nat, len: nat): seq<Byte> {
    if offset >= |content| then [] else content[offset..Min(offset + len, |content|)]
  }

  // ---- writer --------------------------------------------------------------

  /** Records one drain moves: bounded by what is staged, by the batch buffer and by the
      distance to the wrap of the flash ring. */
  function DrainCount(r: Ram): (n: nat)
    ensures n <= BATCH_RECS && n <= Sub(r.head, r.tail)
    ensures r.total % REC_CAPACITY + n <= REC_CAPACITY
  {
    Min(Min(Sub(r.head, r.tail), BATCH_RECS), REC_CAPACITY - r.total % REC_CAPACITY)
  }

  ghost function Batch(s: Log): (recs: seq<Rec>)
    requires Shaped(s)
    ensures |recs| == DrainCount(s.ram)
  {
    seq(DrainCount(s.ram), i requires 0 <= i < DrainCount(s.ram) => s.ram.stage[Slot(Nth(s.ram.tail, i), STAGE_N)])
  }

  /** Byte offset of the write head in the flash ring. */
  function WriteOffset(r: Ram): nat {
    r.total % REC_CAPACITY * REC_SIZE
  }

  ghost function WroteBatch(s: Log): (after: Log)
    requires Shaped(s)
    ensures Shaped(after)
  {
    var n := DrainCount(s.ram);
    Log(s.nv.(data := Splice(s.nv.data, WriteOffset(s.ram), Flatten(Batch(s)))),
        s.ram.(tail := Nth(s.ram.tail, n), total := Wrap(s.ram.total + n), curCount := Wrap(s.ram.curCount + n)))
  }

  function RefreshCurrent(s: Log, closing: bool): (after: Log)
    requires Shaped(s)
    ensures Shaped(after)
  {
    match s.nv.dir[s.ram.curSlot]
    case Free => s
    case Session(seqNo, start, _, header, _) =>
      Log(s.nv.(dir := s.nv.dir[s.ram.curSlot := Session(seqNo, start, s.ram.curCount, header, !closing)]),
          s.ram.(lastRefresh := s.ram.curCount))
  }

  /** Oldest absolute record still physically in the ring. */
  function RingFloor(total: u32): u32 {
    if total > REC_CAPACITY then total - REC_CAPACITY else 0
  }

  predicate Consumed(e: Entry, floor: u32) {
    e.Session? && e.start < floor
  }

  /** The directory after the first `upTo` slots were checked against the write head. */
  function Invalidated(dir: seq<Entry>, upTo: nat, floor: u32, active: bool, curSlot: nat): (after: seq<Entry>)
    ensures |after| == |dir|
  {
    seq(|dir|, i requires 0 <= i < |dir| =>
      if i < upTo && !(active && i == curSlot) && Consumed(dir[i], floor) then Free else dir[i])
  }

  function InvalidatePrefix(s: Log, upTo: nat): (after: Log)
    requires Shaped(s)
    ensures Shaped(after)
  {
    s.(nv := s.nv.(dir := Invalidated(s.nv.dir, upTo, RingFloor(s.ram.total), s.ram.active, s.ram.curSlot)))
  }

  predicate RefreshDue(r: Ram) {
    Sub(r.curCount, r.lastRefresh) >= DIR_REFRESH_RECS
  }

  /** writer_drain_batch: one batch to flash and, every 512 records, the directory. */
  ghost function Drain(s: Log): (after: Log)
    requires Shaped(s)
    ensures Shaped(after)
  {
    var w := WroteBatch(s);
    if DrainCount(s.ram) == 0 then s
    else if RefreshDue(w.ram) then InvalidatePrefix(RefreshCurrent(w, false), MAX_SESSIONS)
    else w
  }

  // ---- session lifecycle ---------------------------------------------------

  datatype Started = Busy | EntryWriteFailed | Running

  function SlotOf(seqNo: u32): (slot: nat)
    ensures slot < MAX_SESSIONS
  {
    Sub(seqNo, 1) % MAX_SESSIONS
  }

  /** RAM of a session about to start; stale staged records are discarded. */
  function Opening(r: Ram): Ram {
    r.(seqNext := Wrap(r.seqNext + 1), curSeq := r.seqNext, curSlot := SlotOf(r.seqNext), curStart := r.total,
       curCount := 0, lastRefresh := 0, tail := r.head, dropped := 0)
  }

  /** imu_log_start; `writeOk` is whether the flash accepts the directory entry. */
  function Start(s: Log, header: Header, writeOk: bool): (r: (Log, Started))
    requires Shaped(s)
    ensures Shaped(r.0)
  {
    if s.ram.active then (s, Busy)
    else
      var ram := Opening(s.ram);
      if writeOk
      then (Log(s.nv.(dir := s.nv.dir[ram.curSlot := Session(ram.curSeq, ram.curStart, 0, header, true)]),
                ram.(active := true)), Running)
      else (s.(ram := ram), EntryWriteFailed)
  }

  /** imu_log_stop, its locked section. */
  function Stop(s: Log): (after: Log)
    requires Shaped(s)
    ensures Shaped(after)
  {
    if s.ram.active then RefreshCurrent(s.(ram := s.ram.(active := false)), true) else s
  }

  function WipedDir(): (dir: seq<Entry>)
    ensures |dir| == MAX_SESSIONS
    ensures forall i :: 0 <= i < MAX_SESSIONS ==> dir[i].Free?
  {
    seq(MAX_SESSIONS, _ => Free)
  }

  /** imu_log_erase, its locked section. */
  function Erase(s: Log, fw: u32): (after: Log)
    requires Shaped(s)
    ensures Shaped(after)
  {
    Log(s.nv.(dir := WipedDir(), stamp := Some(fw)), s.ram.(total := 0, seqNext := 1, curCount := 0))
  }

  // ---- staging -------------------------------------------------------------

  function AppendOne(r: Ram, rec: Rec): (after: Ram)
    requires |r.stage| == STAGE_N
    ensures |after.stage| == STAGE_N && after.curSlot == r.curSlot
  {
    if Sub(r.head, r.tail) >= STAGE_N
    then r.(dropped := Wrap(r.dropped + 1))
    else r.(stage := r.stage[Slot(r.head, STAGE_N) := rec], head := Wrap(r.head + 1))
  }

  function AppendAll(r: Ram, recs: seq<Rec>): (after: Ram)
    requires |r.stage| == STAGE_N
    ensures |after.stage| == STAGE_N && after.curSlot == r.curSlot
    decreases |recs|
  {
    if recs == [] then r else AppendOne(AppendAll(r, recs[..|recs| - 1]), recs[|recs| - 1])
  }

  /** imu_log_append in pump context. */
  function Append(s: Log, recs: seq<Rec>): (after: Log)
    requires Shaped(s)
    ensures Shaped(after)
  {
    if s.ram.active then s.(ram := AppendAll(s.ram, recs)) else s
  }

  // ---- boot ----------------------------------------------------------------

  function PersistedCount(e: Entry): u32
    requires e.Session?
  {
    if e.count == NEVER_REFRESHED then 0 else e.count
  }

  function EndOf(e: Entry): u32
    requires e.Session?
  {
    Wrap(e.start + PersistedCount(e))
  }

  /** Sessions cut off by a reset are closed with the count last persisted. */
  function Closed(e: Entry): Entry {
    if e.Session? && e.open then e.(count := PersistedCount(e), open := false) else e
  }

  function ClosedDir(dir: seq<Entry>, upTo: nat): (after: seq<Entry>)
    ensures |after| == |dir|
  {
    seq(|dir|, i requires 0 <= i < |dir| => if i < upTo then Closed(dir[i]) else dir[i])
  }

  /** Largest end of a persisted session among the first k slots. */
  function MaxEnd(dir: seq<Entry>, k: nat): u32
    requires k <= |dir|
  {
    if k == 0 then 0
    else
      var before := MaxEnd(dir, k - 1);
      if dir[k - 1].Session? && EndOf(dir[k - 1]) > before then EndOf(dir[k - 1]) else before
  }

  /** The session number after the largest among the first k slots. */
  function NextSeq(dir: seq<Entry>, k: nat): u32
    requires k <= |dir|
  {
    if k == 0 then 1
    else
      var before := NextSeq(dir, k - 1);
      if dir[k - 1].Session? && dir[k - 1].seqNo >= before then Wrap(dir[k - 1].seqNo + 1) else before
  }

  /** RAM as the C start-up code leaves it. */
  function ColdRam(): (r: Ram)
    ensures |r.stage| == STAGE_N
  {
    Ram(0, 1, false, 0, 0, 0, 0, 0, seq(STAGE_N, _ => ZERO_REC), 0, 0, 0)
  }

  /** imu_log_init after a reset, for the firmware with version word `fw`. */
  function Boot(nv: Flash, fw: u32): (s: Log)
    requires FlashShaped(nv)
    ensures Shaped(s)
  {
    if nv.stamp != Some(fw)
    then Log(nv.(dir := WipedDir(), stamp := Some(fw)), ColdRam())
    else Log(nv.(dir := ClosedDir(nv.dir, MAX_SESSIONS)),
             ColdRam().(total := MaxEnd(nv.dir, MAX_SESSIONS), seqNext := NextSeq(nv.dir, MAX_SESSIONS)))
  }

  // ---- queries -------------------------------------------------------------

  /** Records of slot i as the queries count them: live for the session being logged. */
  function CountOf(s: Log, i: nat): u32
    requires Shaped(s) && i < MAX_SESSIONS && s.nv.dir[i].Session?
  {
    if s.ram.active && i == s.ram.curSlot then s.ram.curCount else s.nv.dir[i].count
  }

  function LiveEnd(s: Log, i: nat): u32
    requires Shaped(s) && i < MAX_SESSIONS && s.nv.dir[i].Session?
  {
    Wrap(s.nv.dir[i].start + CountOf(s, i))
  }

  /** First surviving record of slot i. */
  function LiveStart(s: Log, i: nat): u32
    requires Shaped(s) && i < MAX_SESSIONS && s.nv.dir[i].Session?
  {
    Max(s.nv.dir[i].start, RingFloor(s.ram.total))
  }

  datatype Summary = Summary(seqNo: u32, header: Header, recCount: u32)

  predicate Listed(s: Log, i: nat)
    requires Shaped(s) && i < MAX_SESSIONS
  {
    s.nv.dir[i].Session? && LiveEnd(s, i) > RingFloor(s.ram.total)
  }

  function SummaryOf(s: Log, i: nat): Summary
    requires Shaped(s) && i < MAX_SESSIONS && s.nv.dir[i].Session?
  {
    Summary(s.nv.dir[i].seqNo, s.nv.dir[i].header, Sub(LiveEnd(s, i), LiveStart(s, i)))
  }

  /** The surviving sessions among the first k slots, in slot order. */
  function Survivors(s: Log, k: nat): (found: seq<Summary>)
    requires Shaped(s) && k <= MAX_SESSIONS
    ensures |found| <= k
  {
    if k == 0 then []
    else if Listed(s, k - 1) then Survivors(s, k - 1) + [SummaryOf(s, k - 1)]
    else Survivors(s, k - 1)
  }

  predicate Descending(list: seq<Summary>) {
    forall i, j :: 0 <= i < j < |list| ==> list[i].seqNo > list[j].seqNo
  }

  predicate NewestFirst(list: seq<Summary>) {
    forall i, j :: 0 <= i < j < |list| ==> list[i].seqNo >= list[j].seqNo
  }

  /** `out` is what a caller with room for `max` entries is told about `found`. */
  ghost predicate IsListing(out: seq<Summary>, found: seq<Summary>, max: nat) {
    exists all: seq<Summary> ::
      NewestFirst(all) && multiset(all) == multiset(found) && out == all[..Min(|all|, max)]
  }

  /** Lowest slot from k on that holds session seqNo, or 16. */
  function FindSlot(dir: seq<Entry>, seqNo: u32, k: nat): (slot: nat)
    requires k <= |dir| == MAX_SESSIONS
    ensures k <= slot <= MAX_SESSIONS
    ensures slot < MAX_SESSIONS ==> dir[slot].Session? && dir[slot].seqNo == seqNo
    ensures forall i :: k <= i < slot ==> !(dir[i].Session? && dir[i].seqNo == seqNo)
    decreases MAX_SESSIONS - k
  {
    if k == MAX_SESSIONS || (dir[k].Session? && dir[k].seqNo == seqNo) then k
    else FindSlot(dir, seqNo, k + 1)
  }

  /** The copy loop of imu_log_read_session: contiguous spans up to the end of the flash
      ring, the byte address being a uint32_t. */
  function ReadSpans(data: seq<Byte>, absByte: u32, len: nat): (bytes: seq<Byte>)
    requires |data| == DATA_CAPACITY
    ensures |bytes| == len
    decreases len
  {
    if len == 0 then []
    else
      var off := absByte % DATA_CAPACITY;
      var span := Min(len, DATA_CAPACITY - off);
      data[off..off + span] + ReadSpans(data, Wrap(absByte + span), len - span)
  }

  /** Bytes [offset, offset + len) of the records [start, end), clipped to the range. */
  function ReadRange(data: seq<Byte>, start: u32, end: u32, offset: u32, len: u32): (bytes: seq<Byte>)
    requires |data| == DATA_CAPACITY
  {
    if end <= start then []
    else
      var avail := Wrap((end - start) * REC_SIZE);
      if offset >= avail then [] else ReadSpans(data, Wrap(start * REC_SIZE + offset), Min(len, avail - offset))
  }

  /** imu_log_read_session; an unknown session or an offset past the end reads nothing. */
  function ReadSession(s: Log, seqNo: u32, offset: u32, len: u32): (bytes: seq<Byte>)
    requires Shaped(s)
  {
    var i := FindSlot(s.nv.dir, seqNo, 0);
    if i == MAX_SESSIONS then []
    else ReadRange(s.nv.data, LiveStart(s, i), LiveEnd(s, i), offset, len)
  }
}
