/** The flash log of src/imu/imu_log.c on arrays it updates in place, each operation
    proved to compute the transition of the same name in LogSpec. */
module ImuLogClass {
  import opened Words
  import opened Rings
  import opened LogSpec

  class ImuLog {
    const fw: u32                     // version word of the running firmware

    // flash: record ring, directory, meta stamp
    var data: array<Byte>
    var dir: array<Entry>
    var stamp: Option<u32>

    // RAM
    var totalAbs: u32
    var seqNext: u32
    var active: bool
    var curSeq: u32
    var curStart: u32
    var curCount: u32
    var curSlot: nat
    var lastDirRefresh: u32
    var stage: array<Rec>
    var stageHead: u32
    var stageTail: u32
    var logDropped: u32
    var batch: array<Rec>

    ghost predicate Valid()
      reads this
    {
      && data.Length == DATA_CAPACITY
      && dir.Length == MAX_SESSIONS
      && stage.Length == STAGE_N
      && batch.Length == BATCH_RECS
      && stage != batch
      && curSlot < MAX_SESSIONS
    }

    ghost function State(): (s: Log)
      reads this, data, dir, stage
      requires Valid()
      ensures Shaped(s)
    {
      Log(Flash(data[..], dir[..], stamp),
          Ram(totalAbs, seqNext, active, curSeq, curStart, curCount, curSlot, lastDirRefresh,
              stage[..], stageHead, stageTail, logDropped))
    }

    /** imu_log_init after a reset: `data`, `dir` and `stamp` are what the flash holds. */
    constructor (data: array<Byte>, dir: array<Entry>, stamp: Option<u32>, fw: u32)
      requires data.Length == DATA_CAPACITY && dir.Length == MAX_SESSIONS
      modifies dir
      ensures Valid() && fresh(stage) && fresh(batch) && this.fw == fw
      ensures this.data == data && this.dir == dir
      ensures State() == Boot(Flash(data[..], old(dir[..]), stamp), fw)
    {
      this.fw := fw;
      this.data, this.dir, this.stamp := data, dir, stamp;
      totalAbs, seqNext, active := 0, 1, false;
      curSeq, curStart, curCount, curSlot, lastDirRefresh := 0, 0, 0, 0, 0;
      stage := new Rec[STAGE_N](_ => ZERO_REC);
      batch := new Rec[BATCH_RECS](_ => ZERO_REC);
      stageHead, stageTail, logDropped := 0, 0, 0;
      new;
      assert stage[..] == ColdRam().stage;
      if stamp != Some(fw) {
        DirWipeAndStamp();
      } else {
        ScanDirectory();
      }
    }

    /** Rebuilds the counters from the directory and closes the sessions a reset cut off. */
    method ScanDirectory()
      requires Valid() && totalAbs == 0 && seqNext == 1
      modifies `totalAbs, `seqNext, dir
      ensures Valid()
      ensures dir[..] == ClosedDir(old(dir[..]), MAX_SESSIONS)
      ensures totalAbs == MaxEnd(old(dir[..]), MAX_SESSIONS) && seqNext == NextSeq(old(dir[..]), MAX_SESSIONS)
    {
      ghost var found := dir[..];
      for i := 0 to MAX_SESSIONS
        invariant dir[..] == ClosedDir(found, i)
        invariant totalAbs == MaxEnd(found, i) && seqNext == NextSeq(found, i)
      {
        assert dir[i] == dir[..][i] == found[i];
        var e := dir[i];
        if e.Session? {
          if e.count == NEVER_REFRESHED {
            e := e.(count := 0);    // died before the first refresh
          }
          if e.open {
            e := e.(open := false);
            dir[i] := e;            // closes a session cut off by the reset
          }
          var end := Wrap(e.start + e.count);
          if end > totalAbs {
            totalAbs := end;
          }
          if e.seqNo >= seqNext {
            seqNext := Wrap(e.seqNo + 1);
          }
        }
        assert dir[..] == ClosedDir(found, i + 1);
      }
    }

    method DirWipeAndStamp()
      requires Valid()
      modifies `stamp, dir
      ensures Valid()
      ensures State() == old(State()).(nv := old(State()).nv.(dir := WipedDir(), stamp := Some(fw)))
    {
      forall i | 0 <= i < MAX_SESSIONS {
        dir[i] := Free;
      }
      stamp := Some(fw);
      assert dir[..] == WipedDir();
    }

    /** Stores the live count of the current session in its entry. */
    method DirRefreshCurrent(closing: bool)
      requires Valid()
      modifies `lastDirRefresh, dir
      ensures Valid() && State() == RefreshCurrent(old(State()), closing)
    {
      var e := dir[curSlot];
      if e.Free? {
        return;
      }
      dir[curSlot] := e.(count := curCount, open := !closing);
      lastDirRefresh := curCount;
    }

    method FloorNow() returns (floor: u32)
      ensures floor == RingFloor(totalAbs)
    {
      floor := if totalAbs > REC_CAPACITY then totalAbs - REC_CAPACITY else 0;
    }

    /** Drops the entries whose data the write head has reached. */
    method InvalidateConsumed()
      requires Valid()
      modifies dir
      ensures Valid() && State() == InvalidatePrefix(old(State()), MAX_SESSIONS)
    {
      var floor := FloorNow();
      ghost var before := dir[..];
      for i := 0 to MAX_SESSIONS
        invariant dir[..] == Invalidated(before, i, floor, active, curSlot)
      {
        assert dir[i] == dir[..][i] == before[i];
        if !(active && i == curSlot) && dir[i].Session? && dir[i].start < floor {
          dir[i] := Free;
        }
        assert dir[..] == Invalidated(before, i + 1, floor, active, curSlot);
      }
    }

    /** One flash write of the first n batch records at byte offset `off`. */
    method PhysWrite(off: nat, n: nat)
      requires Valid() && n <= BATCH_RECS && off + REC_SIZE * n <= DATA_CAPACITY
      modifies data
      ensures Valid() && data[..] == Splice(old(data[..]), off, Flatten(batch[..n]))
    {
      forall k | 0 <= k < REC_SIZE * n {
        data[off + k] := batch[k / REC_SIZE][k % REC_SIZE];
      }
      assert forall k :: 0 <= k < REC_SIZE * n ==> Flatten(batch[..n])[k] == batch[..n][k / REC_SIZE][k % REC_SIZE];
    }

    /** Copies the n oldest staged records into the batch buffer. */
    method FillBatch(n: nat)
      requires Valid() && n <= BATCH_RECS
      modifies batch
      ensures Valid()
      ensures forall i :: 0 <= i < n ==> batch[i] == stage[Slot(Nth(stageTail, i), STAGE_N)]
    {
      for i := 0 to n
        invariant forall k :: 0 <= k < i ==> batch[k] == stage[Slot(Nth(stageTail, k), STAGE_N)]
      {
        batch[i] := stage[Slot(Nth(stageTail, i), STAGE_N)];
      }
    }

    /** writer_drain_batch: up to 256 staged records go to flash in one write. */
    method WriterDrainBatch()
      requires Valid()
      modifies this, data, dir, batch
      ensures Valid() && State() == Drain(old(State()))
      ensures data == old(data) && dir == old(dir) && stage == old(stage) && batch == old(batch)
    {
      var avail := Sub(stageHead, stageTail);
      var n := Min(avail, BATCH_RECS);
      if n == 0 {
        return;
      }
      var ringPos := totalAbs % REC_CAPACITY;
      n := Min(n, REC_CAPACITY - ringPos);    // keep the write contiguous
      WriteBatch(ringPos, n);
      if Sub(curCount, lastDirRefresh) >= DIR_REFRESH_RECS {
        DirRefreshCurrent(false);
        InvalidateConsumed();
      }
    }

    /** Moves n staged records to the write head and advances the counters. */
    method WriteBatch(ringPos: nat, n: nat)
      requires Valid() && n == DrainCount(State().ram) && ringPos == totalAbs % REC_CAPACITY
      modifies `stageTail, `totalAbs, `curCount, data, batch
      ensures Valid() && State() == WroteBatch(old(State()))
    {
      ghost var before := State();
      FillBatch(n);
      assert batch[..n] == Batch(before);
      PhysWrite(ringPos * REC_SIZE, n);
      stageTail := Nth(stageTail, n);
      totalAbs := Wrap(totalAbs + n);
      curCount := Wrap(curCount + n);
    }

    method Start(header: Header, writeOk: bool) returns (outcome: Started)
      requires Valid()
      modifies this, dir
      ensures Valid() && (State(), outcome) == LogSpec.Start(old(State()), header, writeOk)
      ensures data == old(data) && dir == old(dir) && stage == old(stage) && batch == old(batch)
    {
      if active {
        return Busy;
      }
      OpenSession();
      if !writeOk {
        return EntryWriteFailed;
      }
      dir[curSlot] := Session(curSeq, curStart, 0, header, true);
      active := true;
      outcome := Running;
    }

    method OpenSession()
      requires Valid()
      modifies `seqNext, `curSeq, `curSlot, `curStart, `curCount, `lastDirRefresh, `stageTail, `logDropped
      ensures Valid()
      ensures curSeq == old(seqNext) && seqNext == Wrap(old(seqNext) + 1) && curSlot == SlotOf(old(seqNext))
      ensures curStart == totalAbs && curCount == lastDirRefresh == logDropped == 0 && stageTail == stageHead
    {
      curSeq := seqNext;
      seqNext := Wrap(seqNext + 1);
      curSlot := SlotOf(curSeq);
      curStart := totalAbs;
      curCount := 0;
      lastDirRefresh := 0;
      stageTail := stageHead;                 // discard stale staged records
      logDropped := 0;
    }

    method Stop()
      requires Valid()
      modifies this, dir
      ensures Valid() && State() == LogSpec.Stop(old(State()))
      ensures data == old(data) && dir == old(dir) && stage == old(stage) && batch == old(batch)
    {
      if active {
        active := false;
        DirRefreshCurrent(true);
      }
    }

    method Erase()
      requires Valid()
      modifies this, dir
      ensures Valid() && State() == LogSpec.Erase(LogSpec.Stop(old(State())), fw)
      ensures data == old(data) && dir == old(dir) && stage == old(stage) && batch == old(batch)
    {
      Stop();
      DirWipeAndStamp();
      totalAbs := 0;
      seqNext := 1;
      curCount := 0;
    }

    /** imu_log_append: stages what fits and counts the rest. */
    method Append(recs: seq<Rec>)
      requires Valid()
      modifies this, stage
      ensures Valid() && State() == LogSpec.Append(old(State()), recs)
      ensures data == old(data) && dir == old(dir) && stage == old(stage) && batch == old(batch)
    {
      if !active {
        return;
      }
      ghost var before := State().ram;
      for i := 0 to |recs|
        invariant Valid() && stage == old(stage) && batch == old(batch) && dir == old(dir) && data == old(data)
        invariant State() == old(State()).(ram := AppendAll(before, recs[..i]))
      {
        assert recs[..i + 1][..i] == recs[..i];
        if Sub(stageHead, stageTail) >= STAGE_N {
          logDropped := Wrap(logDropped + 1);
        } else {
          stage[Slot(stageHead, STAGE_N)] := recs[i];
          stageHead := Wrap(stageHead + 1);
        }
      }
      assert recs[..|recs|] == recs;
    }

    /** imu_log_session_list: the surviving sessions, newest first. */
    method SessionList(max: nat) returns (out: seq<Summary>)
      requires Valid()
      ensures IsListing(out, Survivors(State(), MAX_SESSIONS), max)
    {
      var tmp, n := CollectSurvivors();
      SortNewestFirst(tmp, n);
      ghost var all := tmp[..n];
      out := tmp[..Min(n, max)];
      assert out == all[..Min(|all|, max)];
    }

    method CollectSurvivors() returns (tmp: array<Summary>, n: nat)
      requires Valid()
      ensures fresh(tmp) && n <= tmp.Length && tmp[..n] == Survivors(State(), MAX_SESSIONS)
    {
      tmp := new Summary[MAX_SESSIONS](_ => Summary(0, Header(0, 0, 0, 0, 0), 0));
      n := 0;
      var floor := FloorNow();
      for i := 0 to MAX_SESSIONS
        invariant 0 <= n <= i
        invariant tmp[..n] == Survivors(State(), i)
      {
        var found := Survivor(i, floor);
        if found.Some? {
          tmp[n] := found.value;
          n := n + 1;
        }
      }
    }

    /** What is listed of slot i. */
    method Survivor(i: nat, floor: u32) returns (found: Option<Summary>)
      requires Valid() && i < MAX_SESSIONS && floor == RingFloor(totalAbs)
      ensures found == if Listed(State(), i) then Some(SummaryOf(State(), i)) else None
    {
      var e := dir[i];
      if e.Free? {
        return None;
      }
      var count := if active && i == curSlot then curCount else e.count;
      var start := e.start;
      var end := Wrap(start + count);
      if end <= floor {
        return None;
      }
      if start < floor {
        start := floor;                 // clip to what survives
      }
      return Some(Summary(e.seqNo, e.header, Sub(end, start)));
    }

    /** Insertion sort on the session number, largest first. */
    static method SortNewestFirst(tmp: array<Summary>, n: nat)
      requires n <= tmp.Length
      modifies tmp
      ensures NewestFirst(tmp[..n])
      ensures multiset(tmp[..n]) == multiset(old(tmp[..n]))
    {
      ghost var all := tmp[..n];
      var i := 1;
      while i < n
        invariant 1 <= i && all == tmp[..n]
        invariant NewestFirst(all[..Min(i, n)])
        invariant multiset(all) == multiset(old(tmp[..n]))
      {
        SinkElement(tmp, i, n);
        SunkSorts(all, i);
        all := Sunk(all, i);
        i := i + 1;
      }
      assert all[..Min(i, n)] == all;
    }

    /** Swaps element i backwards past every smaller one. */
    static method SinkElement(tmp: array<Summary>, i: nat, n: nat)
      requires 0 < i < n <= tmp.Length
      modifies tmp
      ensures tmp[..n] == Sunk(old(tmp[..n]), i)
    {
      ghost var goal := Sunk(tmp[..n], i);
      var j := i;
      while j > 0 && tmp[j].seqNo > tmp[j - 1].seqNo
        invariant 0 <= j <= i && Sunk(tmp[..n], j) == goal
      {
        SwapBack(tmp, j, n);
        j := j - 1;
      }
    }

    static method SwapBack(tmp: array<Summary>, j: nat, n: nat)
      requires 0 < j < n <= tmp.Length
      modifies tmp
      ensures tmp[..n] == Swapped(old(tmp[..n]), j)
    {
      tmp[j], tmp[j - 1] := tmp[j - 1], tmp[j];
    }

    /** One flash read of `span` bytes at ring offset `off` into buf at `at`. */
    static method PhysRead(data: array<Byte>, off: nat, buf: array<Byte>, at: nat, span: nat)
      requires buf != data && off + span <= data.Length && at + span <= buf.Length
      modifies buf
      ensures buf[..] == Splice(old(buf[..]), at, old(data[..])[off..off + span])
    {
      forall k | 0 <= k < span {
        buf[at + k] := data[off + k];
      }
    }

    /** imu_log_read_session into `buf`; returns the number of bytes read. */
    method ReadSession(seqNo: u32, offset: u32, buf: array<Byte>, len: u32) returns (done: nat)
      requires Valid() && len <= buf.Length && buf != data
      modifies buf
      ensures Valid() && done == |LogSpec.ReadSession(old(State()), seqNo, offset, len)| <= buf.Length
      ensures buf[..] == LogSpec.ReadSession(old(State()), seqNo, offset, len) + old(buf[..])[done..]
    {
      var i := FindEntry(seqNo);
      if i == MAX_SESSIONS {
        return 0;
      }
      var start, end := SurvivingRange(i);
      done := ReadWindow(start, end, offset, buf, len);
    }

    /** First and last surviving record of the session in slot i. */
    method SurvivingRange(i: nat) returns (start: u32, end: u32)
      requires Valid() && i < MAX_SESSIONS && dir[i].Session?
      ensures start == LiveStart(State(), i) && end == LiveEnd(State(), i)
    {
      var e := dir[i];
      var count := if active && i == curSlot then curCount else e.count;
      var floor := FloorNow();
      start := e.start;
      end := Wrap(e.start + count);
      if start < floor {
        start := floor;
      }
    }

    /** Bytes [offset, offset + len) of the records [start, end). */
    method ReadWindow(start: u32, end: u32, offset: u32, buf: array<Byte>, len: u32) returns (done: nat)
      requires Valid() && len <= buf.Length && buf != data
      modifies buf
      ensures done == |ReadRange(old(data[..]), start, end, offset, len)| <= buf.Length
      ensures buf[..] == ReadRange(old(data[..]), start, end, offset, len) + old(buf[..])[done..]
    {
      done := 0;
      if end <= start {
        return;
      }
      var avail := Wrap((end - start) * REC_SIZE);
      if offset >= avail {
        return;
      }
      done := ReadBytes(data, Wrap(start * REC_SIZE + offset), buf, Min(len, avail - offset));
    }

    method FindEntry(seqNo: u32) returns (i: nat)
      requires Valid()
      ensures i == FindSlot(dir[..], seqNo, 0)
    {
      i := 0;
      while i < MAX_SESSIONS
        invariant i <= MAX_SESSIONS
        invariant FindSlot(dir[..], seqNo, 0) == FindSlot(dir[..], seqNo, i)
      {
        if dir[i].Session? && dir[i].seqNo == seqNo {
          return;
        }
        i := i + 1;
      }
    }

    /** The copy loop: one contiguous span at a time. */
    static method ReadBytes(data: array<Byte>, from: u32, buf: array<Byte>, len: nat) returns (done: nat)
      requires data.Length == DATA_CAPACITY && len <= buf.Length && buf != data
      modifies buf
      ensures done == len
      ensures buf[..] == ReadSpans(old(data[..]), from, len) + old(buf[..])[len..]
    {
      var absByte: u32, left: nat := from, len;
      ghost var ring, before := data[..], buf[..];
      ghost var whole := ReadSpans(ring, from, len);
      done := 0;
      while left > 0
        invariant data[..] == ring && |ring| == DATA_CAPACITY
        invariant Progress(ring, whole, before, buf[..], absByte, done, left)
      {
        absByte, done, left := CopySpan(data, whole, before, absByte, buf, done, left);
      }
      AllCopied(ring, whole, before, buf[..], absByte, done);
    }

    static method CopySpan(data: array<Byte>, ghost whole: seq<Byte>, ghost before: seq<Byte>, absByte: u32,
                           buf: array<Byte>, done: nat, left: nat)
      returns (absByte': u32, done': nat, left': nat)
      requires data.Length == DATA_CAPACITY && buf != data && left > 0
      requires Progress(data[..], whole, before, buf[..], absByte, done, left)
      modifies buf
      ensures left' < left
      ensures Progress(old(data[..]), whole, before, buf[..], absByte', done', left')
    {
      var ringOff := absByte % DATA_CAPACITY;
      var span := Min(left, DATA_CAPACITY - ringOff);
      ghost var ring, now := data[..], buf[..];
      assert done + span <= |now|;
      PhysRead(data, ringOff, buf, done, span);
      NextSpan(ring, whole, before, now, buf[..], absByte, done, left);
      absByte', done', left' := Wrap(absByte + span), done + span, left - span;
    }
  }

  /** `done` bytes of `whole` are in the buffer, which is otherwise as before, and the rest
      is what reading `left` bytes from `absByte` gives. */
  ghost predicate Progress(ring: seq<Byte>, whole: seq<Byte>, before: seq<Byte>, now: seq<Byte>,
                           absByte: u32, done: nat, left: nat)
    requires |ring| == DATA_CAPACITY
  {
    && done + left == |whole| <= |before|
    && whole[done..] == ReadSpans(ring, absByte, left)
    && now == whole[..done] + before[done..]
  }

  lemma AllCopied(ring: seq<Byte>, whole: seq<Byte>, before: seq<Byte>, now: seq<Byte>, absByte: u32, done: nat)
    requires |ring| == DATA_CAPACITY && Progress(ring, whole, before, now, absByte, done, 0)
    ensures done == |whole| && now == whole + before[done..]
  {
  }

  lemma NextSpan(ring: seq<Byte>, whole: seq<Byte>, before: seq<Byte>, now: seq<Byte>, after: seq<Byte>,
                 absByte: u32, done: nat, left: nat)
    requires |ring| == DATA_CAPACITY && left > 0
    requires Progress(ring, whole, before, now, absByte, done, left)
    requires var off := absByte % DATA_CAPACITY;
      after == Splice(now, done, ring[off..off + Min(left, DATA_CAPACITY - off)])
    ensures var span := Min(left, DATA_CAPACITY - absByte % DATA_CAPACITY);
      Progress(ring, whole, before, after, Wrap(absByte + span), done + span, left - span)
  {
    var off := absByte % DATA_CAPACITY;
    var span := Min(left, DATA_CAPACITY - off);
    var piece, rest := ring[off..off + span], ReadSpans(ring, Wrap(absByte + span), left - span);
    assert whole[done..] == piece + rest;
    Advance(whole, before, now, done, piece, rest);
  }

  /** Copying the next piece of `whole` moves the seam between what was read and what the
      buffer held before. */
  lemma Advance(whole: seq<Byte>, before: seq<Byte>, now: seq<Byte>, done: nat, piece: seq<Byte>, rest: seq<Byte>)
    requires |whole| <= |before| && done + |piece| <= |whole|
    requires whole[done..] == piece + rest && now == whole[..done] + before[done..]
    ensures whole[done + |piece|..] == rest
    ensures Splice(now, done, piece) == whole[..done + |piece|] + before[done + |piece|..]
  {
    assert whole[done..][..|piece|] == piece && whole[done..][|piece|..] == rest;
  }

  // ---- one pass of the insertion sort ------------------------------------------

  /** Newest first, but for the element at j, which is at least as new as what follows it. */
  predicate SortedExcept(s: seq<Summary>, j: nat) {
    && j < |s|
    && (forall a, b :: 0 <= a < b < |s| && a != j && b != j ==> s[a].seqNo >= s[b].seqNo)
    && (forall b :: j < b < |s| ==> s[j].seqNo >= s[b].seqNo)
  }

  function Swapped(s: seq<Summary>, j: nat): (after: seq<Summary>)
    requires 0 < j < |s|
    ensures |after| == |s|
  {
    s[j := s[j - 1]][j - 1 := s[j]]
  }

  lemma SwapKeepsElements(s: seq<Summary>, j: nat)
    requires 0 < j < |s|
    ensures multiset(Swapped(s, j)) == multiset(s)
  {
  }

  lemma SwapKeepsRest(s: seq<Summary>, j: nat)
    requires 0 < j < |s| && SortedExcept(s, j) && s[j].seqNo > s[j - 1].seqNo
    ensures SortedExcept(Swapped(s, j), j - 1)
  {
  }

  /** Element j swapped backwards past every smaller one. */
  function Sunk(s: seq<Summary>, j: nat): (after: seq<Summary>)
    requires j < |s|
    ensures |after| == |s|
    decreases j
  {
    if j > 0 && s[j].seqNo > s[j - 1].seqNo then Sunk(Swapped(s, j), j - 1) else s
  }

  lemma {:induction false} SunkKeeps(s: seq<Summary>, j: nat, m: nat)
    requires j < m <= |s| && SortedExcept(s[..m], j)
    ensures NewestFirst(Sunk(s, j)[..m])
    ensures multiset(Sunk(s, j)) == multiset(s)
    decreases j
  {
    if j > 0 && s[j].seqNo > s[j - 1].seqNo {
      SwapKeepsElements(s, j);
      SwapKeepsRest(s[..m], j);
      assert Swapped(s, j)[..m] == Swapped(s[..m], j);
      SunkKeeps(Swapped(s, j), j - 1, m);
    } else {
      SortedAtLast(s[..m], j);
    }
  }

  /** Sinking element i sorts one element more, and loses none. */
  lemma SunkSorts(s: seq<Summary>, i: nat)
    requires 0 < i < |s| && NewestFirst(s[..i])
    ensures NewestFirst(Sunk(s, i)[..i + 1])
    ensures multiset(Sunk(s, i)) == multiset(s)
  {
    assert s[..i + 1][..i] == s[..i];
    SortedBut(s[..i + 1], i);
    SunkKeeps(s, i, i + 1);
  }

  lemma SortedBut(s: seq<Summary>, i: nat)
    requires |s| == i + 1 && NewestFirst(s[..i])
    ensures SortedExcept(s, i)
  {
    assert forall a :: 0 <= a < i ==> s[a] == s[..i][a];
  }

  lemma SortedAtLast(s: seq<Summary>, j: nat)
    requires SortedExcept(s, j) && (j == 0 || s[j].seqNo <= s[j - 1].seqNo)
    ensures NewestFirst(s)
  {
  }
}
