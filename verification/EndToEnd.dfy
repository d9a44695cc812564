/** The pipeline of Pipeline.dfy and the flash log of LogRuns.dfy running together: each
    chunk the pump delivers is appended to the log as 16-byte records, each writer drain
    moves the same records in both.  Sessions follow one another, with erases and resets,
    also in the middle of a flash update, in between. */
module EndToEnd {
  import opened Words
  import opened Rings
  import opened LogSpec
  import R = LogRuns
  import LogInvariant
  import A = LogArchive
  import LogReads
  import C = CrossCore
  import P = Pipeline
  import opened Staging

  /** A 16-bit word as memory has it: two's complement, low byte first. */
  function Low(v: int): Byte {
    (v % C.SEQ16 % 256) as Byte
  }

  function High(v: int): Byte {
    (v % C.SEQ16 / 256) as Byte
  }

  function Unsigned(low: Byte, high: Byte): C.u16 {
    low as int + 256 * high as int
  }

  function Signed(low: Byte, high: Byte): C.Int16 {
    var u := Unsigned(low, high);
    if u < 0x8000 then u else u - C.SEQ16
  }

  lemma WordRoundTrip(v: int)
    ensures 0 <= v < C.SEQ16 ==> Unsigned(Low(v), High(v)) == v
    ensures -0x8000 <= v < 0x8000 ==> Signed(Low(v), High(v)) == v
  {
  }

  lemma ByteRoundTrip(low: Byte, high: Byte)
    ensures Low(Signed(low, high)) == Low(Unsigned(low, high)) == low
    ensures High(Signed(low, high)) == High(Unsigned(low, high)) == high
  {
  }

  /** struct imu_sample in memory: seven readings and seq16. */
  function Encode(x: C.Sample): (rec: Rec) {
    var v := x.values;
    [Low(v[0]), High(v[0]), Low(v[1]), High(v[1]), Low(v[2]), High(v[2]), Low(v[3]), High(v[3]),
     Low(v[4]), High(v[4]), Low(v[5]), High(v[5]), Low(v[6]), High(v[6]), Low(x.seq16), High(x.seq16)]
  }

  /** The host's reading of a record. */
  function Decode(rec: Rec): (x: C.Sample) {
    C.Sample([Signed(rec[0], rec[1]), Signed(rec[2], rec[3]), Signed(rec[4], rec[5]), Signed(rec[6], rec[7]),
              Signed(rec[8], rec[9]), Signed(rec[10], rec[11]), Signed(rec[12], rec[13])], Unsigned(rec[14], rec[15]))
  }

  /** Records and samples stand for each other one to one. */
  lemma DecodeEncode(x: C.Sample)
    ensures Decode(Encode(x)) == x
  {
    forall i | 0 <= i < 7
      ensures Signed(Low(x.values[i]), High(x.values[i])) == x.values[i]
    {
      WordRoundTrip(x.values[i]);
    }
    WordRoundTrip(x.seq16);
  }

  lemma EncodeDecode(rec: Rec)
    ensures Encode(Decode(rec)) == rec
  {
    forall i | 0 <= i < REC_SIZE - 1
      ensures Low(Signed(rec[i], rec[i + 1])) == Low(Unsigned(rec[i], rec[i + 1])) == rec[i]
      ensures High(Signed(rec[i], rec[i + 1])) == High(Unsigned(rec[i], rec[i + 1])) == rec[i + 1]
    {
      ByteRoundTrip(rec[i], rec[i + 1]);
    }
  }

  function EncodeAll(chunk: seq<C.Sample>): (recs: seq<Rec>)
    ensures |recs| == |chunk|
  {
    seq(|chunk|, i requires 0 <= i < |chunk| => Encode(chunk[i]))
  }

  ghost predicate Within(positions: seq<nat>, n: nat) {
    forall k :: 0 <= k < |positions| ==> positions[k] < n
  }

  /** The records of the published samples at the given positions. */
  ghost function Recs(published: seq<C.Sample>, positions: seq<nat>): (recs: seq<Rec>)
    requires Within(positions, |published|)
    ensures |recs| == |positions|
  {
    seq(|positions|, k requires 0 <= k < |positions| => Encode(published[positions[k]]))
  }

  /** What a finished session holds: the first n of the samples its pipeline stored. */
  datatype Chapter = Chapter(pipe: P.Pipe, n: nat)

  /** The log, the pipeline of the running session, and the finished sessions. */
  datatype System = System(w: R.World, p: P.Pipe, past: map<nat, Chapter>)

  datatype Joint =
    | Core(step: C.Step)
    | Test
    | Drain
    | Start(header: Header, writeOk: bool)
    | Stop
    | Erase
    | Reset(cut: R.Cut, fw: u32, ring: seq<C.Sample>)   // both cores restart, the shared ring holds anything

  ghost predicate Ready(s: System) {
    && Shaped(s.w.log) && |s.p.core.ring| == C.RING_N
    && |s.p.staged| <= STAGE_N && DrainCount(s.w.log.ram) <= |s.p.staged|
  }

  /** The only runs left out are those in which a push meets the wrap hazard of the staging
      ring. */
  ghost predicate CanStep(s: System, j: Joint)
    requires Ready(s)
  {
    match j
    case Core(step) =>
      && C.Enabled(s.p.core, step)
      && (step.Release? && s.p.active ==> NoHazard(s.w.log.ram.head, s.w.log.ram.tail, |s.p.staged|, s.p.core.consumer.n))
    case Test => R.Enabled(s.w, R.WriterTest)
    case Drain => R.Enabled(s.w, R.WriterDrain)
    case Start(header, writeOk) => R.Enabled(s.w, R.StartSession(header, writeOk))
    case Stop => true
    case Erase => R.Enabled(s.w, R.EraseAll)
    case Reset(cut, fw, ring) => R.Enabled(s.w, R.Reset(cut, fw)) && |ring| == C.RING_N
  }

  /** The event of the log in a joint step; the sensor side alone makes none. */
  ghost function LogStep(s: System, j: Joint): R.World
    requires Ready(s) && CanStep(s, j)
  {
    match j
    case Core(step) =>
      if step.Release? then R.Next(s.w, R.AppendRecs(EncodeAll(s.p.core.consumer.chunk))) else s.w
    case Test => R.Next(s.w, R.WriterTest)
    case Drain => R.Next(s.w, R.WriterDrain)
    case Start(header, writeOk) => R.Next(s.w, R.StartSession(header, writeOk))
    case Stop => R.Next(s.w, R.StopSession)
    case Erase => R.Next(s.w, R.EraseAll)
    case Reset(cut, fw, _) => R.Next(s.w, R.Reset(cut, fw))
  }

  /** The pipeline once the pending batch is in. */
  ghost function AfterBatch(s: System): P.Pipe
    requires Ready(s)
  {
    P.Moved(s.p, P.Drain(DrainCount(s.w.log.ram)))
  }

  /** A refused start discards what is staged, like an accepted one. */
  ghost function PipeStep(s: System, j: Joint): P.Pipe
    requires Ready(s) && CanStep(s, j)
  {
    match j
    case Core(step) => P.Moved(s.p, P.Core(step))
    case Drain => AfterBatch(s)
    case Start(_, writeOk) =>
      if s.p.active then s.p
      else if writeOk then P.Moved(s.p, P.StartSession) else P.Moved(s.p, P.Drain(|s.p.staged|))
    case Stop => if s.p.active then P.Moved(s.p, P.StopSession) else s.p
    case Reset(_, _, ring) => P.InitPipe(ring)
    case _ => s.p
  }

  /** The finished sessions when the running one ends with pipeline p. */
  ghost function Closing(s: System, p: P.Pipe): map<nat, Chapter> {
    if s.p.active then s.past[s.w.log.ram.curSeq as nat := Chapter(p, |p.stored|)] else s.past
  }

  /** Of each finished session, what lies before record `total` of the history. */
  ghost function CutPast(past: map<nat, Chapter>, starts: map<nat, nat>, total: nat): map<nat, Chapter> {
    map k | k in past && k in starts :: Chapter(past[k].pipe, Min(past[k].n, Max(0, total - starts[k])))
  }

  ghost function PastStep(s: System, j: Joint): map<nat, Chapter>
    requires Ready(s) && CanStep(s, j)
  {
    match j
    case Stop => Closing(s, s.p)
    case Erase => map[]
    case Reset(cut, _, _) =>
      CutPast(Closing(s, if cut.DuringRefresh? then AfterBatch(s) else s.p), s.w.starts, LogStep(s, j).log.ram.total)
    case _ => s.past
  }

  ghost function Next(s: System, j: Joint): System
    requires Ready(s) && CanStep(s, j)
  {
    System(LogStep(s, j), PipeStep(s, j), PastStep(s, j))
  }

  // ---- the coupling ------------------------------------------------------------------

  /** The bytes of a finished session are the encoded samples of its chapter. */
  ghost predicate ChapterOk(ch: Chapter, bytes: seq<Byte>) {
    && P.PipeInv(ch.pipe) && Within(ch.pipe.stored, |ch.pipe.core.published|)
    && ch.n <= |ch.pipe.stored|
    && bytes == Flatten(Recs(ch.pipe.core.published, ch.pipe.stored)[..ch.n])
  }

  ghost predicate PastAgrees(sessions: map<nat, seq<Byte>>, running: Option<nat>, past: map<nat, Chapter>) {
    forall k :: k in sessions && Some(k) != running ==> k in past && ChapterOk(past[k], sessions[k])
  }

  /** The staging ring holds the encoded staged samples, the running session the encoded
      stored ones. */
  ghost predicate Agree(w: R.World, p: P.Pipe) {
    && Shaped(w.log)
    && w.log.ram.active == p.active
    && |p.staged| <= STAGE_N
    && Within(p.staged, |p.core.published|) && Within(p.stored, |p.core.published|)
    && Staged(w.log.ram, Recs(p.core.published, p.staged))
    && (p.active ==>
          && w.log.ram.curSeq in w.sessions
          && w.sessions[w.log.ram.curSeq] == Flatten(Recs(p.core.published, p.stored)))
  }

  /** log_dropped counts the samples offered to the running session and not kept. */
  ghost predicate DropsAgree(w: R.World, p: P.Pipe) {
    w.log.ram.active && p.active ==> w.log.ram.dropped == Wrap(|p.dropped|)
  }

  ghost predicate Coupled(s: System) {
    && R.Inv(s.w) && A.Archive(s.w) && P.PipeInv(s.p)
    && Agree(s.w, s.p)
    && PastAgrees(s.w.sessions, A.RunningSession(s.w.log), s.past)
  }

  lemma StagedCount(w: R.World, p: P.Pipe)
    requires Agree(w, p)
    ensures Sub(w.log.ram.head, w.log.ram.tail) == |p.staged|
    ensures DrainCount(w.log.ram) <= |p.staged|
  {
  }

  // ---- preservation ----------------------------------------------------------------

  lemma FlattenConcat(a: seq<Rec>, b: seq<Rec>)
    ensures Flatten(a + b) == Flatten(a) + Flatten(b)
  {
    var whole, parts := Flatten(a + b), Flatten(a) + Flatten(b);
    forall k | 0 <= k < |whole|
      ensures whole[k] == parts[k]
    {
      if k >= REC_SIZE * |a| {
        var r := k - REC_SIZE * |a|;
        assert k / REC_SIZE == |a| + r / REC_SIZE && k % REC_SIZE == r % REC_SIZE;
      }
    }
  }

  lemma RecsConcat(published: seq<C.Sample>, a: seq<nat>, b: seq<nat>)
    requires Within(a, |published|) && Within(b, |published|)
    ensures Within(a + b, |published|)
    ensures Recs(published, a + b) == Recs(published, a) + Recs(published, b)
  {
  }

  lemma RecsGrow(published: seq<C.Sample>, more: seq<C.Sample>, positions: seq<nat>)
    requires Within(positions, |published|)
    ensures Recs(published + more, positions) == Recs(published, positions)
  {
  }

  /** The delivered chunk, encoded, is the records of the positions it covers. */
  lemma ChunkRecs(published: seq<C.Sample>, from: nat, n: nat, k: nat)
    requires k <= n && from + n <= |published|
    ensures EncodeAll(published[from..from + n])[..k] == Recs(published, CountUp(from, k))
  {
  }

  lemma CoreGrows(s: C.State, step: C.Step)
    requires C.Inv(s) && C.Enabled(s, step)
    ensures s.published <= C.Next(s, step).published
  {
  }

  /** Appending a delivered chunk stages the positions the pipeline stages. */
  lemma ChunkIsStaged(r: Ram, published: seq<C.Sample>, staged: seq<nat>, from: nat, n: nat)
    requires Within(staged, |published|) && from + n <= |published|
    requires Staged(r, Recs(published, staged)) && |staged| <= STAGE_N && NoHazard(r.head, r.tail, |staged|, n)
    ensures var k := Fitting(|staged|, n);
      && Within(staged + CountUp(from, k), |published|)
      && Staged(AppendAll(r, EncodeAll(published[from..from + n])), Recs(published, staged + CountUp(from, k)))
  {
    var k := Fitting(|staged|, n);
    AppendStagesPrefix(r, Recs(published, staged), EncodeAll(published[from..from + n]));
    ChunkRecs(published, from, n, k);
    RecsConcat(published, staged, CountUp(from, k));
  }

  lemma ReleasedChunk(s: C.State)
    requires C.Inv(s) && C.Enabled(s, C.Release)
    ensures |s.delivered| + s.consumer.n <= |s.published|
    ensures s.consumer.chunk == s.published[|s.delivered|..|s.delivered| + s.consumer.n]
  {
  }

  lemma DrainedRecs(published: seq<C.Sample>, staged: seq<nat>, stored: seq<nat>, n: nat)
    requires Within(staged, |published|) && Within(stored, |published|) && n <= |staged|
    ensures Within(staged[n..], |published|) && Within(stored + staged[..n], |published|)
    ensures Recs(published, staged)[n..] == Recs(published, staged[n..])
    ensures Flatten(Recs(published, stored + staged[..n]))
      == Flatten(Recs(published, stored)) + Flatten(Recs(published, staged)[..n])
  {
    RecsConcat(published, stored, staged[..n]);
    assert Recs(published, staged)[..n] == Recs(published, staged[..n]);
    FlattenConcat(Recs(published, stored), Recs(published, staged[..n]));
  }

  lemma CoreAgrees(s: System, step: C.Step)
    requires Agree(s.w, s.p) && C.Inv(s.p.core) && Ready(s) && CanStep(s, Core(step)) && !(step.Release? && s.p.active)
    ensures Agree(LogStep(s, Core(step)), P.Moved(s.p, P.Core(step)))
  {
    var p := s.p;
    var grown := C.Next(p.core, step).published;
    CoreGrows(p.core, step);
    var more := grown[|p.core.published|..];
    assert grown == p.core.published + more;
    RecsGrow(p.core.published, more, p.staged);
    RecsGrow(p.core.published, more, p.stored);
  }

  /** What the release of a chunk changes in the pipeline. */
  lemma ReleasedPipe(p: P.Pipe)
    requires |p.core.ring| == C.RING_N && |p.staged| <= STAGE_N && C.Enabled(p.core, C.Release) && p.active
    ensures var d := P.Moved(p, P.Core(C.Release));
      && d.active && d.stored == p.stored && d.core.published == p.core.published
      && d.staged == p.staged + CountUp(|p.core.delivered|, Fitting(|p.staged|, p.core.consumer.n))
      && |d.staged| <= STAGE_N
  {
  }

  /** And in the log. */
  lemma ReleasedLog(w: R.World, recs: seq<Rec>)
    requires Shaped(w.log) && w.log.ram.active && Sub(w.log.ram.head, w.log.ram.tail) <= STAGE_N
    ensures var d := R.Next(w, R.AppendRecs(recs));
      && Shaped(d.log) && d.log.ram == AppendAll(w.log.ram, recs) && d.sessions == w.sessions
      && d.log.ram.active && d.log.ram.curSeq == w.log.ram.curSeq
  {
    LogInvariant.AppendTouchesStagingOnly(w.log.ram, recs);
  }

  lemma AgreeWith(w: R.World, p: P.Pipe, d: R.World, q: P.Pipe)
    requires Agree(w, p) && p.active && q.active && q.stored == p.stored && q.core.published == p.core.published
    requires |q.staged| <= STAGE_N && Within(q.staged, |q.core.published|) && Shaped(d.log) && d.log.ram.active
    requires d.sessions == w.sessions && d.log.ram.curSeq == w.log.ram.curSeq
    requires Staged(d.log.ram, Recs(q.core.published, q.staged))
    ensures Agree(d, q)
  {
  }

  /** The chunk on its way from the pump to the staging ring. */
  lemma ReleaseStages(r: Ram, p: P.Pipe)
    requires |p.core.ring| == C.RING_N && C.Enabled(p.core, C.Release) && p.active && |p.staged| <= STAGE_N
    requires var from, n := |p.core.delivered|, p.core.consumer.n;
      from + n <= |p.core.published| && p.core.consumer.chunk == p.core.published[from..from + n]
    requires Within(p.staged, |p.core.published|) && Staged(r, Recs(p.core.published, p.staged))
    requires NoHazard(r.head, r.tail, |p.staged|, p.core.consumer.n)
    ensures var d := P.Moved(p, P.Core(C.Release));
      && d.active && d.stored == p.stored && d.core.published == p.core.published && |d.staged| <= STAGE_N
      && Within(d.staged, |d.core.published|)
      && Staged(AppendAll(r, EncodeAll(p.core.consumer.chunk)), Recs(d.core.published, d.staged))
  {
    ReleasedPipe(p);
    ChunkIsStaged(r, p.core.published, p.staged, |p.core.delivered|, p.core.consumer.n);
  }

  lemma ReleaseAgrees(s: System)
    requires Agree(s.w, s.p) && C.Inv(s.p.core) && Ready(s) && CanStep(s, Core(C.Release)) && s.p.active
    ensures Agree(LogStep(s, Core(C.Release)), P.Moved(s.p, P.Core(C.Release)))
  {
    StagedCount(s.w, s.p);
    ReleasedLog(s.w, EncodeAll(s.p.core.consumer.chunk));
    ReleasedChunk(s.p.core);
    ReleaseStages(s.w.log.ram, s.p);
    AgreeWith(s.w, s.p, LogStep(s, Core(C.Release)), P.Moved(s.p, P.Core(C.Release)));
  }

  /** Appending leaves sessions and their numbers alone. */
  lemma AppendKeepsSessions(w: R.World, recs: seq<Rec>)
    requires R.Inv(w)
    ensures var d := R.Next(w, R.AppendRecs(recs));
      d.sessions == w.sessions && A.RunningSession(d.log) == A.RunningSession(w.log)
  {
    if w.log.ram.active { LogInvariant.AppendTouchesStagingOnly(w.log.ram, recs); }
  }

  lemma CoreKeeps(s: System, step: C.Step)
    requires Coupled(s) && Ready(s) && CanStep(s, Core(step))
    ensures Coupled(Next(s, Core(step)))
  {
    P.MoveKeeps(s.p, P.Core(step));
    if step.Release? {
      var recs := EncodeAll(s.p.core.consumer.chunk);
      LogInvariant.AppendKeeps(s.w, recs);
      A.ArchiveKeeps(s.w, R.AppendRecs(recs));
      AppendKeepsSessions(s.w, recs);
    }
    if step.Release? && s.p.active {
      ReleaseAgrees(s);
    } else {
      CoreAgrees(s, step);
    }
  }

  /** The batch of a drain is what the pipeline moves into the session. */
  lemma BatchAgrees(w: R.World, p: P.Pipe)
    requires Agree(w, p) && |p.core.ring| == C.RING_N
    ensures var n, m := DrainCount(w.log.ram), WroteBatch(w.log);
      && n <= |p.staged| && Within(p.staged[n..], |p.core.published|) && Within(p.stored + p.staged[..n], |p.core.published|)
      && Staged(m.ram, Recs(p.core.published, p.staged[n..]))
      && (p.active ==>
            && w.log.ram.curSeq in R.GrownSessions(w)
            && R.GrownSessions(w)[w.log.ram.curSeq] == Flatten(Recs(p.core.published, p.stored + p.staged[..n])))
  {
    StagedCount(w, p);
    DrainTakesOldest(w.log, Recs(p.core.published, p.staged));
    DrainedRecs(p.core.published, p.staged, p.stored, DrainCount(w.log.ram));
  }

  /** A drain moves the tail and the counters; the session number stays. */
  lemma DrainMoves(s: Log)
    requires Shaped(s)
    ensures var d, m := LogSpec.Drain(s), WroteBatch(s);
      && d.ram.stage == m.ram.stage && d.ram.head == m.ram.head && d.ram.tail == m.ram.tail
      && d.ram.active == s.ram.active && d.ram.curSeq == s.ram.curSeq
  {
    if DrainCount(s.ram) == 0 {
      LogInvariant.EmptyDrain(s);
    }
  }

  lemma GrownElsewhere(w: R.World, past: map<nat, Chapter>)
    requires Shaped(w.log) && PastAgrees(w.sessions, A.RunningSession(w.log), past)
    ensures PastAgrees(R.GrownSessions(w), A.RunningSession(w.log), past)
  {
  }

  lemma DrainKeeps(s: System)
    requires Coupled(s) && Ready(s) && CanStep(s, Drain)
    ensures Coupled(Next(s, Drain))
  {
    P.MoveKeeps(s.p, P.Drain(DrainCount(s.w.log.ram)));
    LogInvariant.NextKeeps(s.w, R.WriterDrain);
    A.ArchiveKeeps(s.w, R.WriterDrain);
    BatchAgrees(s.w, s.p);
    DrainMoves(s.w.log);
    GrownElsewhere(s.w, s.past);
  }

  lemma StartAgrees(s: System, header: Header, writeOk: bool)
    requires Agree(s.w, s.p) && Ready(s) && CanStep(s, Start(header, writeOk))
    ensures Agree(LogStep(s, Start(header, writeOk)), PipeStep(s, Start(header, writeOk)))
  {
    EmptyHolds(s.w.log.ram.stage, s.w.log.ram.head);
    assert Recs(s.p.core.published, []) == [] && Flatten([]) == [];
  }

  lemma StartKeeps(s: System, header: Header, writeOk: bool)
    requires Coupled(s) && Ready(s) && CanStep(s, Start(header, writeOk))
    ensures Coupled(Next(s, Start(header, writeOk)))
  {
    LogInvariant.StartKeeps(s.w, header, writeOk);
    A.ArchiveStart(s.w, header, writeOk);
    StartAgrees(s, header, writeOk);
    if !s.p.active {
      P.MoveKeeps(s.p, if writeOk then P.StartSession else P.Drain(|s.p.staged|));
    }
  }

  /** The running session becomes a finished one. */
  lemma SessionCloses(sessions: map<nat, seq<Byte>>, past: map<nat, Chapter>, k: nat, p: P.Pipe)
    requires PastAgrees(sessions, Some(k), past) && k in sessions && P.PipeInv(p)
    requires Within(p.stored, |p.core.published|) && sessions[k] == Flatten(Recs(p.core.published, p.stored))
    ensures PastAgrees(sessions, None, past[k := Chapter(p, |p.stored|)])
  {
    var recs := Recs(p.core.published, p.stored);
    assert recs[..|p.stored|] == recs;
  }

  lemma StopAgrees(w: R.World, p: P.Pipe)
    requires Agree(w, p) && p.active
    ensures Agree(R.Next(w, R.StopSession), p.(active := false))
  {
  }

  lemma StopFinishes(w: R.World)
    requires Shaped(w.log)
    ensures var d := R.Next(w, R.StopSession);
      Shaped(d.log) && d.sessions == w.sessions && A.RunningSession(d.log) == None && (!w.log.ram.active ==> d == w)
  {
  }

  lemma StopRunning(s: System)
    requires Coupled(s) && Ready(s) && s.p.active
    ensures Agree(R.Next(s.w, R.StopSession), s.p.(active := false)) && P.PipeInv(s.p.(active := false))
    ensures PastAgrees(s.w.sessions, None, Closing(s, s.p))
  {
    P.MoveKeeps(s.p, P.StopSession);
    StopAgrees(s.w, s.p);
    SessionCloses(s.w.sessions, s.past, s.w.log.ram.curSeq, s.p);
  }

  lemma StopLog(w: R.World)
    requires R.Inv(w) && A.Archive(w)
    ensures R.Inv(R.Next(w, R.StopSession)) && A.Archive(R.Next(w, R.StopSession))
  {
    LogInvariant.StopKeeps(w);
    A.ArchiveStop(w);
  }

  lemma CoupledFrom(w: R.World, p: P.Pipe, past: map<nat, Chapter>)
    requires R.Inv(w) && A.Archive(w) && P.PipeInv(p) && Agree(w, p) && PastAgrees(w.sessions, A.RunningSession(w.log), past)
    ensures Coupled(System(w, p, past))
  {
  }

  lemma StopStep(s: System)
    requires Ready(s)
    ensures Next(s, Stop) == System(R.Next(s.w, R.StopSession), s.p.(active := false), Closing(s, s.p))
  {
  }

  lemma StopKeeps(s: System)
    requires Coupled(s) && Ready(s)
    ensures Coupled(Next(s, Stop))
  {
    StopFinishes(s.w);
    StopStep(s);
    if s.p.active {
      StopLog(s.w);
      StopRunning(s);
      CoupledFrom(R.Next(s.w, R.StopSession), s.p.(active := false), Closing(s, s.p));
    }
  }

  lemma EraseKeeps(s: System)
    requires Coupled(s) && Ready(s) && CanStep(s, Erase)
    ensures Coupled(Next(s, Erase))
  {
    LogInvariant.EraseKeeps(s.w);
    A.ArchiveKeeps(s.w, R.EraseAll);
  }

  // ---- resets --------------------------------------------------------------------------

  lemma FlattenPrefix(recs: seq<Rec>, n: nat)
    requires n <= |recs|
    ensures Flatten(recs[..n]) == Flatten(recs)[..REC_SIZE * n]
  {
    var part := Flatten(recs[..n]);
    forall k | 0 <= k < |part|
      ensures part[k] == Flatten(recs)[k]
    {
      assert k / REC_SIZE < n;
    }
  }

  lemma ChapterCut(ch: Chapter, bytes: seq<Byte>, m: nat)
    requires ChapterOk(ch, bytes)
    ensures ChapterOk(Chapter(ch.pipe, Min(ch.n, m)), R.Prefix(bytes, REC_SIZE * m))
  {
    var recs := Recs(ch.pipe.core.published, ch.pipe.stored);
    if m < ch.n {
      FlattenPrefix(recs[..ch.n], m);
      assert recs[..ch.n][..m] == recs[..m];
    }
  }

  lemma PastCut(sessions: map<nat, seq<Byte>>, starts: map<nat, nat>, past: map<nat, Chapter>, total: nat)
    requires PastAgrees(sessions, None, past)
    ensures PastAgrees(R.CutSessions(sessions, starts, total), None, CutPast(past, starts, total))
  {
    var cut := R.CutSessions(sessions, starts, total);
    forall k | k in cut
      ensures k in CutPast(past, starts, total) && ChapterOk(CutPast(past, starts, total)[k], cut[k])
    {
      ChapterCut(past[k], sessions[k], Max(0, total - starts[k]));
    }
  }

  /** Every session is finished by a reset, the running one with what was in by then. */
  lemma ResetCloses(s: System, cut: R.Cut)
    requires Coupled(s) && Ready(s) && R.CutPossible(s.w, cut)
    ensures PastAgrees(if cut.DuringRefresh? then R.GrownSessions(s.w) else s.w.sessions, None,
                       Closing(s, if cut.DuringRefresh? then AfterBatch(s) else s.p))
  {
    if cut.DuringRefresh? {
      P.MoveKeeps(s.p, P.Drain(DrainCount(s.w.log.ram)));
      BatchAgrees(s.w, s.p);
      GrownElsewhere(s.w, s.past);
      if s.p.active {
        SessionCloses(R.GrownSessions(s.w), s.past, s.w.log.ram.curSeq, AfterBatch(s));
      }
    } else if s.p.active {
      SessionCloses(s.w.sessions, s.past, s.w.log.ram.curSeq, s.p);
    }
  }

  lemma FreshAgrees(w: R.World, ring: seq<C.Sample>)
    requires Shaped(w.log) && !w.log.ram.active && w.log.ram.head == w.log.ram.tail && |ring| == C.RING_N
    ensures Agree(w, P.InitPipe(ring)) && P.PipeInv(P.InitPipe(ring))
  {
    C.InitInv(ring);
    EmptyHolds(w.log.ram.stage, w.log.ram.head);
    assert Recs([], []) == [];
  }

  lemma ResetSessions(w: R.World, cut: R.Cut, fw: u32)
    requires Shaped(w.log) && R.CutPossible(w, cut)
    ensures var d := R.AfterReset(w, cut, fw);
      && !d.log.ram.active && d.log.ram.head == d.log.ram.tail
      && (d.sessions == map[] || d.sessions == R.CutSessions(if cut.DuringRefresh? then R.GrownSessions(w) else w.sessions,
                                                             w.starts, d.log.ram.total))
  {
  }

  lemma ResetKeeps(s: System, cut: R.Cut, fw: u32, ring: seq<C.Sample>)
    requires Coupled(s) && Ready(s) && CanStep(s, Reset(cut, fw, ring))
    ensures Coupled(Next(s, Reset(cut, fw, ring)))
  {
    var d := R.AfterReset(s.w, cut, fw);
    LogInvariant.ResetKeeps(s.w, cut, fw);
    A.ArchiveReset(s.w, cut, fw);
    ResetSessions(s.w, cut, fw);
    FreshAgrees(d, ring);
    ResetCloses(s, cut);
    PastCut(if cut.DuringRefresh? then R.GrownSessions(s.w) else s.w.sessions, s.w.starts,
            Closing(s, if cut.DuringRefresh? then AfterBatch(s) else s.p), d.log.ram.total);
  }

  // ---- all runs ------------------------------------------------------------------------

  lemma CoupledReady(s: System)
    requires Coupled(s)
    ensures Ready(s)
  {
    StagedCount(s.w, s.p);
  }

  lemma TestKeeps(s: System)
    requires Coupled(s) && Ready(s) && CanStep(s, Test)
    ensures Coupled(Next(s, Test))
  {
    LogInvariant.NextKeeps(s.w, R.WriterTest);
    A.ArchiveKeeps(s.w, R.WriterTest);
  }

  lemma StepKeeps(s: System, j: Joint)
    requires Coupled(s) && Ready(s) && CanStep(s, j)
    ensures Coupled(Next(s, j))
  {
    match j
    case Core(step) => CoreKeeps(s, step);
    case Test => TestKeeps(s);
    case Drain => DrainKeeps(s);
    case Start(header, writeOk) => StartKeeps(s, header, writeOk);
    case Stop => StopKeeps(s);
    case Erase => EraseKeeps(s);
    case Reset(cut, fw, ring) => ResetKeeps(s, cut, fw, ring);
  }

  // ---- the drop counter --------------------------------------------------------------------

  lemma MoreDropped(p: P.Pipe, more: nat)
    requires |p.core.ring| == C.RING_N && C.Enabled(p.core, C.Release) && p.active && P.Kept(p)
    requires |p.staged| <= STAGE_N && p.upTo == |p.core.delivered|
    requires more == p.core.consumer.n - Fitting(|p.staged|, p.core.consumer.n)
    ensures |P.Moved(p, P.Core(C.Release)).dropped| == |p.dropped| + more
  {
    P.OfferDrops(p, p.core.consumer.n);
  }

  lemma AppendCountsDrops(r: Ram, q: seq<Rec>, recs: seq<Rec>, before: nat, more: nat)
    requires Staged(r, q) && NoHazard(r.head, r.tail, |q|, |recs|)
    requires r.dropped == Wrap(before) && more == |recs| - Fitting(|q|, |recs|)
    ensures AppendAll(r, recs).dropped == Wrap(before + more)
  {
    AppendStagesPrefix(r, q, recs);
    WrapAdd(before, more);
  }

  lemma DrainKeepsCount(w: R.World)
    requires Shaped(w.log)
    ensures R.Drained(w).log.ram.dropped == w.log.ram.dropped
  {
    if DrainCount(w.log.ram) == 0 {
      LogInvariant.EmptyDrain(w.log);
    } else {
      LogInvariant.RefreshTouchesDirectoryOnly(WroteBatch(w.log));
    }
  }

  lemma ChunkSize(core: C.State)
    requires C.Inv(core) && C.Enabled(core, C.Release)
    ensures |EncodeAll(core.consumer.chunk)| == core.consumer.n
  {
  }

  lemma AppendedDrops(w: R.World, p: P.Pipe, recs: seq<Rec>, more: nat)
    requires Agree(w, p) && p.active && DropsAgree(w, p)
    requires NoHazard(w.log.ram.head, w.log.ram.tail, |p.staged|, |recs|) && more == |recs| - Fitting(|p.staged|, |recs|)
    ensures R.Next(w, R.AppendRecs(recs)).log.ram.dropped == Wrap(|p.dropped| + more)
  {
    StagedCount(w, p);
    AppendCountsDrops(w.log.ram, Recs(p.core.published, p.staged), recs, |p.dropped|, more);
    ReleasedLog(w, recs);
  }

  /** What the drop count needs to know of a released chunk. */
  lemma ReleaseFacts(p: P.Pipe) returns (recs: seq<Rec>, more: nat)
    requires P.PipeInv(p) && C.Enabled(p.core, C.Release) && p.active
    ensures recs == EncodeAll(p.core.consumer.chunk) && |recs| == p.core.consumer.n
    ensures more == |recs| - Fitting(|p.staged|, |recs|) && |P.Moved(p, P.Core(C.Release)).dropped| == |p.dropped| + more
  {
    recs := EncodeAll(p.core.consumer.chunk);
    ChunkSize(p.core);
    more := |recs| - Fitting(|p.staged|, |recs|);
    MoreDropped(p, more);
  }

  lemma CountsAgree(d: R.World, q: P.Pipe, count: nat)
    requires d.log.ram.dropped == Wrap(count) && |q.dropped| == count
    ensures DropsAgree(d, q)
  {
  }

  lemma ReleaseLogStep(s: System, recs: seq<Rec>)
    requires Ready(s) && CanStep(s, Core(C.Release)) && recs == EncodeAll(s.p.core.consumer.chunk)
    ensures LogStep(s, Core(C.Release)) == R.Next(s.w, R.AppendRecs(recs))
  {
  }

  lemma ReleaseCounts(s: System, recs: seq<Rec>, more: nat)
    requires Agree(s.w, s.p) && Ready(s) && CanStep(s, Core(C.Release)) && DropsAgree(s.w, s.p) && s.p.active
    requires recs == EncodeAll(s.p.core.consumer.chunk) && |recs| == s.p.core.consumer.n
    requires more == |recs| - Fitting(|s.p.staged|, |recs|)
    requires |P.Moved(s.p, P.Core(C.Release)).dropped| == |s.p.dropped| + more
    ensures DropsAgree(LogStep(s, Core(C.Release)), P.Moved(s.p, P.Core(C.Release)))
  {
    AppendedDrops(s.w, s.p, recs, more);
    ReleaseLogStep(s, recs);
    CountsAgree(LogStep(s, Core(C.Release)), P.Moved(s.p, P.Core(C.Release)), |s.p.dropped| + more);
  }

  lemma ReleaseKeepsDrops(s: System)
    requires Agree(s.w, s.p) && P.PipeInv(s.p) && Ready(s) && CanStep(s, Core(C.Release)) && DropsAgree(s.w, s.p) && s.p.active
    ensures DropsAgree(LogStep(s, Core(C.Release)), P.Moved(s.p, P.Core(C.Release)))
  {
    var recs, more := ReleaseFacts(s.p);
    ReleaseCounts(s, recs, more);
  }

  lemma CoreKeepsDrops(s: System, step: C.Step)
    requires Coupled(s) && Ready(s) && CanStep(s, Core(step)) && DropsAgree(s.w, s.p)
    ensures DropsAgree(LogStep(s, Core(step)), P.Moved(s.p, P.Core(step)))
  {
    if step.Release? && s.p.active {
      ReleaseKeepsDrops(s);
    }
  }

  lemma StartKeepsDrops(s: System, header: Header, writeOk: bool)
    requires Agree(s.w, s.p) && Ready(s) && CanStep(s, Start(header, writeOk)) && DropsAgree(s.w, s.p)
    ensures DropsAgree(LogStep(s, Start(header, writeOk)), PipeStep(s, Start(header, writeOk)))
  {
  }

  lemma DrainDrops(s: System)
    requires Ready(s) && CanStep(s, Drain) && DropsAgree(s.w, s.p)
    ensures DropsAgree(LogStep(s, Drain), PipeStep(s, Drain))
  {
    DrainKeepsCount(s.w);
  }

  lemma OtherDrops(s: System, j: Joint)
    requires Ready(s) && CanStep(s, j) && DropsAgree(s.w, s.p) && (j.Test? || j.Stop? || j.Erase? || j.Reset?)
    ensures DropsAgree(LogStep(s, j), PipeStep(s, j))
  {
  }

  lemma DropsKeep(s: System, j: Joint)
    requires Coupled(s) && Ready(s) && CanStep(s, j) && DropsAgree(s.w, s.p)
    ensures DropsAgree(LogStep(s, j), PipeStep(s, j))
  {
    match j
    case Core(step) => CoreKeepsDrops(s, step);
    case Start(header, writeOk) => StartKeepsDrops(s, header, writeOk);
    case Drain => DrainDrops(s);
    case _ => OtherDrops(s, j);
  }

  lemma {:induction false} RunsKeepDrops(s: System, steps: seq<Joint>, to: System)
    requires Coupled(s) && DropsAgree(s.w, s.p) && IsJointRun(s, steps, to)
    ensures Coupled(to) && DropsAgree(to.w, to.p)
    decreases |steps|
  {
    if steps != [] {
      StepKeeps(s, steps[0]);
      DropsKeep(s, steps[0]);
      RunsKeepDrops(Next(s, steps[0]), steps[1..], to);
    }
  }

  ghost predicate IsJointRun(s: System, steps: seq<Joint>, to: System)
    decreases |steps|
  {
    if steps == [] then s == to
    else Ready(s) && CanStep(s, steps[0]) && IsJointRun(Next(s, steps[0]), steps[1..], to)
  }

  lemma {:induction false} JointRunsKeep(s: System, steps: seq<Joint>, to: System)
    requires Coupled(s) && IsJointRun(s, steps, to)
    ensures Coupled(to)
    decreases |steps|
  {
    if steps != [] {
      StepKeeps(s, steps[0]);
      JointRunsKeep(Next(s, steps[0]), steps[1..], to);
    }
  }

  /** First boot: blank log, empty rings. */
  ghost function Init(data: seq<Byte>, fw: u32, ring: seq<C.Sample>): System
    requires |data| == DATA_CAPACITY
  {
    System(LogInvariant.Factory(data, fw), P.InitPipe(ring), map[])
  }

  lemma InitCoupled(data: seq<Byte>, fw: u32, ring: seq<C.Sample>)
    requires |data| == DATA_CAPACITY && |ring| == C.RING_N
    ensures Coupled(Init(data, fw, ring))
  {
    A.ReachableArchive(data, fw, [], LogInvariant.Factory(data, fw));
    FreshAgrees(LogInvariant.Factory(data, fw), ring);
  }

  lemma {:induction false} ReachableCoupled(data: seq<Byte>, fw: u32, ring: seq<C.Sample>, steps: seq<Joint>, s: System)
    requires |data| == DATA_CAPACITY && |ring| == C.RING_N && IsJointRun(Init(data, fw, ring), steps, s)
    ensures Coupled(s) && Ready(s)
  {
    InitCoupled(data, fw, ring);
    JointRunsKeep(Init(data, fw, ring), steps, s);
    CoupledReady(s);
  }

  /** log_dropped is, modulo 2^32, the number of samples offered to the running session that
      are neither staged nor stored. */
  ghost predicate CountsDrops(w: R.World, p: P.Pipe) {
    && p.from <= |p.core.delivered| && |p.core.delivered| - p.from >= |p.staged| + |p.stored|
    && w.log.ram.dropped == Wrap(|p.core.delivered| - p.from - |p.staged| - |p.stored|)
  }

  lemma DropsAddUp(w: R.World, p: P.Pipe)
    requires P.PipeInv(p) && p.active && w.log.ram.active && DropsAgree(w, p)
    ensures CountsDrops(w, p)
  {
    P.OfferedAddsUp(p);
  }

  lemma CoupledCounts(s: System)
    requires Coupled(s) && DropsAgree(s.w, s.p) && s.p.active
    ensures CountsDrops(s.w, s.p)
  {
    DropsAddUp(s.w, s.p);
  }

  lemma {:induction false} DropsAreCounted(data: seq<Byte>, fw: u32, ring: seq<C.Sample>, steps: seq<Joint>, s: System)
    requires |data| == DATA_CAPACITY && |ring| == C.RING_N && IsJointRun(Init(data, fw, ring), steps, s)
    ensures s.p.active ==> CountsDrops(s.w, s.p)
  {
    InitCoupled(data, fw, ring);
    RunsKeepDrops(Init(data, fw, ring), steps, s);
    if s.p.active {
      CoupledCounts(s);
    }
  }

  /** Being ready excludes no run: every step that is possible after a run extends it. */
  lemma {:induction false} EveryStepExtends(data: seq<Byte>, fw: u32, ring: seq<C.Sample>, steps: seq<Joint>, s: System, j: Joint)
    requires |data| == DATA_CAPACITY && |ring| == C.RING_N && IsJointRun(Init(data, fw, ring), steps, s)
    ensures Ready(s) && (CanStep(s, j) ==> IsJointRun(Init(data, fw, ring), steps + [j], Next(s, j)))
  {
    ReachableCoupled(data, fw, ring, steps, s);
    if CanStep(s, j) {
      JointRunExtends(Init(data, fw, ring), steps, s, j);
    }
  }

  lemma {:induction false} JointRunExtends(from: System, steps: seq<Joint>, s: System, j: Joint)
    requires IsJointRun(from, steps, s) && Ready(s) && CanStep(s, j)
    ensures IsJointRun(from, steps + [j], Next(s, j))
    decreases |steps|
  {
    var all := steps + [j];
    if steps == [] {
      assert all[1..] == [];
    } else {
      JointRunExtends(Next(from, steps[0]), steps[1..], s, j);
      assert all[1..] == steps[1..] + [j];
    }
  }

  // ---- sensor to dump ----------------------------------------------------------------

  /** Byte b of record r in a byte string made of records. */
  lemma FlattenedByte(recs: seq<Rec>, r: nat, b: nat)
    requires r < |recs| && b < REC_SIZE
    ensures Flatten(recs)[REC_SIZE * r + b] == recs[r][b]
  {
    assert (REC_SIZE * r + b) / REC_SIZE == r && (REC_SIZE * r + b) % REC_SIZE == b;
  }

  lemma SkippedRecords(recs: seq<Rec>, skip: nat)
    requires skip <= |recs|
    ensures Flatten(recs)[REC_SIZE * skip..] == Flatten(recs[skip..])
  {
    assert recs == recs[..skip] + recs[skip..];
    FlattenConcat(recs[..skip], recs[skip..]);
  }

  /** The chapter of session k; the running one is still being written. */
  ghost function ChapterOf(s: System, k: nat): Chapter
    requires k in s.w.sessions && Coupled(s)
    ensures ChapterOk(ChapterOf(s, k), s.w.sessions[k])
  {
    if Some(k) == A.RunningSession(s.w.log) then WholeChapter(s.w.sessions[k], s.p) else s.past[k]
  }

  ghost function WholeChapter(bytes: seq<Byte>, p: P.Pipe): (ch: Chapter)
    requires P.PipeInv(p) && Within(p.stored, |p.core.published|) && bytes == Flatten(Recs(p.core.published, p.stored))
    ensures ChapterOk(ch, bytes)
  {
    var recs := Recs(p.core.published, p.stored);
    assert recs[..|p.stored|] == recs;
    Chapter(p, |p.stored|)
  }

  /** The stored samples of a session that began at record `start`, from the first one the
      flash ring still holds when its history is `total` records long. */
  function KeptFrom(n: nat, start: nat, total: nat): (first: nat)
    ensures first <= n
  {
    Min(n, Max(0, total - REC_CAPACITY - start))
  }

  /** Positions, in the published stream of its pipeline, of the samples kept of a session. */
  ghost function Kept(ch: Chapter, start: nat, total: nat): (positions: seq<nat>)
    requires ch.n <= |ch.pipe.stored|
  {
    ch.pipe.stored[KeptFrom(ch.n, start, total)..ch.n]
  }

  /** The samples at the given published positions as the sensor delivered them. */
  ghost function TakenAt(core: C.State, positions: seq<nat>): (samples: seq<C.Sample>)
    requires C.Inv(core) && Within(positions, |core.published|)
    ensures |samples| == |positions|
  {
    seq(|positions|, j requires 0 <= j < |positions| => C.Took(core, core.numbers[positions[j]]))
  }

  lemma RecsAreTaken(core: C.State, positions: seq<nat>)
    requires C.Inv(core) && Within(positions, |core.published|)
    ensures Recs(core.published, positions) == EncodeAll(TakenAt(core, positions))
  {
  }

  ghost predicate ChapterShaped(ch: Chapter) {
    P.PipeInv(ch.pipe) && Within(ch.pipe.stored, |ch.pipe.core.published|) && ch.n <= |ch.pipe.stored|
  }

  /** What the log still has of a session, as the sensor delivered it. */
  ghost function Samples(ch: Chapter, start: nat, total: nat): (samples: seq<C.Sample>)
    requires ChapterShaped(ch)
    ensures |samples| == |Kept(ch, start, total)|
  {
    TakenAt(ch.pipe.core, Kept(ch, start, total))
  }

  /** What an append-only store of `total` records in a ring holds of a session. */
  function LeftOf(bytes: seq<Byte>, start: nat, total: nat): seq<Byte> {
    bytes[Min(|bytes|, Max(0, REC_SIZE * total - DATA_CAPACITY - REC_SIZE * start))..]
  }

  lemma LeftOfRecs(recs: seq<Rec>, start: nat, total: nat)
    ensures LeftOf(Flatten(recs), start, total) == Flatten(recs[KeptFrom(|recs|, start, total)..])
  {
    SkippedRecords(recs, KeptFrom(|recs|, start, total));
  }

  lemma KeptRecs(published: seq<C.Sample>, stored: seq<nat>, first: nat, n: nat)
    requires Within(stored, |published|) && first <= n <= |stored|
    ensures Within(stored[first..n], |published|)
    ensures Recs(published, stored)[..n][first..] == Recs(published, stored[first..n])
  {
  }

  lemma ChapterKept(ch: Chapter, bytes: seq<Byte>, start: nat, total: nat)
    requires ChapterOk(ch, bytes)
    ensures ChapterShaped(ch)
    ensures LeftOf(bytes, start, total) == Flatten(EncodeAll(Samples(ch, start, total)))
  {
    LeftOfRecs(Recs(ch.pipe.core.published, ch.pipe.stored)[..ch.n], start, total);
    KeptRecs(ch.pipe.core.published, ch.pipe.stored, KeptFrom(ch.n, start, total), ch.n);
    RecsAreTaken(ch.pipe.core, Kept(ch, start, total));
  }

  lemma ReadableIsLeft(w: R.World, k: nat)
    requires |w.hist| == REC_SIZE * w.log.ram.total && k in w.sessions && k in w.starts
    ensures LogReads.Readable(w, k) == LeftOf(w.sessions[k], w.starts[k], w.log.ram.total)
  {
  }

  /** The samples of session k that the log still has. */
  ghost function SamplesOf(s: System, k: nat): (samples: seq<C.Sample>)
    requires Coupled(s) && k in s.w.sessions && k in s.w.starts
  {
    Samples(ChapterOf(s, k), s.w.starts[k], s.w.log.ram.total)
  }

  lemma ReadableIsSamples(s: System, k: nat)
    requires Coupled(s) && k in s.w.sessions && k in s.w.starts
    ensures LogReads.Readable(s.w, k) == Flatten(EncodeAll(SamplesOf(s, k)))
  {
    ReadableIsLeft(s.w, k);
    ChapterKept(ChapterOf(s, k), s.w.sessions[k], s.w.starts[k], s.w.log.ram.total);
  }

  /** Sample numbers of what is left of a session: in the order taken, none twice. */
  ghost predicate InOrder(core: C.State, positions: seq<nat>) {
    && Within(positions, |core.numbers|)
    && forall i, j :: 0 <= i < j < |positions| ==> core.numbers[positions[i]] < core.numbers[positions[j]]
  }

  lemma StoredAscends(p: P.Pipe, first: nat, n: nat)
    requires P.PipeInv(p) && first <= n <= |p.stored|
    ensures Ascending(p.stored[first..n])
  {
    var tail := if p.active then p.staged else [];
    forall i, j | 0 <= i < j < n - first
      ensures p.stored[first..n][i] < p.stored[first..n][j]
    {
      assert (p.stored + tail)[first + i] < (p.stored + tail)[first + j];
    }
  }

  lemma AscendingInOrder(core: C.State, positions: seq<nat>)
    requires C.Inv(core) && Ascending(positions) && Within(positions, |core.published|)
    ensures InOrder(core, positions)
  {
  }

  lemma KeptInOrder(ch: Chapter, start: nat, total: nat)
    requires ChapterShaped(ch)
    ensures InOrder(ch.pipe.core, Kept(ch, start, total))
  {
    StoredAscends(ch.pipe, KeptFrom(ch.n, start, total), ch.n);
    AscendingInOrder(ch.pipe.core, Kept(ch, start, total));
  }

  lemma ReadOfSamples(w: R.World, k: u32, samples: seq<C.Sample>, offset: u32, len: u32)
    requires R.Inv(w) && A.Archive(w) && LogReads.Addressable(w, k, offset, len)
    requires LogReads.Retained(w, k) && LogReads.Intact(w, k)
    requires LogReads.Readable(w, k) == Flatten(EncodeAll(samples))
    ensures ReadSession(w.log, k, offset, len) == Window(Flatten(EncodeAll(samples)), offset, len)
  {
    LogReads.ReadMatchesHistory(w, k, offset, len);
  }

  lemma SamplesRead(s: System, k: u32, offset: u32, len: u32)
    requires Coupled(s) && k in s.w.sessions && LogReads.Addressable(s.w, k, offset, len)
    requires LogReads.Retained(s.w, k) && LogReads.Intact(s.w, k)
    ensures k in s.w.starts
    ensures ReadSession(s.w.log, k, offset, len) == Window(Flatten(EncodeAll(SamplesOf(s, k))), offset, len)
  {
    ReadableIsSamples(s, k);
    ReadOfSamples(s.w, k, SamplesOf(s, k), offset, len);
  }

  /** From the sensor to the dump: over every joint run, resets and erases included, reading
      any session that is retained and intact returns, byte for byte, the samples it stored as
      the sensor delivered them, in the order they were taken, less the oldest ones the flash
      ring no longer holds. */
  lemma {:induction false} DumpedBytesAreTheSamples(data: seq<Byte>, fw: u32, ring: seq<C.Sample>, steps: seq<Joint>,
                                                    s: System, k: u32, offset: u32, len: u32)
    requires |data| == DATA_CAPACITY && |ring| == C.RING_N && IsJointRun(Init(data, fw, ring), steps, s)
    requires Shaped(s.w.log) && k in s.w.sessions && LogReads.Addressable(s.w, k, offset, len)
    requires LogReads.Retained(s.w, k) && LogReads.Intact(s.w, k)
    ensures Coupled(s) && k in s.w.starts
    ensures ReadSession(s.w.log, k, offset, len) == Window(Flatten(EncodeAll(SamplesOf(s, k))), offset, len)
    ensures InOrder(ChapterOf(s, k).pipe.core, Kept(ChapterOf(s, k), s.w.starts[k], s.w.log.ram.total))
  {
    ReachableCoupled(data, fw, ring, steps, s);
    SamplesRead(s, k, offset, len);
    KeptInOrder(ChapterOf(s, k), s.w.starts[k], s.w.log.ram.total);
  }

  // ---- what the host makes of a dump ------------------------------------------------------

  /** unpack_records: every whole record of `raw`, decoded. */
  function UnpackRecords(raw: seq<Byte>): (samples: seq<C.Sample>)
    ensures |samples| == |raw| / REC_SIZE
  {
    seq(|raw| / REC_SIZE, i requires 0 <= i < |raw| / REC_SIZE => Decode(raw[REC_SIZE * i..REC_SIZE * (i + 1)]))
  }

  lemma FlattenedRecord(recs: seq<Rec>, i: nat)
    requires i < |recs|
    ensures Flatten(recs)[REC_SIZE * i..REC_SIZE * (i + 1)] == recs[i]
  {
    var piece := Flatten(recs)[REC_SIZE * i..REC_SIZE * (i + 1)];
    forall b | 0 <= b < REC_SIZE
      ensures piece[b] == recs[i][b]
    {
      FlattenedByte(recs, i, b);
    }
  }

  lemma PrefixRecord(bytes: seq<Byte>, whole: seq<Byte>, i: nat)
    requires bytes <= whole && REC_SIZE * (i + 1) <= |bytes|
    ensures bytes[REC_SIZE * i..REC_SIZE * (i + 1)] == whole[REC_SIZE * i..REC_SIZE * (i + 1)]
  {
  }

  lemma UnpackedRecord(samples: seq<C.Sample>, bytes: seq<Byte>, i: nat)
    requires bytes <= Flatten(EncodeAll(samples)) && i < |bytes| / REC_SIZE
    ensures i < |samples| && UnpackRecords(bytes)[i] == samples[i]
  {
    PrefixRecord(bytes, Flatten(EncodeAll(samples)), i);
    FlattenedRecord(EncodeAll(samples), i);
    DecodeEncode(samples[i]);
  }

  /** Unpacking the beginning of what samples were encoded to gives their beginning back. */
  lemma UnpackGivesSamples(samples: seq<C.Sample>, bytes: seq<Byte>)
    requires bytes <= Flatten(EncodeAll(samples))
    ensures UnpackRecords(bytes) == samples[..|bytes| / REC_SIZE]
  {
    forall i | 0 <= i < |bytes| / REC_SIZE
      ensures UnpackRecords(bytes)[i] == samples[i]
    {
      UnpackedRecord(samples, bytes, i);
    }
  }

  // ---- what the host can tell ------------------------------------------------------------

  /** Samples x and y, the stored ones at published positions a and b, show by their stamps
      how many samples were lost in between, modulo 65536. */
  ghost predicate ShowsLosses(p: P.Pipe, x: C.Sample, y: C.Sample, a: nat, b: nat) {
    && a < b < |p.core.numbers|
    && (y.seq16 - x.seq16 - 1) % C.SEQ16 == (|P.OverrunsBetween(p, a, b)| + |P.DropsBetween(p, a, b)|) % C.SEQ16
  }

  lemma AccountShows(p: P.Pipe, x: C.Sample, y: C.Sample, a: nat, b: nat)
    requires P.SampleAccount(p, a, b) && x == C.Took(p.core, p.core.numbers[a]) && y == C.Took(p.core, p.core.numbers[b])
    ensures ShowsLosses(p, x, y, a, b)
  {
  }

  lemma SamplesShowLosses(ch: Chapter, start: nat, total: nat, i: nat)
    requires ChapterShaped(ch) && i + 1 < |Samples(ch, start, total)|
    ensures var kept, samples := Kept(ch, start, total), Samples(ch, start, total);
      ShowsLosses(ch.pipe, samples[i], samples[i + 1], kept[i], kept[i + 1])
  {
    var kept, samples := Kept(ch, start, total), Samples(ch, start, total);
    P.AccountsForEverySample(ch.pipe, KeptFrom(ch.n, start, total) + i);
    AccountShows(ch.pipe, samples[i], samples[i + 1], kept[i], kept[i + 1]);
  }

  /** What the host can tell from a dump of any session: what it unpacks are samples as the
      sensor delivered them, and the stamps of neighbours differ by one more than the samples
      lost in between, modulo 65536, whether the cross-core ring or the staging ring lost
      them. */
  lemma {:induction false} DumpTellsTheLosses(data: seq<Byte>, fw: u32, ring: seq<C.Sample>, steps: seq<Joint>,
                                              s: System, k: u32, len: u32, i: nat)
    requires |data| == DATA_CAPACITY && |ring| == C.RING_N && IsJointRun(Init(data, fw, ring), steps, s)
    requires Shaped(s.w.log) && k in s.w.sessions && LogReads.Addressable(s.w, k, 0, len)
    requires LogReads.Retained(s.w, k) && LogReads.Intact(s.w, k)
    requires i + 1 < |UnpackRecords(ReadSession(s.w.log, k, 0, len))|
    ensures Coupled(s) && k in s.w.starts
    ensures var got := UnpackRecords(ReadSession(s.w.log, k, 0, len));
      var ch := ChapterOf(s, k); var kept := Kept(ch, s.w.starts[k], s.w.log.ram.total);
      && got <= SamplesOf(s, k) && i + 1 < |kept|
      && ShowsLosses(ch.pipe, got[i], got[i + 1], kept[i], kept[i + 1])
  {
    DumpedBytesAreTheSamples(data, fw, ring, steps, s, k, 0, len);
    WindowIsPrefix(Flatten(EncodeAll(SamplesOf(s, k))), len);
    UnpackGivesSamples(SamplesOf(s, k), ReadSession(s.w.log, k, 0, len));
    SamplesShowLosses(ChapterOf(s, k), s.w.starts[k], s.w.log.ram.total, i);
  }

  lemma WindowIsPrefix(content: seq<Byte>, len: nat)
    ensures Window(content, 0, len) <= content
  {
  }
}
