/** The resumable session dump: requests reach the dump thread through three shared words
    and an abort flag, chunks travel in order to the host, which reassembles them by offset
    and re-requests from where it stands when the stream goes quiet. */
module Dump {
  import opened Words
  import opened LogSpec

  const CHUNK_DATA: int := 232

  datatype Request = Request(session: u32, offset: nat, len: nat)
  datatype Chunk = Chunk(offset: nat, data: seq<Byte>, last: bool)

  datatype Thread =
    | Blocked                                             // waiting for the request semaphore
    | Taken                                               // woken, abort flag not yet cleared
    | Cleared
    | GotSession(session: u32)
    | GotOffset(session: u32, offset: nat)
    | Sending(session: u32, offset: nat, remaining: nat)
    | Holding(session: u32, offset: nat, remaining: nat, chunk: Chunk)   // chunk built, not accepted

  datatype State = State(
    stored: map<u32, seq<Byte>>,      // session contents; no logging runs meanwhile
    request: Request, pending: bool, abort: bool,
    thread: Thread,
    channel: seq<Chunk>,              // accepted notifications not yet received
    // host
    target: u32, total: nat, buf: seq<Byte>, maxEnd: nat, done: bool,
    // history
    issued: set<Request>,
    serving: Request,                 // what the thread loaded last
    sent: seq<Sent>)

  /** An accepted chunk, the session it was read from and what the thread was serving. */
  datatype Sent = Sent(session: u32, serving: Request, chunk: Chunk)

  datatype Step =
    | Ask(request: Request)           // ble_transport_dump_request
    | Abort                           // ble_transport_dump_abort
    | Take
    | Clear
    | LoadSession
    | LoadOffset
    | LoadLength
    | Build                           // loop test and read of the next chunk
    | Finish                          // loop test fails
    | Accept                          // notify succeeded
    | Refuse                          // credit timeout, read error or notify error
    | Receive                         // on_chunk

  function Content(s: State, session: u32): seq<Byte> {
    if session in s.stored then s.stored[session] else []
  }

  /** The chunk the loop builds from `remaining` bytes to go. */
  function BuildChunk(content: seq<Byte>, offset: nat, remaining: nat): Chunk {
    var want := Min(remaining, CHUNK_DATA);
    var data := Window(content, offset, want);
    Chunk(offset, data, |data| < want || |data| == remaining)
  }

  predicate Enabled(s: State, step: Step) {
    match step
    case Ask(_) => true
    case Abort => true
    case Take => s.thread.Blocked? && s.pending
    case Clear => s.thread.Taken?
    case LoadSession => s.thread.Cleared?
    case LoadOffset => s.thread.GotSession?
    case LoadLength => s.thread.GotOffset?
    case Build => s.thread.Sending? && s.thread.remaining > 0 && !s.abort
    case Finish => s.thread.Sending? && (s.thread.remaining == 0 || s.abort)
    case Accept => s.thread.Holding?
    case Refuse => s.thread.Holding?
    case Receive => s.channel != []
  }

  /** buf[offset:end] = data[:end - offset] of _DumpSink.on_chunk, with Python's slices: an
      end before the offset counts from the end of the data, and what is put behind the
      buffer makes it longer.  (No chunk of a collection starts there, see InOrder.) */
  function Landed(buf: seq<Byte>, total: nat, c: Chunk): (after: seq<Byte>)
    ensures c.offset <= total == |buf| ==> |after| == |buf|
  {
    var end := Min(c.offset + |c.data|, total);
    var taken := if c.offset <= end then end - c.offset else Max(0, |c.data| - (c.offset - end));
    var lo := Min(c.offset, |buf|);
    var hi := Max(lo, Min(end, |buf|));
    buf[..lo] + c.data[..taken] + buf[hi..]
  }

  function ReachedEnd(total: nat, maxEnd: nat, c: Chunk): nat {
    Max(maxEnd, Min(c.offset + |c.data|, total))
  }

  predicate NowDone(total: nat, maxEnd: nat, c: Chunk) {
    (c.last && Min(c.offset + |c.data|, total) >= total) || ReachedEnd(total, maxEnd, c) >= total
  }

  function Received(s: State, c: Chunk): State {
    if s.done then s
    else s.(buf := Landed(s.buf, s.total, c), maxEnd := ReachedEnd(s.total, s.maxEnd, c), done := NowDone(s.total, s.maxEnd, c))
  }

  function Next(s: State, step: Step): State
    requires Enabled(s, step)
  {
    match step
    case Ask(r) => s.(request := r, pending := true, abort := true, issued := s.issued + {r})
    case Abort => s.(abort := true)
    case Take => s.(thread := Taken, pending := false)
    case Clear => s.(thread := Cleared, abort := false)
    case LoadSession => s.(thread := GotSession(s.request.session))
    case LoadOffset => s.(thread := GotOffset(s.thread.session, s.request.offset))
    case LoadLength =>
      s.(thread := Sending(s.thread.session, s.thread.offset, s.request.len),
         serving := Request(s.thread.session, s.thread.offset, s.request.len))
    case Build =>
      var t := s.thread;
      s.(thread := Holding(t.session, t.offset, t.remaining, BuildChunk(Content(s, t.session), t.offset, t.remaining)))
    case Finish => s.(thread := Blocked)
    case Accept =>
      var t := s.thread;
      s.(channel := s.channel + [t.chunk], sent := s.sent + [Sent(t.session, s.serving, t.chunk)],
         thread := if t.chunk.last then Blocked
                   else Sending(t.session, t.offset + |t.chunk.data|, t.remaining - Min(|t.chunk.data|, t.remaining)))
    case Refuse => s.(thread := Blocked)
    case Receive => Received(s.(channel := s.channel[1..]), s.channel[0])
  }

  // ---- reassembly ----------------------------------------------------------------

  function EndOfChunk(c: Chunk): nat {
    c.offset + |c.data|
  }

  /** How far the host will have come once all chunks in flight arrive. */
  function Reach(maxEnd: nat, channel: seq<Chunk>): nat
    decreases |channel|
  {
    if channel == [] then maxEnd else Reach(Max(maxEnd, EndOfChunk(channel[0])), channel[1..])
  }

  ghost predicate ChunkOk(content: seq<Byte>, c: Chunk) {
    EndOfChunk(c) <= |content| && c.data == content[c.offset..EndOfChunk(c)]
  }

  /** Every chunk in flight continues what the chunks before it bring. */
  ghost predicate InOrder(content: seq<Byte>, maxEnd: nat, channel: seq<Chunk>)
    decreases |channel|
  {
    channel != [] ==>
      && ChunkOk(content, channel[0]) && channel[0].offset <= maxEnd
      && InOrder(content, Max(maxEnd, EndOfChunk(channel[0])), channel[1..])
  }

  /** The offset the thread is working from is not past what the host will have. */
  ghost predicate ThreadOk(s: State, content: seq<Byte>) {
    var reach := Reach(s.maxEnd, s.channel);
    match s.thread
    case Blocked => true
    case Taken => true
    case Cleared => true
    case GotSession(session) => session == s.target
    case GotOffset(session, offset) => session == s.target && offset <= reach
    case Sending(session, offset, _) => session == s.target && offset <= reach
    case Holding(session, offset, remaining, chunk) =>
      && session == s.target && offset <= reach
      && chunk == BuildChunk(content, offset, remaining)
  }

  /** The host holds exactly the content up to max_end. */
  ghost predicate HostOk(content: seq<Byte>, buf: seq<Byte>, maxEnd: nat, done: bool) {
    && |buf| == |content|
    && maxEnd <= |content|
    && buf[..maxEnd] == content[..maxEnd]
    && (done ==> maxEnd == |content|)
  }

  ghost predicate Inv(s: State) {
    && s.target in s.stored && s.total == |s.stored[s.target]|
    && HostOk(s.stored[s.target], s.buf, s.maxEnd, s.done)
    && InOrder(s.stored[s.target], s.maxEnd, s.channel)
    && Reach(s.maxEnd, s.channel) <= |s.stored[s.target]|
    && ThreadOk(s, s.stored[s.target])
    && s.request.session == s.target && s.request.offset <= Reach(s.maxEnd, s.channel)
    && (s.total > 0 && s.maxEnd == s.total ==> s.done)
  }

  /** The only client is the host collecting `target`.  It asks from where it stands, but
      chunks may arrive between its choice of the offset and the device's taking of the
      request: the offset is at most where the host stands by then. */
  predicate HostStep(s: State, step: Step) {
    step.Ask? ==> step.request.session == s.target && step.request.offset <= s.maxEnd
  }

  function Init(stored: map<u32, seq<Byte>>, target: u32): State
    requires target in stored
  {
    var total := |stored[target]|;
    State(stored, Request(target, 0, total), false, false, Blocked, [], target, total, seq(total, _ => 0), 0, false,
          {}, Request(target, 0, total), [])
  }

  lemma ReachAtLeast(maxEnd: nat, channel: seq<Chunk>)
    ensures maxEnd <= Reach(maxEnd, channel)
    decreases |channel|
  {
    if channel != [] {
      ReachAtLeast(Max(maxEnd, EndOfChunk(channel[0])), channel[1..]);
    }
  }

  /** Accepting a chunk that continues the stream keeps it in order and moves its reach. */
  lemma {:induction false} AcceptExtends(content: seq<Byte>, maxEnd: nat, channel: seq<Chunk>, c: Chunk)
    requires InOrder(content, maxEnd, channel)
    requires ChunkOk(content, c) && c.offset <= Reach(maxEnd, channel)
    ensures InOrder(content, maxEnd, channel + [c])
    ensures Reach(maxEnd, channel + [c]) == Max(Reach(maxEnd, channel), EndOfChunk(c))
    decreases |channel|
  {
    if channel == [] {
      assert channel + [c] == [c] && [c][1..] == [];
    } else {
      AcceptExtends(content, Max(maxEnd, EndOfChunk(channel[0])), channel[1..], c);
      assert (channel + [c])[1..] == channel[1..] + [c];
    }
  }

  lemma BuiltChunkOk(content: seq<Byte>, offset: nat, remaining: nat)
    requires offset <= |content|
    ensures ChunkOk(content, BuildChunk(content, offset, remaining))
  {
  }

  lemma AcceptKeeps(s: State)
    requires Inv(s) && s.thread.Holding?
    ensures Inv(Next(s, Accept))
  {
    BuiltChunkOk(s.stored[s.target], s.thread.offset, s.thread.remaining);
    AcceptExtends(s.stored[s.target], s.maxEnd, s.channel, s.thread.chunk);
  }

  lemma BufferGrows(content: seq<Byte>, buf: seq<Byte>, maxEnd: nat, c: Chunk)
    requires |buf| == |content| && maxEnd <= |content| && buf[..maxEnd] == content[..maxEnd]
    requires ChunkOk(content, c) && c.offset <= maxEnd
    ensures var end := c.offset + |c.data|;
      && ReachedEnd(|buf|, maxEnd, c) == Max(maxEnd, end) <= |content|
      && |Landed(buf, |buf|, c)| == |buf|
      && Landed(buf, |buf|, c)[..Max(maxEnd, end)] == content[..Max(maxEnd, end)]
  {
    var end := c.offset + |c.data|;
    var after := Landed(buf, |buf|, c);
    assert c.data[..|c.data|] == c.data;
    assert after == buf[..c.offset] + c.data + buf[end..];
    forall i | 0 <= i < Max(maxEnd, end)
      ensures after[i] == content[i]
    {
      if i < c.offset || end <= i {
        assert after[i] == buf[i] == buf[..maxEnd][i] == content[..maxEnd][i];
      }
    }
  }

  lemma HostReceives(content: seq<Byte>, buf: seq<Byte>, maxEnd: nat, c: Chunk)
    requires HostOk(content, buf, maxEnd, false) && ChunkOk(content, c) && c.offset <= maxEnd
    ensures ReachedEnd(|buf|, maxEnd, c) == Max(maxEnd, c.offset + |c.data|)
    ensures HostOk(content, Landed(buf, |buf|, c), ReachedEnd(|buf|, maxEnd, c), NowDone(|buf|, maxEnd, c))
  {
    BufferGrows(content, buf, maxEnd, c);
  }

  lemma SameReachKeepsThread(s: State, d: State, content: seq<Byte>)
    requires ThreadOk(s, content) && d.thread == s.thread && d.target == s.target
    requires Reach(d.maxEnd, d.channel) == Reach(s.maxEnd, s.channel)
    ensures ThreadOk(d, content)
  {
  }

  lemma ReceiveKeeps(s: State)
    requires Inv(s) && s.channel != [] && !s.done
    ensures Inv(Received(s.(channel := s.channel[1..]), s.channel[0]))
  {
    var content, c := s.stored[s.target], s.channel[0];
    var d := Received(s.(channel := s.channel[1..]), c);
    HostReceives(content, s.buf, s.maxEnd, c);
    assert d.maxEnd == Max(s.maxEnd, EndOfChunk(c));
    SameReachKeepsThread(s, d, content);
  }

  /** A host that is done ignores what still arrives. */
  lemma DoneKeeps(s: State)
    requires Inv(s) && s.channel != [] && s.done
    ensures Inv(Received(s.(channel := s.channel[1..]), s.channel[0]))
  {
    assert EndOfChunk(s.channel[0]) <= s.maxEnd;
    SameReachKeepsThread(s, Received(s.(channel := s.channel[1..]), s.channel[0]), s.stored[s.target]);
  }

  lemma StepKeeps(s: State, step: Step)
    requires Inv(s) && Enabled(s, step) && HostStep(s, step)
    ensures Inv(Next(s, step))
  {
    match step
    case Ask(r) => ReachAtLeast(s.maxEnd, s.channel);
    case Accept => AcceptKeeps(s);
    case Receive => if s.done { DoneKeeps(s); } else { ReceiveKeeps(s); }
    case _ =>
  }

  ghost predicate IsCollection(from: State, steps: seq<Step>, to: State)
    decreases |steps|
  {
    if steps == [] then from == to
    else Enabled(from, steps[0]) && HostStep(from, steps[0]) && IsCollection(Next(from, steps[0]), steps[1..], to)
  }

  lemma {:induction false} CollectionKeeps(from: State, steps: seq<Step>, to: State)
    requires Inv(from) && IsCollection(from, steps, to)
    ensures Inv(to)
    decreases |steps|
  {
    if steps != [] {
      StepKeeps(from, steps[0]);
      CollectionKeeps(Next(from, steps[0]), steps[1..], to);
    }
  }

  lemma ContentFixed(from: State, steps: seq<Step>, to: State)
    requires IsCollection(from, steps, to)
    ensures to.stored == from.stored && to.target == from.target
    decreases |steps|
  {
    if steps != [] {
      ContentFixed(Next(from, steps[0]), steps[1..], to);
    }
  }

  /** After every schedule of requests, stalls, resumes, aborts and refusals, the host holds
      exactly the session's bytes up to max_end, and it is done exactly when those are all. */
  lemma {:induction false} ReassemblyIsExact(stored: map<u32, seq<Byte>>, target: u32, steps: seq<Step>, s: State)
    requires target in stored && IsCollection(Init(stored, target), steps, s)
    ensures s.maxEnd <= |stored[target]| == |s.buf|
    ensures s.buf[..s.maxEnd] == stored[target][..s.maxEnd]
    ensures s.done ==> s.buf == stored[target]
    ensures stored[target] != [] ==> (s.done <==> s.maxEnd == |stored[target]|)
  {
    assert Inv(Init(stored, target));
    CollectionKeeps(Init(stored, target), steps, s);
    ContentFixed(Init(stored, target), steps, s);
    if s.done {
      assert s.buf == s.buf[..s.maxEnd] && stored[target] == stored[target][..s.maxEnd];
    }
  }

  // ---- one request at a time ------------------------------------------------------

  /** Requests do not land between the thread's loads of the three request words. */
  predicate AtomicAsk(s: State, step: Step) {
    step.Ask? ==> !s.thread.GotSession? && !s.thread.GotOffset?
  }

  /** The chunk was read from the session of one issued request, inside its byte range. */
  ghost predicate Unmixed(issued: set<Request>, x: Sent) {
    && x.serving in issued
    && x.session == x.serving.session
    && x.serving.offset <= x.chunk.offset
    && x.chunk.offset + |x.chunk.data| <= x.serving.offset + x.serving.len
  }

  ghost predicate NoMix(s: State) {
    && (s.pending || !s.thread.Blocked? ==> s.request in s.issued)
    && (match s.thread
        case GotSession(session) => session == s.request.session
        case GotOffset(session, offset) => session == s.request.session && offset == s.request.offset
        case Sending(session, offset, remaining) => Within(s, session, offset, remaining)
        case Holding(session, offset, remaining, chunk) =>
          Within(s, session, offset, remaining) && chunk == BuildChunk(Content(s, session), offset, remaining)
        case _ => true)
    && (forall k :: 0 <= k < |s.sent| ==> Unmixed(s.issued, s.sent[k]))
  }

  ghost predicate Within(s: State, session: u32, offset: nat, remaining: nat) {
    && s.serving in s.issued && session == s.serving.session
    && s.serving.offset <= offset && offset + remaining == s.serving.offset + s.serving.len
  }

  lemma NoMixKeeps(s: State, step: Step)
    requires NoMix(s) && Enabled(s, step) && AtomicAsk(s, step)
    ensures NoMix(Next(s, step))
  {
    var d := Next(s, step);
    forall k | 0 <= k < |d.sent|
      ensures Unmixed(d.issued, d.sent[k])
    {
      if k < |s.sent| {
        assert Unmixed(s.issued, s.sent[k]);
      }
    }
  }

  lemma InitNoMix(stored: map<u32, seq<Byte>>, target: u32)
    requires target in stored
    ensures NoMix(Init(stored, target))
  {
  }

  ghost predicate IsAtomicRun(from: State, steps: seq<Step>, to: State)
    decreases |steps|
  {
    if steps == [] then from == to
    else Enabled(from, steps[0]) && AtomicAsk(from, steps[0]) && IsAtomicRun(Next(from, steps[0]), steps[1..], to)
  }

  lemma {:induction false} AtomicRunsKeep(from: State, steps: seq<Step>, to: State)
    requires NoMix(from) && IsAtomicRun(from, steps, to)
    ensures NoMix(to)
    decreases |steps|
  {
    if steps != [] {
      NoMixKeeps(from, steps[0]);
      AtomicRunsKeep(Next(from, steps[0]), steps[1..], to);
    }
  }

  /** With requests atomic relative to the loads, no chunk ever mixes two requests, whoever
      issues them. */
  lemma {:induction false} NoChunkMixesRequests(stored: map<u32, seq<Byte>>, target: u32, steps: seq<Step>, s: State)
    requires target in stored && IsAtomicRun(Init(stored, target), steps, s)
    ensures forall k :: 0 <= k < |s.sent| ==> Unmixed(s.issued, s.sent[k])
  {
    InitNoMix(stored, target);
    AtomicRunsKeep(Init(stored, target), steps, s);
  }

  ghost predicate IsRun(from: State, steps: seq<Step>, to: State)
    decreases |steps|
  {
    if steps == [] then from == to
    else Enabled(from, steps[0]) && IsRun(Next(from, steps[0]), steps[1..], to)
  }

  lemma {:induction false} RunExtends(from: State, steps: seq<Step>, s: State, step: Step)
    returns (more: seq<Step>, to: State)
    requires IsRun(from, steps, s) && Enabled(s, step)
    ensures more == steps + [step] && to == Next(s, step) && IsRun(from, more, to)
    decreases |steps|
  {
    more, to := steps + [step], Next(s, step);
    if steps == [] {
      assert more[1..] == [];
    } else {
      var rest, _ := RunExtends(Next(from, steps[0]), steps[1..], s, step);
      assert more[1..] == rest;
    }
  }

  /** A run up to the load of the first request's session. */
  lemma SessionLoaded(stored: map<u32, seq<Byte>>, r: Request) returns (steps: seq<Step>, s: State)
    requires 1 in stored
    ensures IsRun(Init(stored, 1), steps, s)
    ensures s == Init(stored, 1).(request := r, thread := GotSession(r.session), issued := {r})
  {
    var init := Init(stored, 1);
    steps, s := RunExtends(init, [], init, Ask(r));
    steps, s := RunExtends(init, steps, s, Take);
    steps, s := RunExtends(init, steps, s, Clear);
    steps, s := RunExtends(init, steps, s, LoadSession);
  }

  /** Without that, a request landing between the loads is served in part: a run after which
      session 1 is read at the offset and length meant for session 2. */
  lemma MixedLoadIsPossible(stored: map<u32, seq<Byte>>) returns (steps: seq<Step>, s: State)
    requires 1 in stored
    ensures IsRun(Init(stored, 1), steps, s)
    ensures s.issued == {Request(1, 0, 100), Request(2, 500, 700)}
    ensures s.thread == Sending(1, 500, 700) && s.serving !in s.issued
  {
    var init := Init(stored, 1);
    steps, s := SessionLoaded(stored, Request(1, 0, 100));
    steps, s := RunExtends(init, steps, s, Ask(Request(2, 500, 700)));
    steps, s := RunExtends(init, steps, s, LoadOffset);
    steps, s := RunExtends(init, steps, s, LoadLength);
  }

  // ---- one request's send loop ------------------------------------------------------

  /** All chunks of a request that is neither aborted nor refused. */
  function FullDump(content: seq<Byte>, offset: nat, remaining: nat): (chunks: seq<Chunk>)
    decreases remaining
  {
    if remaining == 0 then []
    else
      var c := BuildChunk(content, offset, remaining);
      [c] + if c.last then [] else FullDump(content, offset + |c.data|, remaining - |c.data|)
  }

  function Joined(chunks: seq<Chunk>): seq<Byte> {
    if chunks == [] then [] else chunks[0].data + Joined(chunks[1..])
  }

  lemma JoinedCons(c: Chunk, rest: seq<Chunk>)
    ensures Joined([c] + rest) == c.data + Joined(rest)
  {
    assert ([c] + rest)[1..] == rest;
  }

  lemma {:induction false} FullDumpJoins(content: seq<Byte>, offset: nat, remaining: nat)
    ensures Joined(FullDump(content, offset, remaining)) == Window(content, offset, remaining)
    decreases remaining
  {
    if remaining > 0 {
      var c := BuildChunk(content, offset, remaining);
      JoinedCons(c, Following(content, offset, remaining));
      if !c.last {
        FullDumpJoins(content, offset + |c.data|, remaining - |c.data|);
        ReadSplits(content, offset, remaining);
      } else {
        LastChunkReachesEnd(content, offset, remaining);
      }
    }
  }

  lemma LastChunkReachesEnd(content: seq<Byte>, offset: nat, remaining: nat)
    requires remaining > 0 && BuildChunk(content, offset, remaining).last
    ensures BuildChunk(content, offset, remaining).data + [] == Window(content, offset, remaining)
  {
  }

  /** What a chunk list must look like to continue at `offset`. */
  ghost predicate Contiguous(chunks: seq<Chunk>, offset: nat) {
    && (chunks != [] ==> chunks[0].offset == offset)
    && (forall k :: 0 <= k < |chunks| ==> (chunks[k].last <==> k == |chunks| - 1))
    && (forall k :: 0 < k < |chunks| ==> chunks[k].offset == chunks[k - 1].offset + |chunks[k - 1].data|)
  }

  lemma ContiguousCons(c: Chunk, rest: seq<Chunk>)
    requires Contiguous(rest, c.offset + |c.data|) && (c.last <==> rest == [])
    ensures Contiguous([c] + rest, c.offset)
  {
    var all := [c] + rest;
    assert forall k :: 0 < k < |all| ==> all[k] == rest[k - 1];
  }

  lemma {:induction false} FullDumpShape(content: seq<Byte>, offset: nat, remaining: nat)
    ensures Contiguous(FullDump(content, offset, remaining), offset)
    ensures remaining > 0 ==> FullDump(content, offset, remaining) != []
    decreases remaining
  {
    if remaining > 0 {
      var c := BuildChunk(content, offset, remaining);
      if !c.last {
        FullDumpShape(content, offset + |c.data|, remaining - |c.data|);
      }
      ContiguousCons(c, Following(content, offset, remaining));
    }
  }

  /** An undisturbed dump delivers exactly the readable bytes of the request, each chunk
      starting where the one before ended and only the final one marked last. */
  lemma FullDumpCovers(content: seq<Byte>, offset: nat, remaining: nat)
    ensures Joined(FullDump(content, offset, remaining)) == Window(content, offset, remaining)
    ensures Contiguous(FullDump(content, offset, remaining), offset)
    ensures remaining > 0 ==> FullDump(content, offset, remaining) != []
  {
    FullDumpJoins(content, offset, remaining);
    FullDumpShape(content, offset, remaining);
  }

  lemma ReadSplits(content: seq<Byte>, offset: nat, remaining: nat)
    requires remaining > CHUNK_DATA && offset + CHUNK_DATA <= |content|
    ensures Window(content, offset, CHUNK_DATA) + Window(content, offset + CHUNK_DATA, remaining - CHUNK_DATA)
      == Window(content, offset, remaining)
  {
  }

  lemma ServeStep(sent: seq<Chunk>, content: seq<Byte>, offset: nat, remaining: nat)
    requires remaining > 0
    ensures sent + FullDump(content, offset, remaining)
      == (sent + [BuildChunk(content, offset, remaining)]) + Following(content, offset, remaining)
  {
    Regroup(sent, [BuildChunk(content, offset, remaining)], Following(content, offset, remaining));
  }

  lemma ShorterRest(content: seq<Byte>, offset: nat, remaining: nat)
    requires remaining > 0 && !BuildChunk(content, offset, remaining).last
    ensures var c := BuildChunk(content, offset, remaining);
      && 0 < |c.data| < remaining
      && Following(content, offset, remaining) == FullDump(content, offset + |c.data|, remaining - |c.data|)
  {
  }

  /** One read of the loop. */
  method ReadChunk(content: seq<Byte>, off: nat, remaining: nat) returns (c: Chunk)
    requires remaining > 0
    ensures c == BuildChunk(content, off, remaining)
  {
    var want := Min(remaining, CHUNK_DATA);
    var data := Window(content, off, want);
    var last := |data| < want || |data| == remaining;
    c := Chunk(off, data, last);
  }

  /** The send loop of dump_thread for one request; `quota` chunks are accepted before an
      abort, a refused notification or a credit timeout ends it early. */
  method ServeRequest(content: seq<Byte>, offset: nat, len: nat, quota: nat) returns (sent: seq<Chunk>)
    ensures var all := FullDump(content, offset, len); sent == all[..Min(quota, |all|)]
  {
    var off: nat, remaining: nat := offset, len;
    ghost var all := FullDump(content, offset, len);
    ghost var rest := all;
    sent := [];
    while remaining > 0 && |sent| < quota
      invariant |sent| <= quota
      invariant all == sent + rest
      invariant rest == FullDump(content, off, remaining)
      decreases remaining
    {
      var c := ReadChunk(content, off, remaining);
      ServeStep(sent, content, off, remaining);
      rest := Following(content, off, remaining);
      sent := sent + [c];
      if c.last {
        assert rest == [];
        break;
      }
      ShorterRest(content, off, remaining);
      off := off + |c.data|;
      remaining := remaining - |c.data|;
    }
    assert all[..|sent|] == sent;
  }

  /** The chunks after the next one. */
  function Following(content: seq<Byte>, offset: nat, remaining: nat): (rest: seq<Chunk>)
    requires remaining > 0
    ensures FullDump(content, offset, remaining) == [BuildChunk(content, offset, remaining)] + rest
  {
    var c := BuildChunk(content, offset, remaining);
    if c.last then [] else FullDump(content, offset + |c.data|, remaining - |c.data|)
  }

  // ---- undisturbed requests ---------------------------------------------------------------

  function Chunks(sent: seq<Sent>): (chunks: seq<Chunk>)
    ensures |chunks| == |sent|
  {
    seq(|sent|, i requires 0 <= i < |sent| => sent[i].chunk)
  }

  lemma ChunksSnoc(sent: seq<Sent>, x: Sent)
    ensures Chunks(sent + [x]) == Chunks(sent) + [x.chunk]
  {
  }

  /** The chunks the thread has yet to send for the request it serves. */
  function ToSend(s: State): seq<Chunk> {
    match s.thread
    case Sending(session, offset, remaining) => FullDump(Content(s, session), offset, remaining)
    case Holding(session, offset, remaining, chunk) =>
      [chunk] + if chunk.last then [] else FullDump(Content(s, session), offset + |chunk.data|, remaining - Min(|chunk.data|, remaining))
    case _ => []
  }

  predicate Serving(s: State) {
    && !s.abort
    && (s.thread.Blocked? || s.thread.Sending? || s.thread.Holding?)
    && (s.thread.Holding? ==>
          && s.thread.remaining > 0
          && s.thread.chunk == BuildChunk(Content(s, s.thread.session), s.thread.offset, s.thread.remaining))
  }

  predicate Undisturbed(step: Step) {
    step.Build? || step.Finish? || step.Accept? || step.Receive?
  }

  lemma ServingStep(s: State, step: Step)
    requires Serving(s) && Enabled(s, step) && Undisturbed(step)
    ensures Serving(Next(s, step)) && Next(s, step).stored == s.stored
    ensures Chunks(Next(s, step).sent) + ToSend(Next(s, step)) == Chunks(s.sent) + ToSend(s)
  {
    match step
    case Accept =>
      var t := s.thread;
      ChunksSnoc(s.sent, Sent(t.session, s.serving, t.chunk));
      Regroup(Chunks(s.sent), [t.chunk], ToSend(Next(s, step)));
    case _ =>
  }

  /** Whatever the host receives meanwhile: a request that is neither aborted nor refused nor
      overtaken by another sends, until the thread blocks again, exactly its full dump. */
  lemma {:induction false} UndisturbedSendsFullDump(from: State, steps: seq<Step>, to: State)
    requires Serving(from) && IsRun(from, steps, to) && forall i :: 0 <= i < |steps| ==> Undisturbed(steps[i])
    ensures Chunks(to.sent) + ToSend(to) == Chunks(from.sent) + ToSend(from)
    ensures to.thread.Blocked? && from.thread.Sending? ==>
      Chunks(to.sent) == Chunks(from.sent) + FullDump(Content(from, from.thread.session), from.thread.offset, from.thread.remaining)
    decreases |steps|
  {
    if steps != [] {
      ServingStep(from, steps[0]);
      UndisturbedSendsFullDump(Next(from, steps[0]), steps[1..], to);
    }
  }

  /** How far a collection of one undisturbed request is. */
  ghost predicate OnItsWay(s: State)
    requires s.target in s.stored
  {
    var total := |s.stored[s.target]|;
    && s.request == Request(s.target, 0, total)
    && match s.thread
       case Blocked => s.pending || Reach(s.maxEnd, s.channel) == total
       case Taken => !s.pending
       case Cleared => !s.pending && !s.abort
       case GotSession(session) => !s.pending && !s.abort && session == s.target
       case GotOffset(session, offset) => !s.pending && !s.abort && session == s.target && offset == 0
       case Sending(session, offset, remaining) =>
         !s.pending && !s.abort && session == s.target && offset + remaining == total && remaining > 0
       case Holding(session, offset, remaining, chunk) =>
         && !s.pending && !s.abort && session == s.target && offset + remaining == total && remaining > 0
         && chunk == BuildChunk(s.stored[s.target], offset, remaining)
  }

  predicate OneRequestStep(step: Step) {
    !step.Ask? && !step.Abort? && !step.Refuse?
  }

  lemma LastChunkEnds(content: seq<Byte>, offset: nat, remaining: nat)
    requires remaining > 0 && offset + remaining == |content|
    ensures var c := BuildChunk(content, offset, remaining);
      && 0 < |c.data| <= remaining && (c.last <==> EndOfChunk(c) == |content|)
  {
  }

  lemma ReceiveReaches(s: State)
    requires Inv(s) && s.channel != []
    ensures Reach(Next(s, Receive).maxEnd, Next(s, Receive).channel) == Reach(s.maxEnd, s.channel)
  {
    var content, c := s.stored[s.target], s.channel[0];
    if s.done {
      assert EndOfChunk(c) <= s.maxEnd;
    } else {
      HostReceives(content, s.buf, s.maxEnd, c);
    }
  }

  lemma AcceptOnItsWay(s: State)
    requires Inv(s) && OnItsWay(s) && s.thread.Holding?
    ensures OnItsWay(Next(s, Accept))
  {
    var content, t := s.stored[s.target], s.thread;
    LastChunkEnds(content, t.offset, t.remaining);
    BuiltChunkOk(content, t.offset, t.remaining);
    AcceptExtends(content, s.maxEnd, s.channel, t.chunk);
  }

  lemma StaysOnItsWay(s: State, step: Step)
    requires Inv(s) && OnItsWay(s) && s.total > 0 && Enabled(s, step) && OneRequestStep(step)
    ensures OnItsWay(Next(s, step)) && Next(s, step).total == s.total
  {
    match step
    case Accept => AcceptOnItsWay(s);
    case Receive => ReceiveReaches(s);
    case _ =>
  }

  lemma {:induction false} RunsStayOnTheirWay(from: State, steps: seq<Step>, to: State)
    requires Inv(from) && OnItsWay(from) && from.total > 0 && IsRun(from, steps, to)
    requires forall i :: 0 <= i < |steps| ==> OneRequestStep(steps[i])
    ensures Inv(to) && OnItsWay(to) && to.total > 0
    decreases |steps|
  {
    if steps != [] {
      StaysOnItsWay(from, steps[0]);
      StepKeeps(from, steps[0]);
      RunsStayOnTheirWay(Next(from, steps[0]), steps[1..], to);
    }
  }

  function FirstRequest(stored: map<u32, seq<Byte>>, target: u32): Step
    requires target in stored
  {
    Ask(Request(target, 0, |stored[target]|))
  }

  /** Every collection of a session with records by one request that nothing disturbs is done
      once the thread has come to rest and all chunks are in. */
  lemma {:induction false} OneRequestSuffices(stored: map<u32, seq<Byte>>, target: u32, steps: seq<Step>, s: State)
    requires target in stored && stored[target] != []
    requires IsRun(Next(Init(stored, target), FirstRequest(stored, target)), steps, s)
    requires forall i :: 0 <= i < |steps| ==> OneRequestStep(steps[i])
    requires s.thread.Blocked? && !s.pending && s.channel == []
    ensures s.done && s.buf == stored[target]
  {
    var asked := Next(Init(stored, target), FirstRequest(stored, target));
    FirstAsked(stored, target);
    RunsStayOnTheirWay(asked, steps, s);
    RunKeepsContent(asked, steps, s);
    assert s.buf == s.buf[..s.maxEnd] && stored[target] == stored[target][..s.maxEnd];
  }

  lemma {:induction false} RunKeepsContent(from: State, steps: seq<Step>, to: State)
    requires IsRun(from, steps, to)
    ensures to.stored == from.stored && to.target == from.target
    decreases |steps|
  {
    if steps != [] {
      RunKeepsContent(Next(from, steps[0]), steps[1..], to);
    }
  }

  /** From a thread that is sending, all chunks can be built and accepted. */
  lemma {:induction false} SendAll(from: State, steps: seq<Step>, s: State) returns (more: seq<Step>, to: State)
    requires IsRun(from, steps, s) && Inv(s) && OnItsWay(s) && s.total > 0 && s.thread.Sending?
    requires forall i :: 0 <= i < |steps| ==> OneRequestStep(steps[i])
    ensures IsRun(from, more, to) && forall i :: 0 <= i < |more| ==> OneRequestStep(more[i])
    ensures Inv(to) && OnItsWay(to) && to.total > 0 && to.thread.Blocked? && !to.pending
    decreases s.thread.remaining
  {
    LastChunkEnds(s.stored[s.target], s.thread.offset, s.thread.remaining);
    var built;
    StaysOnItsWay(s, Build);
    StepKeeps(s, Build);
    more, built := RunExtends(from, steps, s, Build);
    StaysOnItsWay(built, Accept);
    StepKeeps(built, Accept);
    more, to := RunExtends(from, more, built, Accept);
    if to.thread.Sending? {
      more, to := SendAll(from, more, to);
    }
  }

  lemma {:induction false} ReceiveAll(from: State, steps: seq<Step>, s: State) returns (more: seq<Step>, to: State)
    requires IsRun(from, steps, s) && Inv(s) && s.thread.Blocked? && !s.pending
    requires forall i :: 0 <= i < |steps| ==> OneRequestStep(steps[i])
    ensures IsRun(from, more, to) && forall i :: 0 <= i < |more| ==> OneRequestStep(more[i])
    ensures to.thread.Blocked? && !to.pending && to.channel == []
    decreases |s.channel|
  {
    more, to := steps, s;
    if s.channel != [] {
      StepKeeps(s, Receive);
      more, to := RunExtends(from, steps, s, Receive);
      more, to := ReceiveAll(from, more, to);
    }
  }

  lemma FirstAsked(stored: map<u32, seq<Byte>>, target: u32)
    requires target in stored && stored[target] != []
    ensures var asked := Next(Init(stored, target), FirstRequest(stored, target));
      Inv(asked) && OnItsWay(asked) && asked.total > 0
  {
    assert Inv(Init(stored, target));
    StepKeeps(Init(stored, target), FirstRequest(stored, target));
  }

  /** The thread takes the request and loads its three words. */
  lemma RequestLoaded(asked: State) returns (steps: seq<Step>, s: State)
    requires Inv(asked) && OnItsWay(asked) && asked.total > 0 && asked.thread.Blocked? && asked.pending
    ensures IsRun(asked, steps, s) && forall i :: 0 <= i < |steps| ==> OneRequestStep(steps[i])
    ensures s.thread.Sending?
  {
    steps, s := RunExtends(asked, [], asked, Take);
    steps, s := RunExtends(asked, steps, s, Clear);
    steps, s := RunExtends(asked, steps, s, LoadSession);
    steps, s := RunExtends(asked, steps, s, LoadOffset);
    steps, s := RunExtends(asked, steps, s, LoadLength);
  }

  /** And there is such a collection. */
  lemma OneRequestCanFinish(stored: map<u32, seq<Byte>>, target: u32) returns (steps: seq<Step>, s: State)
    requires target in stored && stored[target] != []
    ensures IsRun(Next(Init(stored, target), FirstRequest(stored, target)), steps, s)
    ensures forall i :: 0 <= i < |steps| ==> OneRequestStep(steps[i])
    ensures s.thread.Blocked? && !s.pending && s.channel == [] && s.done && s.buf == stored[target]
  {
    var asked := Next(Init(stored, target), FirstRequest(stored, target));
    FirstAsked(stored, target);
    steps, s := RequestLoaded(asked);
    RunsStayOnTheirWay(asked, steps, s);
    steps, s := SendAll(asked, steps, s);
    steps, s := ReceiveAll(asked, steps, s);
    OneRequestSuffices(stored, target, steps, s);
  }

  /** Once a request is cancelled at most the chunk already built goes out before the thread
      takes the next one. */
  lemma {:induction false} CancelledSendsAtMostOneMore(from: State, steps: seq<Step>, to: State)
    requires from.abort && IsRun(from, steps, to) && forall i :: 0 <= i < |steps| ==> !steps[i].Clear?
    ensures to.abort && |to.sent| <= |from.sent| + (if from.thread.Holding? then 1 else 0)
    decreases |steps|
  {
    if steps != [] {
      CancelledSendsAtMostOneMore(Next(from, steps[0]), steps[1..], to);
    }
  }

  // ---- the host side ------------------------------------------------------------------

  class DumpSink {
    const total: nat
    var buf: seq<Byte>                // a bytearray
    var maxEnd: nat
    var done: bool

    constructor (total: nat)
      ensures this.total == total == |buf| && maxEnd == 0 && !done
    {
      this.total := total;
      buf := seq(total, _ => 0);
      maxEnd, done := 0, false;
    }

    /** on_chunk, for any chunk: exactly the state change of a Receive step. */
    method OnChunk(c: Chunk)
      modifies this
      ensures buf == (if old(done) then old(buf) else Landed(old(buf), total, c))
      ensures maxEnd == (if old(done) then old(maxEnd) else ReachedEnd(total, old(maxEnd), c))
      ensures done == (old(done) || NowDone(total, old(maxEnd), c))
    {
      if done {
        return;
      }
      var end := Min(c.offset + |c.data|, total);
      buf := SetSlice(buf, c.offset, end, SliceTo(c.data, end - c.offset));
      maxEnd := Max(maxEnd, end);
      if (c.last && end >= total) || maxEnd >= total {
        done := true;
      }
    }
  }

  /** data[:n] in Python. */
  function SliceTo(data: seq<Byte>, n: int): seq<Byte> {
    if n < 0 then data[..Max(0, |data| + n)] else data[..Min(n, |data|)]
  }

  /** buf[i:j] = piece in Python. */
  function SetSlice(buf: seq<Byte>, i: nat, j: nat, piece: seq<Byte>): seq<Byte> {
    var lo := Min(i, |buf|);
    buf[..lo] + piece + buf[Max(lo, Min(j, |buf|))..]
  }
}
