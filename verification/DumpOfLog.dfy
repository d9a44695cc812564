/** The dump protocol on top of the flash log: what the host collects is what was recorded. */
module DumpOfLog {
  import opened Words
  import opened LogSpec
  import opened LogRuns
  import opened LogArchive
  import opened LogReads
  import Dump

  /** No read of the session wraps its 32-bit byte address. */
  ghost predicate AllAddressable(w: World, seqNo: u32) {
    forall offset: u32, len: u32 :: Addressable(w, seqNo, offset, len)
  }

  /** For a retained session of a quiet log the chunk reads of the dump thread are reads of a
      fixed byte string, and a finished collection holds what the session recorded and the
      append-only store still has. */
  lemma CollectedSessionIsWhatWasRecorded(w: World, seqNo: u32, steps: seq<Dump.Step>, s: Dump.State,
                                          offset: u32, len: u32)
    requires Inv(w) && Archive(w) && AllAddressable(w, seqNo)
    requires seqNo in w.sessions && Retained(w, seqNo) && Intact(w, seqNo)
    requires Dump.IsCollection(Dump.Init(map[seqNo := Readable(w, seqNo)], seqNo), steps, s)
    ensures ReadSession(w.log, seqNo, offset, len) == Window(Dump.Content(s, seqNo), offset, len)
    ensures s.maxEnd <= |s.buf| == |Readable(w, seqNo)|
    ensures s.buf[..s.maxEnd] == Readable(w, seqNo)[..s.maxEnd]
    ensures s.done ==> s.buf == Readable(w, seqNo)
    ensures Readable(w, seqNo) != [] ==> (s.done <==> s.maxEnd == |s.buf|)
  {
    RetainedIsKnown(w, seqNo);
    assert Addressable(w, seqNo, offset, len);
    ReadMatchesHistory(w, seqNo, offset, len);
    Dump.ContentFixed(Dump.Init(map[seqNo := Readable(w, seqNo)], seqNo), steps, s);
    Dump.ReassemblyIsExact(map[seqNo := Readable(w, seqNo)], seqNo, steps, s);
  }

  /** Up to 2^28 records every session is addressable throughout. */
  lemma EarlySessionsAreAddressable(w: World, seqNo: u32)
    requires Inv(w) && Known(w.log.nv.dir, seqNo) && REC_SIZE * w.log.ram.total <= TWO32
    ensures AllAddressable(w, seqNo)
  {
    forall offset: u32, len: u32
      ensures Addressable(w, seqNo, offset, len)
    {
      EarlyReadsAreAddressable(w, seqNo, offset, len);
    }
  }
}
