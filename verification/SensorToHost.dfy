/** The whole path: a host that has collected a session unpacks from its buffer the samples
    that the sensor delivered. */
module SensorToHost {
  import opened Words
  import opened LogSpec
  import opened EndToEnd
  import C = CrossCore
  import LogReads
  import Dump
  import DumpOfLog

  /** Over every run of sensor, cores, log and session commands, erases and resets included,
      and then every schedule of requests, stalls, resumes and refusals of a collection of any
      retained, intact session: the buffer of the finished collection unpacks to the samples
      the session stored as the sensor delivered them, less the oldest the flash ring no
      longer holds; and what is in so far of an unfinished one unpacks to the first of them. */
  lemma {:induction false} CollectedSamplesAreTheSensors(data: seq<Byte>, fw: u32, ring: seq<C.Sample>, steps: seq<Joint>,
                                                         s: System, k: u32, collection: seq<Dump.Step>, host: Dump.State)
    requires |data| == DATA_CAPACITY && |ring| == C.RING_N && IsJointRun(Init(data, fw, ring), steps, s)
    requires Shaped(s.w.log) && k in s.w.sessions && DumpOfLog.AllAddressable(s.w, k)
    requires LogReads.Retained(s.w, k) && LogReads.Intact(s.w, k)
    requires Dump.IsCollection(Dump.Init(map[k := LogReads.Readable(s.w, k)], k), collection, host)
    ensures Coupled(s) && k in s.w.starts && host.maxEnd <= |host.buf|
    ensures UnpackRecords(host.buf[..host.maxEnd]) <= SamplesOf(s, k)
    ensures host.done ==> UnpackRecords(host.buf) == SamplesOf(s, k)
    ensures host.buf != [] ==> (host.done <==> host.maxEnd == |host.buf|)
  {
    ReachableCoupled(data, fw, ring, steps, s);
    ReadableIsSamples(s, k);
    DumpOfLog.CollectedSessionIsWhatWasRecorded(s.w, k, collection, host, 0, 0);
    BufferUnpacks(SamplesOf(s, k), LogReads.Readable(s.w, k), host.buf, host.maxEnd);
  }

  /** A buffer that holds `content` up to maxEnd unpacks to the samples encoded there. */
  lemma BufferUnpacks(samples: seq<C.Sample>, content: seq<Byte>, buf: seq<Byte>, maxEnd: nat)
    requires content == Flatten(EncodeAll(samples)) && maxEnd <= |buf| == |content| && buf[..maxEnd] == content[..maxEnd]
    ensures UnpackRecords(buf[..maxEnd]) <= samples
    ensures buf == content ==> UnpackRecords(buf) == samples
  {
    UnpackGivesSamples(samples, buf[..maxEnd]);
    if buf == content {
      UnpackGivesSamples(samples, buf);
      assert samples[..|samples|] == samples;
    }
  }
}
