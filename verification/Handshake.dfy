/** The configuration handshake of the shared block: the app fills four fields and bumps
    cfg_seq last; the FLPR polls cfg_seq, programs the sensor from the fields and echoes the
    number.  Neither side waits for the other, so the FLPR may gather its fields while the
    next update is being written. */
module Handshake {
  import opened Words

  const FIELDS: int := 4              // odr, content, accel_fs, gyro_fs

  datatype App =
    | Idle
    | Filling(target: seq<int>, done: nat)    // fields written so far; then publish

  datatype Flpr =
    | Waiting
    | Gathering(number: nat, got: map<nat, int>)
    | Programmed(number: nat, ret: int)       // sensor written
    | Reported(number: nat)                   // cfg_status written

  /** Publication numbers count up; the 32-bit cell holds them modulo 2^32. */
  datatype State = State(
    fields: seq<int>, seqNo: nat, applied: nat, status: int,
    sensor: seq<int>,                 // what the sensor is programmed to
    app: App, flpr: Flpr,
    published: seq<int>)              // the fields as of the last publication

  datatype Step =
    | BeginUpdate(target: seq<int>)
    | WriteField
    | PublishUpdate
    | Poll
    | ReadField(i: nat)               // argument order of a call is unspecified: any order
    | Configure(ret: int, left: seq<int>)     // on failure the sensor is left anyhow
    | ReportStatus
    | Acknowledge

  predicate Enabled(s: State, step: Step) {
    match step
    case BeginUpdate(target) => s.app.Idle? && |target| == FIELDS
    case WriteField => s.app.Filling? && s.app.done < FIELDS
    case PublishUpdate => s.app.Filling? && s.app.done == FIELDS
    case Poll => s.flpr.Waiting?
    case ReadField(i) => s.flpr.Gathering? && i < FIELDS && i !in s.flpr.got
    case Configure(ret, left) =>
      s.flpr.Gathering? && (forall i :: 0 <= i < FIELDS ==> i in s.flpr.got) && |left| == FIELDS
    case ReportStatus => s.flpr.Programmed?
    case Acknowledge => s.flpr.Reported?
  }

  ghost predicate Shaped(s: State) {
    && |s.fields| == |s.sensor| == |s.published| == FIELDS
    && (s.app.Filling? ==> |s.app.target| == FIELDS && s.app.done <= FIELDS)
  }

  ghost function Next(s: State, step: Step): State
    requires Shaped(s) && Enabled(s, step)
  {
    match step
    case BeginUpdate(target) => s.(app := Filling(target, 0))
    case WriteField =>
      s.(fields := s.fields[s.app.done := s.app.target[s.app.done]], app := s.app.(done := s.app.done + 1))
    case PublishUpdate => s.(seqNo := s.seqNo + 1, app := Idle, published := s.fields)
    case Poll => if Wrap(s.seqNo) == Wrap(s.applied) then s else s.(flpr := Gathering(s.seqNo, map[]))
    case ReadField(i) => s.(flpr := s.flpr.(got := s.flpr.got[i := s.fields[i]]))
    case Configure(ret, left) =>
      s.(sensor := if ret == 0 then seq(FIELDS, i requires 0 <= i < FIELDS => s.flpr.got[i]) else left,
         flpr := Programmed(s.flpr.number, ret))
    case ReportStatus => s.(status := s.flpr.ret, flpr := Reported(s.flpr.number))
    case Acknowledge => s.(applied := s.flpr.number, flpr := Waiting)
  }

  /** The block when the FLPR has booted with the sensor answering. */
  function Init(fields: seq<int>): State {
    State(fields, 1, 1, 0, fields, Idle, Waiting, fields)
  }

  /** What the gathering core has read is current as long as no newer update has begun. */
  ghost predicate Inv(s: State) {
    && Shaped(s)
    && s.applied <= s.seqNo
    && (s.app.Idle? ==> s.fields == s.published)
    && (s.app.Filling? ==> forall i :: 0 <= i < s.app.done ==> s.fields[i] == s.app.target[i])
    && (match s.flpr
        case Waiting =>
          s.applied == s.seqNo && s.app.Idle? && s.status == 0 ==> s.sensor == s.published
        case Gathering(number, got) =>
          && s.applied < number <= s.seqNo
          && (number == s.seqNo && s.app.Idle? ==> forall i :: i in got && i < FIELDS ==> got[i] == s.published[i])
        case Programmed(number, ret) =>
          && s.applied < number <= s.seqNo
          && (number == s.seqNo && s.app.Idle? && ret == 0 ==> s.sensor == s.published)
        case Reported(number) =>
          && s.applied < number <= s.seqNo
          && (number == s.seqNo && s.app.Idle? && s.status == 0 ==> s.sensor == s.published))
  }

  lemma StepKeeps(s: State, step: Step)
    requires Inv(s) && Enabled(s, step)
    ensures Inv(Next(s, step))
  {
    match step
    case Poll =>
      if s.seqNo == s.applied { assert Wrap(s.seqNo) == Wrap(s.applied); }
    case Configure(ret, left) =>
      if ret == 0 && s.flpr.number == s.seqNo && s.app.Idle? {
        assert Next(s, step).sensor == s.published;
      }
    case _ =>
  }

  ghost predicate IsRun(from: State, steps: seq<Step>, to: State)
    decreases |steps|
  {
    Shaped(from) &&
    if steps == [] then from == to
    else Enabled(from, steps[0]) && IsRun(Next(from, steps[0]), steps[1..], to)
  }

  lemma {:induction false} RunsKeep(from: State, steps: seq<Step>, to: State)
    requires Inv(from) && IsRun(from, steps, to)
    ensures Inv(to)
    decreases |steps|
  {
    if steps != [] {
      StepKeeps(from, steps[0]);
      RunsKeep(Next(from, steps[0]), steps[1..], to);
    }
  }

  /** Whenever the app is between updates and reads back its own number with status 0, the
      sensor runs exactly the fields of that update, whatever the cores interleaved before.
      (The 32-bit comparison is conclusive while fewer than 2^32 updates are unacknowledged.) */
  lemma {:induction false} AcknowledgedMeansApplied(fields: seq<int>, steps: seq<Step>, s: State)
    requires |fields| == FIELDS && IsRun(Init(fields), steps, s)
    requires s.app.Idle? && Wrap(s.applied) == Wrap(s.seqNo) && s.status == 0
    requires s.seqNo < s.applied + TWO32
    ensures s.sensor == s.published == s.fields
  {
    RunsKeep(Init(fields), steps, s);
    EqualNumbers(s.applied, s.seqNo);
  }

  lemma EqualNumbers(a: nat, b: nat)
    requires a <= b < a + TWO32 && Wrap(a) == Wrap(b)
    ensures a == b
  {
    assert b - a == TWO32 * (b / TWO32 - a / TWO32);
  }

  lemma {:induction false} RunExtends(from: State, steps: seq<Step>, s: State, step: Step)
    returns (more: seq<Step>, to: State)
    requires IsRun(from, steps, s) && Shaped(s) && Enabled(s, step) && Shaped(Next(s, step))
    ensures more == steps + [step] && to == Next(s, step) && IsRun(from, more, to)
    decreases |steps|
  {
    more, to := steps + [step], Next(s, step);
    if steps == [] {
      assert more[1..] == [];
    } else {
      var rest, _ := RunExtends(Next(from, steps[0]), steps[1..], s, step);
      assert more[1..] == rest;
    }
  }

  lemma FieldWritten(fields: seq<int>, target: seq<int>, done: nat)
    requires |fields| == |target| && done < |fields|
    ensures (target[..done] + fields[done..])[done := target[done]] == target[..done + 1] + fields[done + 1..]
  {
  }

  /** The app's part of an update, from any point of a run. */
  lemma Updated(from: State, steps: seq<Step>, s: State, target: seq<int>) returns (more: seq<Step>, to: State)
    requires IsRun(from, steps, s) && Shaped(s) && s.app.Idle? && |target| == FIELDS
    ensures IsRun(from, more, to) && Shaped(to)
    ensures to == s.(fields := target, seqNo := s.seqNo + 1, published := target)
  {
    more, to := RunExtends(from, steps, s, BeginUpdate(target));
    for done := 0 to FIELDS
      invariant IsRun(from, more, to) && Shaped(to)
      invariant to == s.(app := Filling(target, done), fields := target[..done] + s.fields[done..])
    {
      FieldWritten(s.fields, target, done);
      more, to := RunExtends(from, more, to, WriteField);
    }
    more, to := RunExtends(from, more, to, PublishUpdate);
    assert target[..FIELDS] == target && s.fields[FIELDS..] == [];
  }

  /** The FLPR's part: it gathers the fields as they stand and programs the sensor. */
  lemma Applied(from: State, steps: seq<Step>, s: State) returns (more: seq<Step>, to: State)
    requires IsRun(from, steps, s) && Shaped(s) && s.flpr == Gathering(s.seqNo, map[])
    ensures IsRun(from, more, to) && Shaped(to)
    ensures to == s.(sensor := s.fields, status := 0, applied := s.seqNo, flpr := Waiting)
  {
    more, to := steps, s;
    for i := 0 to FIELDS
      invariant IsRun(from, more, to) && Shaped(to) && to == s.(flpr := to.flpr)
      invariant to.flpr.Gathering? && to.flpr.number == s.seqNo
      invariant forall k :: k in to.flpr.got <==> 0 <= k < i
      invariant forall k :: 0 <= k < i ==> to.flpr.got[k] == s.fields[k]
    {
      more, to := RunExtends(from, more, to, ReadField(i));
    }
    more, to := RunExtends(from, more, to, Configure(0, s.fields));
    assert to.sensor == s.fields;
    more, to := RunExtends(from, more, to, ReportStatus);
    more, to := RunExtends(from, more, to, Acknowledge);
  }

  /** From any point between updates an update can be published, taken up and acknowledged. */
  lemma UpdateCanBeApplied(from: State, steps: seq<Step>, s: State, target: seq<int>) returns (more: seq<Step>, to: State)
    requires IsRun(from, steps, s) && Shaped(s) && s.app.Idle? && s.flpr.Waiting? && |target| == FIELDS
    requires s.applied <= s.seqNo < s.applied + TWO32 - 1
    ensures IsRun(from, more, to) && to.app.Idle? && to.flpr.Waiting?
    ensures to.applied == to.seqNo == s.seqNo + 1 && to.status == 0 && to.sensor == to.published == target
  {
    more, to := Updated(from, steps, s, target);
    if Wrap(to.seqNo) == Wrap(to.applied) {
      EqualNumbers(to.applied, to.seqNo);
    }
    more, to := RunExtends(from, more, to, Poll);
    more, to := Applied(from, more, to);
  }

  /** The acknowledgement alone is not enough while an update is being written: here it
      arrives for number 2 with a sensor running half of update 2 and half of update 3. */
  lemma TornMixIsPossible() returns (steps: seq<Step>, to: State)
    ensures IsRun(Init([7, 0, 0, 0]), steps, to)
    ensures to.applied == to.seqNo == 2 && to.status == 0 && to.app.Filling?
    ensures to.published == [7, 3, 0, 0] && to.sensor == [9, 3, 0, 0]
  {
    var init := Init([7, 0, 0, 0]);
    steps, to := Updated(init, [], init, [7, 3, 0, 0]);
    steps, to := RunExtends(init, steps, to, Poll);
    steps, to := RunExtends(init, steps, to, BeginUpdate([9, 1, 0, 0]));
    steps, to := RunExtends(init, steps, to, WriteField);
    steps, to := Applied(init, steps, to);
  }

  // ---- the two sides as the sources write them ------------------------------------

  class ControlBlock {
    var fields: array<int>            // cfg_odr, cfg_content, cfg_accel_fs, cfg_gyro_fs
    var cfgSeq: u32
    var cfgApplied: u32
    var cfgStatus: int
    var sensor: seq<int>              // what the sensor was last programmed to

    ghost predicate Valid()
      reads this
    {
      fields.Length == FIELDS
    }

    constructor (defaults: seq<int>)
      requires |defaults| == FIELDS
      ensures Valid() && fields[..] == sensor == defaults && cfgSeq == cfgApplied == 1 && cfgStatus == 0
    {
      fields := new int[FIELDS](i requires 0 <= i < FIELDS => defaults[i]);
      cfgSeq, cfgApplied, cfgStatus, sensor := 1, 1, 0, defaults;
      new;
      assert fields[..] == defaults;
    }

    /** session_imu_run_update: content is 0 unless someone needs samples. */
    method RunUpdate(settings: seq<int>, demand: bool)
      requires Valid() && |settings| == FIELDS
      modifies `cfgSeq, fields
      ensures Valid() && cfgSeq == Wrap(old(cfgSeq) + 1)
      ensures fields[..] == (if demand then settings else settings[1 := 0])
    {
      var content := if demand then settings[1] else 0;
      fields[0] := settings[0];
      fields[1] := content;
      fields[2] := settings[2];
      fields[3] := settings[3];
      cfgSeq := Wrap(cfgSeq + 1);
    }

    /** apply_config with the driver's result: afterwards the published number is always
        acknowledged, and with status 0 the sensor runs the published fields. */
    method ApplyConfig(driverRet: int, left: seq<int>)
      requires Valid() && |left| == FIELDS
      requires cfgSeq == cfgApplied && cfgStatus == 0 ==> sensor == fields[..]
      modifies `cfgApplied, `cfgStatus, `sensor
      ensures Valid() && cfgApplied == cfgSeq
      ensures cfgStatus == (if old(cfgSeq == cfgApplied) then old(cfgStatus) else driverRet)
      ensures cfgStatus == 0 ==> sensor == fields[..]
    {
      var number := cfgSeq;
      if number == cfgApplied {
        return;
      }
      sensor := if driverRet == 0 then [fields[0], fields[1], fields[2], fields[3]] else left;
      cfgStatus := driverRet;
      cfgApplied := number;
    }
  }
}
