/** The two-slot settings store: values live in RAM, a debounced work item writes the whole
    record to the slot its generation selects, and a boot takes the newest valid slot.

    A persist is two events, because the flash write waits for a radio timeslot: the work
    item bumps the generation and computes the CRC, and later the flash copies the record as
    it then is.  The CRC is taken to be ideal: a slot is valid exactly when the bytes under
    it are those the CRC was computed over. */
module Settings {
  import opened Words

  datatype Meta = Meta(id: nat, def: int, min: int, max: int)

  const MAX_ID: nat := 9

  function Table(): (t: seq<Meta>)
    ensures |t| == 9
    ensures forall i :: 0 <= i < 9 ==> t[i].id == i + 1 && 0 <= t[i].min <= t[i].def <= t[i].max <= 0xFFFF
  {
    [Meta(1, 150, 4, 1000), Meta(2, 3100, 750, 4200), Meta(3, 7, 1, 10), Meta(4, 3, 1, 3), Meta(5, 0, 0, 3),
     Meta(6, 0, 0, 3), Meta(7, 0, 0, 6660), Meta(8, 1, 0, 1), Meta(9, 0, 0, 20)]
  }

  /** values[id] for id 0..9; id 0 is not a setting. */
  datatype Record = Record(generation: u32, values: seq<int>)

  datatype Slot =
    | Unreadable                                  // no magic, or torn
    | Written(rec: Record, crcOver: Record)

  predicate SlotValid(s: Slot) {
    s.Written? && s.rec == s.crcOver
  }

  function Defaults(): (values: seq<int>)
    ensures |values| == MAX_ID + 1
  {
    seq(MAX_ID + 1, id requires 0 <= id <= MAX_ID => if id == 0 then 0 else Table()[id - 1].def)
  }

  predicate InRange(values: seq<int>) {
    |values| == MAX_ID + 1 && forall id :: 1 <= id <= MAX_ID ==> Table()[id - 1].min <= values[id] <= Table()[id - 1].max
  }

  function ClampOne(m: Meta, v: int): int {
    if v < m.min || v > m.max then m.def else v
  }

  /** Load-time check: values outside the current registry fall back to defaults. */
  function Sanitized(values: seq<int>): (r: seq<int>)
    requires |values| == MAX_ID + 1
    ensures InRange(r)
    ensures InRange(values) ==> r == values
  {
    seq(MAX_ID + 1, id requires 0 <= id <= MAX_ID =>
      if id == 0 then values[0] else ClampOne(Table()[id - 1], values[id]))
  }

  /** settings_store_init: the valid slot with the higher generation, slot 0 on a tie. */
  function Load(slots: seq<Slot>): Record
    requires |slots| == 2
    requires forall i :: 0 <= i < 2 && slots[i].Written? ==> |slots[i].rec.values| == MAX_ID + 1
  {
    if SlotValid(slots[0]) && (!SlotValid(slots[1]) || slots[0].rec.generation >= slots[1].rec.generation)
    then slots[0].rec.(values := Sanitized(slots[0].rec.values))
    else if SlotValid(slots[1]) then slots[1].rec.(values := Sanitized(slots[1].rec.values))
    else Record(0, Defaults())
  }

  function Clamp(v: int, lo: int, hi: int): int {
    if v < lo then lo else if v > hi then hi else v
  }

  // ---- transitions -------------------------------------------------------------

  datatype Work =
    | Resting
    | Writing(crcOver: Record)        // generation bumped, CRC computed, write pending

  /** How much of a pending write the power cut lets through. */
  datatype Torn = Nothing | Part | All

  datatype State = State(slots: seq<Slot>, ram: Record, work: Work,
                         completed: Record,   // the last record whose persist finished
                         clean: bool)         // ... with the values it began with

  datatype Event =
    | Set(id: nat, value: int)
    | BeginPersist
    | EndPersist(ok: bool)
    | PowerCut(torn: Torn)            // and the boot that follows

  predicate Shaped(s: State) {
    && |s.slots| == 2
    && (forall i :: 0 <= i < 2 && s.slots[i].Written? ==> |s.slots[i].rec.values| == MAX_ID + 1)
    && |s.ram.values| == MAX_ID + 1
  }

  predicate Enabled(s: State, e: Event) {
    match e
    case Set(_, _) => true
    case BeginPersist => s.work.Resting?
    case EndPersist(_) => s.work.Writing?
    case PowerCut(_) => true
  }

  /** settings_set on the RAM record; unknown ids are ignored. */
  function SetValue(values: seq<int>, id: nat, value: int): (r: seq<int>)
    requires |values| == MAX_ID + 1
    ensures |r| == |values|
  {
    if 1 <= id <= MAX_ID then values[id := Clamp(value, Table()[id - 1].min, Table()[id - 1].max)] else values
  }

  function Target(generation: u32): nat {
    generation % 2
  }

  /** The slot contents once a pending write has gone through to some extent. */
  function AfterWrite(s: State, torn: Torn): seq<Slot>
    requires Shaped(s)
  {
    if s.work.Resting? || torn.Nothing? then s.slots
    else s.slots[Target(s.ram.generation) := if torn.Part? then Unreadable else Written(s.ram, s.work.crcOver)]
  }

  function Next(s: State, e: Event): State
    requires Shaped(s) && Enabled(s, e)
  {
    match e
    case Set(id, value) => s.(ram := s.ram.(values := SetValue(s.ram.values, id, value)))
    case BeginPersist =>
      var bumped := s.ram.(generation := Wrap(s.ram.generation + 1));
      s.(ram := bumped, work := Writing(bumped))
    case EndPersist(ok) =>
      if ok
      then s.(slots := AfterWrite(s, All), work := Resting, completed := s.ram, clean := s.ram.values == s.work.crcOver.values)
      else s.(work := Resting)
    case PowerCut(torn) =>
      var slots := AfterWrite(s, torn);
      State(slots, Load(slots), Resting, Load(slots), true)
  }

  /** First boot of an empty store. */
  function Blank(): State {
    State([Unreadable, Unreadable], Record(0, Defaults()), Resting, Record(0, Defaults()), true)
  }

  // ---- undisturbed persists ------------------------------------------------------

  /** The event does not change a value while a write is pending, no write fails and the
      generation counter does not wrap. */
  predicate Undisturbed(s: State, e: Event)
    requires Shaped(s)
  {
    match e
    case Set(id, value) => s.work.Resting? || SetValue(s.ram.values, id, value) == s.ram.values
    case BeginPersist => s.ram.generation + 1 < TWO32
    case EndPersist(ok) => ok
    case PowerCut(_) => true
  }

  /** A valid slot lies where its generation puts it and holds registered values. */
  predicate SlotOk(s: Slot, i: nat) {
    SlotValid(s) ==> Target(s.rec.generation) == i && s.rec.generation >= 1 && InRange(s.rec.values)
  }

  predicate Inv(s: State) {
    && Shaped(s)
    && SlotOk(s.slots[0], 0) && SlotOk(s.slots[1], 1)
    && InRange(s.ram.values)
    && Load(s.slots) == s.completed
    && (match s.work
        case Resting => s.ram.generation == s.completed.generation
        case Writing(crcOver) => s.ram.generation == s.completed.generation + 1 && crcOver == s.ram)
  }

  lemma DefaultsInRange()
    ensures InRange(Defaults())
  {
  }

  lemma SetKeepsRange(values: seq<int>, id: nat, value: int)
    requires InRange(values)
    ensures InRange(SetValue(values, id, value))
  {
  }

  function Distance(a: int, b: int): nat {
    if a <= b then b - a else a - b
  }

  predicate Permitted(id: nat, x: int)
    requires 1 <= id <= MAX_ID
  {
    Table()[id - 1].min <= x <= Table()[id - 1].max
  }

  /** A set stores for a known id the permitted value nearest to the requested one, and leaves
      all other ids alone; an unknown id changes nothing. */
  lemma SetStoresTheNearest(values: seq<int>, id: nat, value: int)
    requires |values| == MAX_ID + 1
    ensures var after := SetValue(values, id, value);
      && (forall k :: 0 <= k <= MAX_ID && k != id ==> after[k] == values[k])
      && (1 <= id <= MAX_ID ==>
            && Permitted(id, after[id])
            && (Permitted(id, value) ==> after[id] == value)
            && forall x :: Permitted(id, x) ==> Distance(value, after[id]) <= Distance(value, x))
    ensures !(1 <= id <= MAX_ID) ==> SetValue(values, id, value) == values
  {
  }

  /** Loading keeps every permitted value and replaces every other one by its default. */
  lemma LoadFallsBackToDefaults(values: seq<int>, id: nat)
    requires |values| == MAX_ID + 1 && 1 <= id <= MAX_ID
    ensures Sanitized(values)[id] == if Permitted(id, values[id]) then values[id] else Defaults()[id]
    ensures Permitted(id, Defaults()[id]) && Defaults()[id] == Table()[id - 1].def
  {
  }

  /** The pending write goes to the slot that does not hold the newest valid record, and a
      cut leaves either the last completed record or the one being written. */
  lemma CutLoadsOldOrNew(s: State, torn: Torn)
    requires Inv(s)
    ensures Load(AfterWrite(s, torn)) == if s.work.Writing? && torn.All? then s.ram else s.completed
    ensures SlotOk(AfterWrite(s, torn)[0], 0) && SlotOk(AfterWrite(s, torn)[1], 1)
  {
  }

  lemma EndKeeps(s: State)
    requires Inv(s) && s.work.Writing?
    ensures Inv(Next(s, EndPersist(true)))
  {
    CutLoadsOldOrNew(s, All);
  }

  lemma CutKeeps(s: State, torn: Torn)
    requires Inv(s)
    ensures Inv(Next(s, PowerCut(torn)))
  {
    CutLoadsOldOrNew(s, torn);
  }

  lemma StepKeeps(s: State, e: Event)
    requires Inv(s) && Enabled(s, e) && Undisturbed(s, e)
    ensures Inv(Next(s, e))
  {
    match e
    case Set(id, value) => SetKeepsRange(s.ram.values, id, value);
    case BeginPersist =>
    case EndPersist(ok) => EndKeeps(s);
    case PowerCut(torn) => CutKeeps(s, torn);
  }

  ghost predicate IsRun(from: State, events: seq<Event>, to: State)
    decreases |events|
  {
    Shaped(from) &&
    if events == [] then from == to
    else Enabled(from, events[0]) && Undisturbed(from, events[0]) && IsRun(Next(from, events[0]), events[1..], to)
  }

  lemma {:induction false} RunsKeep(from: State, events: seq<Event>, to: State)
    requires Inv(from) && IsRun(from, events, to)
    ensures Inv(to)
    decreases |events|
  {
    if events != [] {
      StepKeeps(from, events[0]);
      RunsKeep(Next(from, events[0]), events[1..], to);
    }
  }

  /** Power-cut safety over every undisturbed run, over any number of cuts. */
  lemma {:induction false} PowerCutLosesAtMostTheNewestChange(events: seq<Event>, s: State, torn: Torn)
    requires IsRun(Blank(), events, s) && Shaped(s)
    ensures var after := Next(s, PowerCut(torn));
      && (after.ram == s.completed || (s.work.Writing? && after.ram == s.ram))
      && (torn.All? && s.work.Writing? ==> after.ram == s.ram)
      && InRange(after.ram.values)
    ensures s.work.Writing? && SlotValid(s.slots[Target(s.ram.generation)]) ==>
      s.slots[Target(s.ram.generation)].rec.generation < s.completed.generation
  {
    DefaultsInRange();
    RunsKeep(Blank(), events, s);
    CutLoadsOldOrNew(s, torn);
  }

  // ---- when persists are disturbed -------------------------------------------------

  /** Any run: values change during writes, writes fail, power is cut; only the generation
      counter does not wrap. */
  ghost predicate IsAnyRun(from: State, events: seq<Event>, to: State)
    decreases |events|
  {
    Shaped(from) &&
    if events == [] then from == to
    else
      && Enabled(from, events[0]) && (events[0].BeginPersist? ==> from.ram.generation + 1 < TWO32)
      && IsAnyRun(Next(from, events[0]), events[1..], to)
  }

  /** Slot i is older than record `ram`, or is that record's own. */
  predicate OlderSlot(s: Slot, ram: Record, pending: bool) {
    SlotValid(s) ==> s.rec.generation <= ram.generation && (pending ==> s.rec.generation < ram.generation)
  }

  /** What every run keeps, disturbed or not. */
  ghost predicate AnyInv(s: State) {
    && Shaped(s)
    && SlotOk(s.slots[0], 0) && SlotOk(s.slots[1], 1)
    && OlderSlot(s.slots[0], s.ram, s.work.Writing?) && OlderSlot(s.slots[1], s.ram, s.work.Writing?)
    && InRange(s.ram.values)
    && (s.work.Writing? ==> s.work.crcOver.generation == s.ram.generation >= 1)
    && Load(s.slots).generation <= s.completed.generation <= s.ram.generation
    && (s.work.Writing? ==> s.completed.generation < s.ram.generation)
    && (s.clean <==> Load(s.slots) == s.completed)
  }

  /** A boot loads the valid slot with the largest generation, as it is. */
  lemma LoadsTheNewest(slots: seq<Slot>)
    requires |slots| == 2 && SlotOk(slots[0], 0) && SlotOk(slots[1], 1)
    requires forall i :: 0 <= i < 2 && slots[i].Written? ==> |slots[i].rec.values| == MAX_ID + 1
    ensures var r := Load(slots);
      if SlotValid(slots[0]) || SlotValid(slots[1])
      then slots[Target(r.generation)] == Written(r, r) && r.generation >= 1
      else r == Record(0, Defaults())
    ensures forall i :: 0 <= i < 2 && SlotValid(slots[i]) ==> slots[i].rec.generation <= Load(slots).generation
    ensures InRange(Load(slots).values)
  {
    DefaultsInRange();
  }

  lemma WriteKeepsSlots(s: State, torn: Torn)
    requires AnyInv(s)
    ensures var slots := AfterWrite(s, torn);
      && SlotOk(slots[0], 0) && SlotOk(slots[1], 1)
      && OlderSlot(slots[0], s.ram, false) && OlderSlot(slots[1], s.ram, false)
  {
  }

  lemma AnyEndKeeps(s: State, ok: bool)
    requires AnyInv(s) && s.work.Writing?
    ensures AnyInv(Next(s, EndPersist(ok)))
  {
    WriteKeepsSlots(s, All);
    LoadsTheNewest(s.slots);
    LoadsTheNewest(AfterWrite(s, All));
  }

  lemma AnyCutKeeps(s: State, torn: Torn)
    requires AnyInv(s)
    ensures AnyInv(Next(s, PowerCut(torn)))
  {
    WriteKeepsSlots(s, torn);
    LoadsTheNewest(AfterWrite(s, torn));
  }

  lemma AnyStepKeeps(s: State, e: Event)
    requires AnyInv(s) && Enabled(s, e) && (e.BeginPersist? ==> s.ram.generation + 1 < TWO32)
    ensures AnyInv(Next(s, e))
  {
    match e
    case Set(id, value) => SetKeepsRange(s.ram.values, id, value);
    case BeginPersist =>
    case EndPersist(ok) => AnyEndKeeps(s, ok);
    case PowerCut(torn) => AnyCutKeeps(s, torn);
  }

  lemma {:induction false} AnyRunsKeep(from: State, events: seq<Event>, to: State)
    requires AnyInv(from) && IsAnyRun(from, events, to)
    ensures AnyInv(to)
    decreases |events|
  {
    if events != [] {
      AnyStepKeeps(from, events[0]);
      AnyRunsKeep(Next(from, events[0]), events[1..], to);
    }
  }

  /** A power cut at this point loses nothing but the newest change: the next boot loads the
      last record whose persist finished, or the pending one. */
  ghost predicate CutIsSafe(s: State, torn: Torn)
    requires Shaped(s)
  {
    var loaded := Load(AfterWrite(s, torn));
    loaded == s.completed || (s.work.Writing? && loaded == s.ram)
  }

  /** Persists begun since the last one that finished, the pending one included. */
  function Gap(s: State): int {
    s.ram.generation - s.completed.generation
  }

  lemma OddGapIsSafe(s: State, torn: Torn)
    requires AnyInv(s) && s.clean && (s.work.Resting? || s.completed.generation == 0 || Gap(s) % 2 == 1)
    ensures CutIsSafe(s, torn)
  {
    var after := AfterWrite(s, torn);
    WriteKeepsSlots(s, torn);
    LoadsTheNewest(s.slots);
    LoadsTheNewest(after);
  }

  lemma EvenGapLosesNewest(s: State)
    requires AnyInv(s) && s.work.Writing? && s.clean && s.completed.generation >= 1 && Gap(s) % 2 == 0
    ensures !CutIsSafe(s, Part)
  {
    WriteKeepsSlots(s, Part);
    LoadsTheNewest(s.slots);
    LoadsTheNewest(AfterWrite(s, Part));
  }

  /** What a spoiled write left is already lost before the power is cut. */
  lemma SpoiledIsUnsafe(s: State)
    requires AnyInv(s) && !s.clean
    ensures !CutIsSafe(s, Nothing)
  {
    LoadsTheNewest(s.slots);
  }

  /** Over every run, values changed during writes and failed writes included: whatever a
      power cut does, the next boot loads the last completed record or the pending one if and
      only if the last completed write went through with the values it began with, and either
      nothing is pending, or nothing was ever stored, or the pending persist is an odd number
      of generations ahead (an even number of writes failed since) and so aimed at the other
      slot. */
  lemma {:induction false} CutIsSafeIffCleanAndOddGap(events: seq<Event>, s: State)
    requires IsAnyRun(Blank(), events, s) && Shaped(s)
    ensures (forall torn :: CutIsSafe(s, torn))
       <==> s.clean && (s.work.Resting? || s.completed.generation == 0 || Gap(s) % 2 == 1)
  {
    DefaultsInRange();
    AnyRunsKeep(Blank(), events, s);
    if !s.clean {
      SpoiledIsUnsafe(s);
    } else if s.work.Resting? || s.completed.generation == 0 || Gap(s) % 2 == 1 {
      forall torn
        ensures CutIsSafe(s, torn)
      {
        OddGapIsSafe(s, torn);
      }
    } else {
      EvenGapLosesNewest(s);
    }
  }

  /** Over every run: a write that goes through is what the next boot loads if and only if no
      value changed while it was pending; otherwise the boot falls back to an older record. */
  lemma {:induction false} WriteIsLoadedIffUnchanged(events: seq<Event>, s: State)
    requires IsAnyRun(Blank(), events, s) && Shaped(s) && s.work.Writing?
    ensures var loaded := Load(Next(s, EndPersist(true)).slots);
      && (loaded == s.ram <==> s.ram.values == s.work.crcOver.values)
      && (loaded != s.ram ==> loaded.generation < s.ram.generation)
  {
    DefaultsInRange();
    AnyRunsKeep(Blank(), events, s);
    WriteKeepsSlots(s, All);
    LoadsTheNewest(AfterWrite(s, All));
  }

  lemma {:induction false} RunExtends(from: State, events: seq<Event>, s: State, e: Event)
    returns (more: seq<Event>, to: State)
    requires IsAnyRun(from, events, s) && Shaped(s) && Enabled(s, e) && Shaped(Next(s, e))
    requires e.BeginPersist? ==> s.ram.generation + 1 < TWO32
    ensures more == events + [e] && to == Next(s, e) && IsAnyRun(from, more, to)
    decreases |events|
  {
    more, to := events + [e], Next(s, e);
    if events == [] {
      assert more[1..] == [];
    } else {
      var rest, _ := RunExtends(Next(from, events[0]), events[1..], s, e);
      assert more[1..] == rest;
    }
  }

  /** A run from the empty store that leaves `rec`, generation 1, in slot 1. */
  lemma FirstPersist(value: int) returns (events: seq<Event>, s: State)
    requires 0 <= value <= 20
    ensures IsAnyRun(Blank(), events, s) && Shaped(s) && events == [Set(9, value), BeginPersist, EndPersist(true)]
    ensures var r := Record(1, Defaults()[9 := value]); s == State([Unreadable, Written(r, r)], r, Resting, r, true)
  {
    var r := Record(1, Defaults()[9 := value]);
    events, s := RunExtends(Blank(), [], Blank(), Set(9, value));
    events, s := RunExtends(Blank(), events, s, BeginPersist);
    events, s := RunExtends(Blank(), events, s, EndPersist(true));
  }

  /** And one in which a value changed while the second write was pending. */
  lemma SpoiledPersist() returns (events: seq<Event>, s: State)
    ensures IsAnyRun(Blank(), events, s) && Shaped(s) && forall i :: 0 <= i < |events| ==> events[i] != EndPersist(false)
    ensures var r, old7, new8 := Record(1, Defaults()[9 := 7]), Record(2, Defaults()[9 := 7]), Record(2, Defaults()[9 := 8]);
      s == State([Written(new8, old7), Written(r, r)], new8, Resting, new8, false)
  {
    events, s := FirstPersist(7);
    events, s := RunExtends(Blank(), events, s, BeginPersist);
    events, s := RunExtends(Blank(), events, s, Set(9, 8));
    assert s.ram.values == Defaults()[9 := 8] && Defaults()[9 := 8][9] != Defaults()[9 := 7][9];
    events, s := RunExtends(Blank(), events, s, EndPersist(true));
  }

  /** A run from the empty store without any error, after which nothing is pending and yet
      every cut loses the completed persist: a value changed while it was pending. */
  lemma SpoiledWriteIsLost() returns (events: seq<Event>, s: State)
    ensures IsAnyRun(Blank(), events, s) && Shaped(s) && forall i :: 0 <= i < |events| ==> events[i] != EndPersist(false)
    ensures s.work.Resting? && s.completed == s.ram == Record(1, Defaults()[9 := 8]) && !s.clean
    ensures forall torn :: Next(s, PowerCut(torn)).ram == Record(0, Defaults())
  {
    events, s := RunExtends(Blank(), [], Blank(), Set(9, 7));
    events, s := RunExtends(Blank(), events, s, BeginPersist);
    events, s := RunExtends(Blank(), events, s, Set(9, 8));
    assert s.ram.values == Defaults()[9 := 8] && s.work.crcOver.values == Defaults()[9 := 7];
    assert Defaults()[9 := 8][9] != Defaults()[9 := 7][9];
    events, s := RunExtends(Blank(), events, s, EndPersist(true));
    assert !SlotValid(s.slots[0]) && !SlotValid(s.slots[1]);
    forall torn
      ensures Next(s, PowerCut(torn)).ram == Record(0, Defaults())
    {
      assert AfterWrite(s, torn) == s.slots;
    }
  }

  /** A run from the empty store without any error: a value changed while a write was
      pending, and a cut during the next persist loses every stored setting. */
  lemma SetDuringWriteCanLoseEverything() returns (events: seq<Event>, s: State)
    ensures IsAnyRun(Blank(), events, s) && Shaped(s) && forall i :: 0 <= i < |events| ==> events[i] != EndPersist(false)
    ensures s.completed == Record(2, Defaults()[9 := 8]) && s.work.Writing?
    ensures Next(s, PowerCut(Part)).ram == Record(0, Defaults())
  {
    events, s := SpoiledPersist();
    events, s := RunExtends(Blank(), events, s, BeginPersist);
    assert Defaults()[9 := 8][9] != Defaults()[9 := 7][9];
  }

  /** The same loss by a run with a returned write error, which advances the generation all
      the same. */
  lemma WriteErrorCanLoseEverything() returns (events: seq<Event>, s: State)
    ensures IsAnyRun(Blank(), events, s) && Shaped(s) && forall i :: 0 <= i < |events| && events[i].Set? ==> i == 0
    ensures s.completed == Record(1, Defaults()[9 := 7]) && s.work.Writing?
    ensures Next(s, PowerCut(Part)).ram == Record(0, Defaults())
  {
    events, s := FirstPersist(7);
    events, s := RunExtends(Blank(), events, s, BeginPersist);
    events, s := RunExtends(Blank(), events, s, EndPersist(false));
    events, s := RunExtends(Blank(), events, s, BeginPersist);
  }

  /** An undisturbed persist is what the next boot loads exactly when the generation does not
      wrap: past that, the boot takes the older record for the newer one. */
  lemma PersistIsLoadedIffNoWrap(s: State)
    requires Inv(s) && s.work.Resting?
    ensures var t := Next(Next(s, BeginPersist), EndPersist(true));
      Load(t.slots) == t.ram <==> s.ram.generation + 1 < TWO32
  {
  }

  // ---- the store on its own arrays ---------------------------------------------------

  class SettingsStore {
    var slots: array<Slot>
    var generation: u32
    var values: array<int>
    var loaded: bool

    ghost predicate Valid()
      reads this, slots
    {
      && slots.Length == 2 && values.Length == MAX_ID + 1
      && forall i :: 0 <= i < 2 && slots[i].Written? ==> |slots[i].rec.values| == MAX_ID + 1
    }

    /** settings_store_init on the flash slots it finds (None: flash controller not ready). */
    constructor (slots: array<Slot>, ready: bool)
      requires slots.Length == 2
      requires forall i :: 0 <= i < 2 && slots[i].Written? ==> |slots[i].rec.values| == MAX_ID + 1
      ensures Valid() && loaded && this.slots == slots && fresh(values)
      ensures Record(generation, values[..]) == if ready then Load(slots[..]) else Record(0, Defaults())
      ensures InRange(values[..])
    {
      this.slots := slots;
      generation, loaded := 0, true;
      values := new int[MAX_ID + 1](_ => 0);
      new;
      LoadDefaults();
      if ready {
        var a, b := slots[0], slots[1];
        if SlotValid(a) && (!SlotValid(b) || a.rec.generation >= b.rec.generation) {
          Adopt(a.rec);
        } else if SlotValid(b) {
          Adopt(b.rec);
        }
      }
    }

    method LoadDefaults()
      requires Valid()
      modifies `generation, values
      ensures Valid() && generation == 0 && values[..] == Defaults() && InRange(values[..])
    {
      for id := 0 to MAX_ID + 1
        invariant forall k :: 0 <= k < id ==> values[k] == 0
      {
        values[id] := 0;
      }
      for i := 0 to |Table()|
        invariant values[0] == 0
        invariant forall id :: 1 <= id <= i ==> values[id] == Table()[id - 1].def
      {
        values[Table()[i].id] := Table()[i].def;
      }
      generation := 0;
      assert values[..] == Defaults();
      DefaultsInRange();
    }

    /** Takes a stored record, values outside the registry replaced by defaults. */
    method Adopt(rec: Record)
      requires Valid() && |rec.values| == MAX_ID + 1
      modifies `generation, values
      ensures Valid() && generation == rec.generation && values[..] == Sanitized(rec.values)
    {
      generation := rec.generation;
      forall k | 0 <= k <= MAX_ID {
        values[k] := rec.values[k];
      }
      for i := 0 to |Table()|
        invariant generation == rec.generation && values[0] == rec.values[0]
        invariant forall id :: 1 <= id <= i ==> values[id] == ClampOne(Table()[id - 1], rec.values[id])
        invariant forall id :: i < id <= MAX_ID ==> values[id] == rec.values[id]
      {
        var v := values[Table()[i].id];
        if v < Table()[i].min || v > Table()[i].max {
          values[Table()[i].id] := Table()[i].def;
        }
      }
      assert values[..] == Sanitized(rec.values);
    }

    method MetaFor(id: nat) returns (found: Option<Meta>)
      ensures found == if 1 <= id <= MAX_ID then Some(Table()[id - 1]) else None
    {
      for i := 0 to |Table()|
        invariant !(1 <= id <= i)
      {
        if Table()[i].id == id {
          return Some(Table()[i]);
        }
      }
      return None;
    }

    /** settings_get: registered values, defaults before init, 0 for unknown ids. */
    method Get(id: nat) returns (v: int)
      requires Valid()
      ensures v == if !(1 <= id <= MAX_ID) then 0 else if loaded then values[id] else Table()[id - 1].def
      ensures loaded && InRange(values[..]) && 1 <= id <= MAX_ID ==> Table()[id - 1].min <= v <= Table()[id - 1].max
    {
      var m := MetaFor(id);
      if m.None? {
        return 0;
      }
      assert values[..][id] == values[id];
      v := if loaded then values[id] else m.value.def;
    }

    /** settings_set; reports whether a persist gets scheduled. */
    method Set(id: nat, value: int) returns (changed: bool)
      requires Valid()
      modifies values
      ensures Valid() && values[..] == (if loaded then SetValue(old(values[..]), id, value) else old(values[..]))
      ensures changed <==> values[..] != old(values[..])
      ensures old(InRange(values[..])) ==> InRange(values[..])
    {
      var m := MetaFor(id);
      if !loaded || m.None? {
        return false;
      }
      var v := Clamp(value, m.value.min, m.value.max);
      ghost var before := values[..];
      if old(InRange(values[..])) {
        SetKeepsRange(before, id, value);
      }
      changed := values[id] != v;
      values[id] := v;
      assert values[..] == before[id := v];
      assert changed ==> values[..][id] != before[id];
    }

    /** persist_work_fn; `during` are the settings_set calls that land between the CRC and
        the moment the flash copies the record. */
    method Persist(ok: bool, during: seq<(nat, int)>)
      requires Valid()
      modifies `generation, slots, values
      ensures Valid() && generation == Wrap(old(generation) + 1)
      ensures values[..] == if loaded then SetAll(old(values[..]), during) else old(values[..])
      ensures slots[..] == if ok
        then old(slots[..])[Target(generation) := Written(Record(generation, values[..]), Record(generation, old(values[..])))]
        else old(slots[..])
    {
      generation := Wrap(generation + 1);
      var crcOver := Record(generation, values[..]);
      ghost var before := values[..];
      for i := 0 to |during|
        invariant Valid() && generation == crcOver.generation && slots == old(slots)
        invariant slots[..] == old(slots[..]) && values == old(values)
        invariant values[..] == if loaded then SetAll(before, during[..i]) else before
      {
        assert during[..i + 1][..i] == during[..i];
        var _ := Set(during[i].0, during[i].1);
      }
      assert during[..|during|] == during;
      if ok {
        slots[Target(generation)] := Written(Record(generation, values[..]), crcOver);
      }
    }
  }

  /** A sequence of settings_set calls. */
  function SetAll(values: seq<int>, calls: seq<(nat, int)>): (r: seq<int>)
    requires |values| == MAX_ID + 1
    ensures |r| == |values|
    decreases |calls|
  {
    if calls == [] then values
    else
      var last := calls[|calls| - 1];
      SetValue(SetAll(values, calls[..|calls| - 1]), last.0, last.1)
  }
}
