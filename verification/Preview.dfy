/** The adaptive preview controller: a base decimation from the link budget, and a shift of
    up to 16x that backs off within a second of drops and probes back after quiet seconds. */
module Preview {
  import opened Words

  const BUDGET: int := 1300
  const BUDGET_LOGGING: int := 500
  const MAX_ADAPT: int := 4
  const LONG_AGO: int := -0x4000_0000_0000_0000   // INT64_MIN / 2

  type u8 = x: int | 0 <= x < 256

  datatype Control = Control(
    decim: u8, adapt: u8, calm: u8, need: u8, lastDropped: u32, windowStart: int, lastProbe: int)

  function OdrHz(code: int): nat {
    if 0 <= code <= 10 then [0, 13, 26, 52, 104, 208, 416, 833, 1660, 3330, 6660][code] else 0
  }

  /** Samples per second the preview may use; `preview` 0 means automatic. */
  function Target(preview: nat, logging: bool): (t: nat)
    ensures t > 0
  {
    var budget := if logging then BUDGET_LOGGING else BUDGET;
    if preview != 0 && preview < budget then preview else budget
  }

  /** The base decimation for rate hz: ceil(hz / target), kept in a byte. */
  function BaseDecim(hz: nat, target: nat): (d: u8)
    requires target > 0
    ensures 1 <= d <= 255
  {
    Max(1, Min((hz + target - 1) / target, 255))
  }

  /** ble_transport_stream_update_decim at time `now`. */
  function UpdateDecim(c: Control, hz: nat, preview: nat, logging: bool, now: int): Control {
    Control(BaseDecim(hz, Target(preview, logging)), 0, 0, 5, c.lastDropped, now, LONG_AGO)
  }

  /** stream_decim_eff. */
  function EffectiveDecim(c: Control): (d: int) {
    Min(c.decim * Pow2(c.adapt), 255)
  }

  function Pow2(n: nat): (p: nat)
    ensures p >= 1
  {
    if n == 0 then 1 else 2 * Pow2(n - 1)
  }

  /** One closed window with `drops` new discards. */
  function Window(c: Control, drops: u32, now: int): Control {
    if drops > 10 then
      c.(adapt := if c.adapt < MAX_ADAPT then c.adapt + 1 else c.adapt, calm := 0,
         need := if now - c.lastProbe < 10000 && c.need < 30 then (c.need + 5) % 256 else c.need)
    else if drops == 0 then
      var calm := (c.calm + 1) % 256;
      if calm >= c.need && c.adapt > 0 then c.(adapt := c.adapt - 1, calm := 0, lastProbe := now) else c.(calm := calm)
    else c.(calm := 0)
  }

  /** stream_adapt_tick: at most once a second, on the cumulative discard counter. */
  function Tick(c: Control, dropped: u32, now: int): Control {
    if now - c.windowStart < 1000 then c
    else Window(c.(windowStart := now, lastDropped := dropped), Sub(dropped, c.lastDropped), now)
  }

  predicate Inv(c: Control) {
    && 1 <= c.decim
    && c.adapt <= MAX_ADAPT
    && 5 <= c.need <= 30 && c.need % 5 == 0
    && (c.adapt > 0 ==> c.calm < c.need)
  }

  lemma TickKeeps(c: Control, dropped: u32, now: int)
    requires Inv(c)
    ensures Inv(Tick(c, dropped, now))
  {
  }

  lemma UpdateEstablishes(c: Control, hz: nat, preview: nat, logging: bool, now: int)
    ensures Inv(UpdateDecim(c, hz, preview, logging, now))
  {
  }

  datatype Call =
    | Ticked(dropped: u32, at: int)
    | Rederived(hz: nat, preview: nat, logging: bool, at: int)

  /** The static variables as the C start-up code leaves them. */
  const PowerOn: Control := Control(1, 0, 0, 5, 0, 0, LONG_AGO)

  function Called(c: Control, call: Call): Control {
    match call
    case Ticked(dropped, at) => Tick(c, dropped, at)
    case Rederived(hz, preview, logging, at) => UpdateDecim(c, hz, preview, logging, at)
  }

  /** The controller after a sequence of calls, in any order and at any times. */
  function After(calls: seq<Call>): Control
    decreases |calls|
  {
    if calls == [] then PowerOn else Called(After(calls[..|calls| - 1]), calls[|calls| - 1])
  }

  /** In every reachable state: shift at most 4, patience 5 to 30, the calm count below the
      patience while the rate is shifted, an effective decimation of 1 to 255. */
  lemma {:induction false} ControllerStaysInRange(calls: seq<Call>)
    ensures Inv(After(calls)) && 1 <= EffectiveDecim(After(calls)) <= 255
    decreases |calls|
  {
    if calls != [] {
      var before, call := After(calls[..|calls| - 1]), calls[|calls| - 1];
      ControllerStaysInRange(calls[..|calls| - 1]);
      match call
      case Ticked(dropped, at) => TickKeeps(before, dropped, at);
      case Rederived(hz, preview, logging, at) => UpdateEstablishes(before, hz, preview, logging, at);
    }
    EffectiveDecimIsAByte(After(calls));
  }

  lemma EffectiveDecimIsAByte(c: Control)
    requires Inv(c)
    ensures 1 <= EffectiveDecim(c) <= 255
    ensures c.adapt == 0 ==> EffectiveDecim(c) == c.decim
  {
    assert c.decim * Pow2(c.adapt) >= c.decim by {
      MultipleIsLarger(c.decim, Pow2(c.adapt));
    }
  }

  lemma MultipleIsLarger(d: nat, p: nat)
    requires p >= 1
    ensures d * p >= d
  {
  }

  // ---- budget --------------------------------------------------------------------

  lemma CeilingDivision(hz: nat, target: nat)
    requires target > 0
    ensures var q := (hz + target - 1) / target; hz <= target * q && (q > 0 ==> target * (q - 1) < hz)
  {
    var q, r := (hz + target - 1) / target, (hz + target - 1) % target;
    assert hz + target - 1 == target * q + r;
    assert target * (q - 1) == target * q - target;
  }

  lemma ProductGrows(target: nat, a: int, b: int)
    requires a <= b
    ensures target * a <= target * b
  {
  }

  /** The decimated stream stays within its target rate exactly when the target is at least
      1/255 of the sensor rate; and the decimation is never coarser than that needs. */
  lemma BudgetKeptIffReachable(hz: nat, target: nat)
    requires target > 0
    ensures hz <= target * BaseDecim(hz, target) <==> hz <= target * 255
    ensures BaseDecim(hz, target) > 1 ==> target * (BaseDecim(hz, target) - 1) < hz
  {
    var q, d := (hz + target - 1) / target, BaseDecim(hz, target);
    CeilingDivision(hz, target);
    if q <= 255 {
      ProductGrows(target, q, d);
      ProductGrows(target, d, 255);
    } else {
      ProductGrows(target, 255, q - 1);
    }
  }

  /** Every automatic preview rate is within reach; a 26 Hz cap at the top rate is not. */
  lemma AutomaticRatesReachable(code: int, logging: bool)
    ensures OdrHz(code) <= Target(0, logging) * BaseDecim(OdrHz(code), Target(0, logging))
    ensures OdrHz(10) > Target(26, logging) * BaseDecim(OdrHz(10), Target(26, logging))
  {
    BudgetKeptIffReachable(OdrHz(code), Target(0, logging));
    BudgetKeptIffReachable(OdrHz(10), Target(26, logging));
  }

  // ---- what the shift means --------------------------------------------------------------

  /** Re-deriving the decimation for a rate keeps the preview within its target exactly when
      that is within reach of a byte, is no coarser than needed, and drops every back-off. */
  lemma UpdateKeepsBudget(c: Control, hz: nat, preview: nat, logging: bool, now: int)
    ensures var d, target := UpdateDecim(c, hz, preview, logging, now), Target(preview, logging);
      && (hz <= target * EffectiveDecim(d) <==> hz <= target * 255)
      && (EffectiveDecim(d) > 1 ==> target * (EffectiveDecim(d) - 1) < hz)
      && d.adapt == 0 && d.calm == 0 && d.need == 5 && d.lastDropped == c.lastDropped
      && d.windowStart == now && (now >= 0 ==> now - d.lastProbe >= 10000)
  {
    BudgetKeptIffReachable(hz, Target(preview, logging));
  }

  /** The target is the link budget, or a smaller rate the host asked for. */
  lemma TargetIsTheSmaller(preview: nat, logging: bool)
    ensures var budget := if logging then 500 else 1300;
      Target(preview, logging) == if preview == 0 then budget else Min(preview, budget)
  {
  }

  /** A shift of a divides the rate by 2^a, as far as a byte goes. */
  lemma ShiftDivides(c: Control)
    requires Inv(c)
    ensures EffectiveDecim(c) == Min(255, c.decim * [1, 2, 4, 8, 16][c.adapt])
  {
    assert Pow2(1) == 2 && Pow2(2) == 4 && Pow2(3) == 8 && Pow2(4) == 16;
  }

  /** What a window does.  Heavy drops: the rate is halved unless it is at a sixteenth already,
      the calm count starts anew, and a probe less than ten seconds old costs five windows more
      of patience, up to thirty.  A few drops: only the calm count starts anew.  None: the calm
      count grows, and once patience is reached the rate is doubled. */
  lemma WindowLaw(c: Control, drops: u32, now: int)
    requires Inv(c)
    ensures var d := Window(c, drops, now);
      && d.decim == c.decim
      && (drops > 10 ==>
            && d.adapt == Min(4, c.adapt + 1) && d.calm == 0 && d.lastProbe == c.lastProbe
            && d.need == (if now - c.lastProbe < 10000 then Min(30, c.need + 5) else c.need)
            && (c.adapt < 4 ==> EffectiveDecim(d) == Min(255, 2 * EffectiveDecim(c))))
      && (1 <= drops <= 10 ==> d == c.(calm := 0))
      && (drops == 0 && c.adapt > 0 && c.calm + 1 == c.need ==>
            d.adapt == c.adapt - 1 && d.calm == 0 && d.lastProbe == now && d.need == c.need
            && EffectiveDecim(c) == Min(255, 2 * EffectiveDecim(d)))
      && (drops == 0 && c.adapt > 0 && c.calm + 1 < c.need ==> d == c.(calm := c.calm + 1))
      && (drops == 0 && c.adapt == 0 ==> d == c.(calm := (c.calm + 1) % 256))
  {
    var d := Window(c, drops, now);
    assert Inv(d);
    ShiftDivides(c);
    ShiftDivides(d);
  }

  /** Windows are at least a second apart, and each sees the drops since the one before. */
  lemma TickLaw(c: Control, dropped: u32, now: int)
    ensures now - c.windowStart < 1000 ==> Tick(c, dropped, now) == c
    ensures now - c.windowStart >= 1000 && dropped >= c.lastDropped ==>
      Tick(c, dropped, now) == Window(c, dropped - c.lastDropped, now).(windowStart := now, lastDropped := dropped)
  {
  }

  // ---- convergence -----------------------------------------------------------------

  /** The controller after k drop-free windows at the given times. */
  function Quiet(c: Control, times: seq<int>): Control
    decreases |times|
  {
    if times == [] then c else Quiet(Window(c, 0, times[0]), times[1..])
  }

  /** Quiet windows still needed to bring the shift to zero. */
  function QuietNeeded(c: Control): int {
    if c.adapt == 0 then 0 else (c.adapt - 1) * c.need + (c.need - c.calm)
  }

  lemma QuietStep(c: Control, now: int)
    requires Inv(c)
    ensures var d := Window(c, 0, now);
      Inv(d) && d.need == c.need && QuietNeeded(d) == Max(0, QuietNeeded(c) - 1)
    ensures c.adapt > 0 ==> QuietNeeded(c) >= 1
  {
    if c.adapt > 0 {
      assert (c.adapt - 1) * c.need >= 0 by { ProductGrows(c.need, 0, c.adapt - 1); }
      if c.calm + 1 >= c.need && c.adapt > 1 {
        assert (c.adapt - 1) * c.need == (c.adapt - 2) * c.need + c.need;
      }
    }
  }

  /** From any reachable state exactly (adapt - 1) * need + (need - calm) quiet windows
      bring the preview back to full rate: not one less, and more keep it there. */
  lemma {:induction false} QuietWindowsRestoreFullRate(c: Control, times: seq<int>)
    requires Inv(c)
    ensures Quiet(c, times).adapt == 0 <==> |times| >= QuietNeeded(c)
    decreases |times|
  {
    if times == [] {
      QuietStep(c, 0);
    } else {
      QuietStep(c, times[0]);
      QuietWindowsRestoreFullRate(Window(c, 0, times[0]), times[1..]);
      assert |times[1..]| == |times| - 1;
    }
  }

  /** Four consecutive windows of heavy drops force the strongest back-off. */
  lemma FourHeavyWindowsForceFour(c: Control, drops: seq<u32>, times: seq<int>)
    requires Inv(c) && |drops| == |times| == 4 && forall i :: 0 <= i < 4 ==> drops[i] > 10
    ensures Window(Window(Window(Window(c, drops[0], times[0]), drops[1], times[1]), drops[2], times[2]), drops[3], times[3]).adapt
      == MAX_ADAPT
  {
  }

  // ---- a new subscription -------------------------------------------------------------

  /** Subscribing again zeroes the discard counter but not the controller's memory of it.
      The first window after that, which saw `drops` discards. */
  function FirstWindow(c: Control, hz: nat, preview: nat, logging: bool, start: int, drops: u32, now: int): Control {
    Tick(UpdateDecim(c, hz, preview, logging, start), drops, now)
  }

  /** The same window with its true number of drops. */
  function TrueWindow(c: Control, hz: nat, preview: nat, logging: bool, start: int, drops: u32, now: int): Control {
    Window(UpdateDecim(c, hz, preview, logging, start).(windowStart := now, lastDropped := drops), drops, now)
  }

  /** Remembering `memory` discards, the first window takes `drops` for what they are: none,
      a few, or enough to back off. */
  predicate TakenRight(memory: u32, drops: u32) {
    || memory == 0
    || (1 <= drops <= 10 && (memory < drops || memory >= TWO32 - 10 + drops))
    || (drops > 10 && (memory > drops || drops > memory + 10))
  }

  /** The controller goes wrong on the first window of a subscription exactly when the count
      it remembers from the one before makes it take the new count for another kind. */
  lemma FirstWindowIsTrueIffTakenRight(c: Control, hz: nat, preview: nat, logging: bool, start: int, drops: u32, now: int)
    requires now - start >= 1000 && now - LONG_AGO >= 10000
    ensures FirstWindow(c, hz, preview, logging, start, drops, now) == TrueWindow(c, hz, preview, logging, start, drops, now)
      <==> TakenRight(c.lastDropped, drops)
  {
    RememberedDifference(c.lastDropped, drops);
  }

  lemma RememberedDifference(memory: u32, drops: u32)
    ensures Sub(drops, memory) == if drops >= memory then drops - memory else TWO32 - (memory - drops)
  {
  }

  /** It is right whatever the drops exactly when the memory was clear: a clean window then
      gives the wrong answer otherwise. */
  lemma FirstWindowIsTrueIffMemoryClear(c: Control, hz: nat, preview: nat, logging: bool, start: int, now: int)
    requires now - start >= 1000 && now - LONG_AGO >= 10000
    ensures (forall drops: u32 :: FirstWindow(c, hz, preview, logging, start, drops, now)
                                  == TrueWindow(c, hz, preview, logging, start, drops, now))
       <==> c.lastDropped == 0
  {
    forall drops: u32
      ensures FirstWindow(c, hz, preview, logging, start, drops, now) == TrueWindow(c, hz, preview, logging, start, drops, now)
         <==> TakenRight(c.lastDropped, drops)
    {
      FirstWindowIsTrueIffTakenRight(c, hz, preview, logging, start, drops, now);
    }
    assert !TakenRight(c.lastDropped, 0) || c.lastDropped == 0;
  }

  /** A subscription without a drop starts by halving its rate exactly when the one before
      had any, short of ten below the wrap of the counter. */
  lemma PhantomDropsBackOff(c: Control, hz: nat, preview: nat, logging: bool, start: int, now: int)
    requires now - start >= 1000
    ensures FirstWindow(c, hz, preview, logging, start, 0, now).adapt == (if 0 < c.lastDropped < TWO32 - 10 then 1 else 0)
  {
    RememberedDifference(c.lastDropped, 0);
  }

  // ---- the controller on its static variables ------------------------------------------

  class PreviewController {
    var decim: u8
    var adapt: u8
    var calm: u8
    var need: u8
    var lastDropped: u32
    var windowStart: int
    var lastProbe: int

    ghost function Now(): Control
      reads this
    {
      Control(decim, adapt, calm, need, lastDropped, windowStart, lastProbe)
    }

    constructor ()
      ensures Now() == PowerOn && Inv(Now())
    {
      decim, adapt, calm, need := 1, 0, 0, 5;
      lastDropped, windowStart, lastProbe := 0, 0, LONG_AGO;
    }

    method StreamAdaptTick(dropped: u32, now: int)
      requires Inv(Now())
      modifies this
      ensures Now() == Tick(old(Now()), dropped, now) && Inv(Now())
    {
      TickKeeps(Now(), dropped, now);
      if now - windowStart < 1000 {
        return;
      }
      windowStart := now;
      var drops := Sub(dropped, lastDropped);
      lastDropped := dropped;
      if drops > 10 {
        if adapt < 4 {
          adapt := adapt + 1;
        }
        if now - lastProbe < 10000 && need < 30 {
          need := (need + 5) % 256;
        }
        calm := 0;
      } else if drops == 0 {
        calm := (calm + 1) % 256;
        if calm >= need && adapt > 0 {
          adapt := adapt - 1;
          lastProbe := now;
          calm := 0;
        }
      } else {
        calm := 0;
      }
    }

    method StreamUpdateDecim(hz: nat, preview: nat, logging: bool, now: int)
      modifies this
      ensures Now() == UpdateDecim(old(Now()), hz, preview, logging, now) && Inv(Now())
    {
      var target := if logging then BUDGET_LOGGING else BUDGET;
      if preview != 0 && preview < target {
        target := preview;
      }
      var d := (hz + target - 1) / target;
      decim := if d < 1 then 1 else if d > 255 then 255 else d;
      adapt, calm, need := 0, 0, 5;
      lastProbe, windowStart := LONG_AGO, now;
    }
  }
}
