/**
  The stereo meter: a left and a right macro meter driven together. Selector
  ids from the decay-rate and hold-time buttons are turned into dB/s and ms
  here, and every setting is handed identically to both channels.
 */
module StereoMeters {
  import opened ValueHolderBase
  import MacroMeters
  import Meters
  import Averagers
  import DecayingValueHolders

  datatype StereoMeter = StereoMeter(left: MacroMeters.MacroMeter, right: MacroMeters.MacroMeter)

  predicate Valid(s: StereoMeter)
  {
    MacroMeters.Valid(s.left) && MacroMeters.Valid(s.right)
  }

  /** The per-bar settings a user can change. */
  predicate SameBarConfig(a: Meters.Meter, b: Meters.Meter)
  {
    && a.threshold == b.threshold
    && a.fallingTickEnabled == b.fallingTickEnabled
    && a.fallingTick.decayRatePerFrame == b.fallingTick.decayRatePerFrame
    && a.fallingTick.base.holdTime == b.fallingTick.base.holdTime
  }

  /** Two channels configured alike: thresholds, decay, hold, tick and view flags, averager size. */
  predicate SameConfig(a: MacroMeters.MacroMeter, b: MacroMeters.MacroMeter)
  {
    && a.textMeter.threshold == b.textMeter.threshold
    && a.textMeter.base.holdTime == b.textMeter.base.holdTime
    && SameBarConfig(a.averageMeter, b.averageMeter)
    && SameBarConfig(a.instantMeter, b.instantMeter)
    && a.averageVisible == b.averageVisible
    && a.instantVisible == b.instantVisible
    && Averagers.GetSize(a.averager) == Averagers.GetSize(b.averager)
  }

  /** Both averagers can take samples; see `MacroMeters.Addressable`. */
  predicate Addressable(s: StereoMeter)
  {
    MacroMeters.Addressable(s.left) && MacroMeters.Addressable(s.right)
  }

  /** Both channels stay configured alike. */
  predicate Balanced(s: StereoMeter)
  {
    SameConfig(s.left, s.right)
  }

  function New(now: int, tickEnabled: bool): (r: StereoMeter)
    ensures Valid(r) && Balanced(r)
    ensures r.left.channel == MacroMeters.Left && r.right.channel == MacroMeters.Right
  {
    StereoMeter(MacroMeters.New(MacroMeters.Left, now, tickEnabled), MacroMeters.New(MacroMeters.Right, now, tickEnabled))
  }

  /** `update(L, R)`: the left input goes to the left channel only, the right input to the right only. */
  function Update(s: StereoMeter, inputL: real, inputR: real, now: int): (r: StereoMeter)
    requires Addressable(s)
    ensures Addressable(r)
    ensures Valid(s) ==> Valid(r)
    ensures r.left == MacroMeters.Update(s.left, inputL, now)
    ensures r.right == MacroMeters.Update(s.right, inputR, now)
    ensures Balanced(s) ==> Balanced(r)
  {
    StereoMeter(MacroMeters.Update(s.left, inputL, now), MacroMeters.Update(s.right, inputR, now))
  }

  /** Neither channel's outcome depends on the other channel's input. */
  lemma ChannelsAreIndependent(s: StereoMeter, l1: real, l2: real, r1: real, r2: real, now: int)
    requires Addressable(s)
    ensures Update(s, l1, r1, now).left == Update(s, l1, r2, now).left
    ensures Update(s, l1, r1, now).right == Update(s, l2, r1, now).right
  {
  }

  function SetThreshold(s: StereoMeter, thresh: real): (r: StereoMeter)
    ensures r.left == MacroMeters.SetThreshold(s.left, thresh)
    ensures r.right == MacroMeters.SetThreshold(s.right, thresh)
    ensures Balanced(s) ==> Balanced(r)
    ensures Valid(s) ==> Valid(r)
  {
    StereoMeter(MacroMeters.SetThreshold(s.left, thresh), MacroMeters.SetThreshold(s.right, thresh))
  }

  /** The decay-rate table: ids 1..5 give 3, 6, 12, 24 or 36 dB/s; any other id gives 12. */
  function DecayRateForId(id: int): (r: real)
    ensures r in {3.0, 6.0, 12.0, 24.0, 36.0}
    ensures !(1 <= id <= 5) ==> r == 12.0
  {
    match id
    case 1 => 3.0
    case 2 => 6.0
    case 3 => 12.0
    case 4 => 24.0
    case 5 => 36.0
    case _ => 12.0
  }

  /** Fall rates in dB/s printed on the decay buttons with ids 1..5. */
  function DecayLabelDbPerSecond(id: int): real
    requires 1 <= id <= 5
  {
    [-3.0, -6.0, -12.0, -24.0, -36.0][id - 1]
  }

  /**
    The rate table agrees with the buttons, each rate being the magnitude of
    its button's fall, and the fallback rate is the falling tick's own initial
    rate.
   */
  lemma DecayRateMatchesLabel(id: int)
    ensures 1 <= id <= 5 ==> DecayRateForId(id) == -DecayLabelDbPerSecond(id)
    ensures !(1 <= id <= 5) ==> DecayRateForId(id) == DecayingValueHolders.InitDecayRate
    ensures DecayRateForId(id) / DecayingValueHolders.TimerFrequency as real > 0.0
  {
  }

  function SetDecayRate(s: StereoMeter, id: int): (r: StereoMeter)
    ensures r.left == MacroMeters.SetDecayRate(s.left, DecayRateForId(id))
    ensures r.right == MacroMeters.SetDecayRate(s.right, DecayRateForId(id))
    ensures Balanced(s) ==> Balanced(r)
    ensures Valid(s) ==> Valid(r)
  {
    StereoMeter(MacroMeters.SetDecayRate(s.left, DecayRateForId(id)), MacroMeters.SetDecayRate(s.right, DecayRateForId(id)))
  }

  function SetTickVisibility(s: StereoMeter, on: bool): (r: StereoMeter)
    ensures r.left == MacroMeters.SetTickVisibility(s.left, on)
    ensures r.right == MacroMeters.SetTickVisibility(s.right, on)
    ensures Balanced(s) ==> Balanced(r)
    ensures Valid(s) ==> Valid(r)
  {
    StereoMeter(MacroMeters.SetTickVisibility(s.left, on), MacroMeters.SetTickVisibility(s.right, on))
  }

  /** Selector id of the "inf" hold-time button. */
  const HoldForeverId: int := 6

  /**
    The hold-time table as the program writes it: ids 1..5 give 0, 500, 2000,
    4000 or 6000 ms and any other id 500 ms, but id 6 stores `INFINITY` into a
    `long long`. That conversion has no defined result in C++;
    `infinityAsInt64` stands for whatever the platform produces.
   */
  function HoldTimeMsAsWritten(id: int, infinityAsInt64: int): (r: int)
    ensures id == HoldForeverId ==> r == infinityAsInt64
    ensures id != HoldForeverId ==> r in {0, 500, 2000, 4000, 6000}
  {
    match id
    case 1 => 0
    case 2 => 500
    case 3 => 2000
    case 4 => 4000
    case 5 => 6000
    case 6 => infinityAsInt64
    case _ => 500
  }

  /**
    The hold-time table with the "inf" entry as the largest `long long`, so
    the hold outlasts any elapsed time the program can represent.
   */
  function HoldTimeMs(id: int): (r: int)
    ensures 0 <= r <= Int64Max
    ensures id != HoldForeverId ==> r == HoldTimeMsAsWritten(id, 0)
    ensures id == HoldForeverId ==> r == Int64Max
  {
    if id == HoldForeverId then Int64Max else HoldTimeMsAsWritten(id, 0)
  }

  /** Hold times printed on the buttons with ids 1..5, in ms. */
  function HoldLabelMs(id: int): int
    requires 1 <= id <= 5
  {
    [0, 500, 2000, 4000, 6000][id - 1]
  }

  /** The table agrees with the buttons and falls back to the 0.5 s entry. */
  lemma HoldTimeMatchesLabel(id: int)
    ensures 1 <= id <= 5 ==> HoldTimeMs(id) == HoldLabelMs(id)
    ensures !(1 <= id <= 6) ==> HoldTimeMs(id) == HoldLabelMs(2)
  {
  }

  /**
    The conversion of `INFINITY` to `long long` is undefined, so its result
    depends on the compiler and the target. One possible result is the
    smallest `long long`, which a run-time conversion on x86-64 produces. With
    that hold time the hold has expired at every tick from the peak on, so
    "inf" makes the tick fall at once instead of never.
   */
  lemma InfiniteHoldExpiresAtOnce(b: HoldState, now: int)
    requires now >= b.peakTime
    ensures OverHoldTime(b.(holdTime := HoldTimeMsAsWritten(HoldForeverId, Int64Min)), now)
  {
  }

  /** With the corrected table the "inf" hold never expires within any representable elapsed time. */
  lemma InfiniteHoldNeverExpires(b: HoldState, now: int)
    requires now - b.peakTime <= Int64Max
    ensures !OverHoldTime(SetHoldTime(b, HoldTimeMs(HoldForeverId)), now)
  {
  }

  function SetTickHoldTime(s: StereoMeter, id: int): (r: StereoMeter)
    ensures r.left == MacroMeters.SetHoldTime(s.left, HoldTimeMs(id))
    ensures r.right == MacroMeters.SetHoldTime(s.right, HoldTimeMs(id))
    ensures Balanced(s) ==> Balanced(r)
    ensures Valid(s) ==> Valid(r)
  {
    StereoMeter(MacroMeters.SetHoldTime(s.left, HoldTimeMs(id)), MacroMeters.SetHoldTime(s.right, HoldTimeMs(id)))
  }

  function ResetValueHolder(s: StereoMeter): (r: StereoMeter)
    ensures r.left == MacroMeters.ResetValueHolder(s.left)
    ensures r.right == MacroMeters.ResetValueHolder(s.right)
    ensures Balanced(s) ==> Balanced(r)
    ensures Valid(s) ==> Valid(r)
  {
    StereoMeter(MacroMeters.ResetValueHolder(s.left), MacroMeters.ResetValueHolder(s.right))
  }

  function SetMeterView(s: StereoMeter, id: int): (r: StereoMeter)
    ensures r.left == MacroMeters.SetMeterView(s.left, id)
    ensures r.right == MacroMeters.SetMeterView(s.right, id)
    ensures Balanced(s) ==> Balanced(r)
    ensures Valid(s) ==> Valid(r)
  {
    StereoMeter(MacroMeters.SetMeterView(s.left, id), MacroMeters.SetMeterView(s.right, id))
  }

  function ResizeAverager(s: StereoMeter, id: int): (r: StereoMeter)
    ensures Valid(r)
    ensures r.left == MacroMeters.ResizeAverager(s.left, id)
    ensures r.right == MacroMeters.ResizeAverager(s.right, id)
    ensures Balanced(s) ==> Balanced(r)
  {
    StereoMeter(MacroMeters.ResizeAverager(s.left, id), MacroMeters.ResizeAverager(s.right, id))
  }

  /** Every event the stereo meter sees: user actions, audio blocks and the holders' timer callbacks. */
  datatype Action =
    | Sample(inputL: real, inputR: real, now: int)
    | Tick(side: MacroMeters.Channel, holder: MacroMeters.Holder, tickTime: int)
    | Threshold(thresh: real)
    | DecayRate(decayId: int)
    | TickVisibility(on: bool)
    | TickHoldTime(holdId: int)
    | ResetHold
    | MeterView(viewId: int)
    | AverageTime(durationId: int)

  function Apply(s: StereoMeter, a: Action): (r: StereoMeter)
    requires Addressable(s)
    ensures Addressable(r)
    ensures Valid(s) ==> Valid(r)
  {
    match a
    case Sample(l, rr, now) => Update(s, l, rr, now)
    case Tick(side, h, now) =>
      if side == MacroMeters.Left then s.(left := MacroMeters.TimerFired(s.left, h, now))
      else s.(right := MacroMeters.TimerFired(s.right, h, now))
    case Threshold(t) => SetThreshold(s, t)
    case DecayRate(id) => SetDecayRate(s, id)
    case TickVisibility(on) => SetTickVisibility(s, on)
    case TickHoldTime(id) => SetTickHoldTime(s, id)
    case ResetHold => ResetValueHolder(s)
    case MeterView(id) => SetMeterView(s, id)
    case AverageTime(id) => ResizeAverager(s, id)
  }

  function ApplyAll(s: StereoMeter, actions: seq<Action>): (r: StereoMeter)
    requires Addressable(s)
    ensures Addressable(r)
    ensures Valid(s) ==> Valid(r)
    decreases |actions|
  {
    if |actions| == 0 then s else Apply(ApplyAll(s, actions[..|actions| - 1]), actions[|actions| - 1])
  }

  /** One action keeps the channels configured alike and leaves the text meter's hold time alone. */
  lemma ApplyKeepsBalance(s: StereoMeter, a: Action)
    requires Addressable(s) && Balanced(s)
    ensures Balanced(Apply(s, a))
    ensures Apply(s, a).left.textMeter.base.holdTime == s.left.textMeter.base.holdTime
  {
    match a
    case Sample(l, rr, now) =>
    case Tick(side, h, now) =>
    case Threshold(t) =>
    case DecayRate(id) =>
    case TickVisibility(on) =>
    case TickHoldTime(id) =>
    case ResetHold =>
    case MeterView(id) =>
    case AverageTime(id) =>
  }

  /**
    The two channels never drift apart in configuration: from a fresh meter,
    after any sequence of actions, left and right carry the same settings and
    the text meters still hold for the default 2 s.
   */
  lemma {:induction false} ChannelsStayInStep(now: int, tickEnabled: bool, actions: seq<Action>)
    ensures Balanced(ApplyAll(New(now, tickEnabled), actions))
    ensures ApplyAll(New(now, tickEnabled), actions).left.textMeter.base.holdTime == DefaultHoldTimeMs
    decreases |actions|
  {
    if |actions| > 0 {
      var init := actions[..|actions| - 1];
      ChannelsStayInStep(now, tickEnabled, init);
      ApplyKeepsBalance(ApplyAll(New(now, tickEnabled), init), actions[|actions| - 1]);
    }
  }
}
