/**
  One channel of a stereo meter: a text read-out driven by a threshold
  holder, an average bar fed from a running averager and an instant bar fed
  with the raw input. The averager's window length is chosen from a table of
  selector ids; the averager is ticked every 25 ms, so its size is the window
  length divided by 25 ms.
 */
module MacroMeters {
  import opened Ring
  import opened ValueHolderBase
  import ValueHolders
  import Averagers
  import Meters

  datatype Channel = Left | Right

  /** Size of the averager a macro meter starts with. */
  const DefaultAveragerSize: nat := 20
  /** Milliseconds between two samples fed to the averager. */
  const SampleIntervalMs: nat := 25

  datatype MacroMeter = MacroMeter(
    channel: Channel,
    textMeter: ValueHolders.ValueHolder,
    averageMeter: Meters.Meter,
    instantMeter: Meters.Meter,
    averager: Averagers.Averager,
    averageVisible: bool,
    instantVisible: bool)

  /** The averager can take samples and its mean is exact. */
  predicate Valid(mm: MacroMeter)
  {
    Averagers.Valid(mm.averager)
  }

  /**
    The averager can take samples: all `update` needs. The program's own
    `resize` can leave a biased total behind, and `update` keeps running on it.
   */
  predicate Addressable(mm: MacroMeter)
  {
    Averagers.IndexInRange(mm.averager)
  }

  /**
    The constructor: both bars made visible, an averager of 20 slots filled
    with -48 dB. `tickEnabled` stands for the bars' uninitialised tick flag.
   */
  function New(channel: Channel, now: int, tickEnabled: bool): (r: MacroMeter)
    ensures Valid(r)
    ensures r.channel == channel
    ensures r.averageVisible && r.instantVisible
    ensures Averagers.GetSize(r.averager) == DefaultAveragerSize
    ensures Averagers.Window(r.averager) == Fill(DefaultAveragerSize, NegativeInfinity)
    ensures r.averager.average == NegativeInfinity
  {
    MacroMeter(channel, ValueHolders.New(now), Meters.New(now, tickEnabled), Meters.New(now, tickEnabled),
               Averagers.New(DefaultAveragerSize, NegativeInfinity), true, true)
  }

  /**
    `update(x)`: the sample enters the averager first, so the average bar
    shows a mean that already includes `x`; the text meter and the instant bar
    see `x` itself.
   */
  function Update(mm: MacroMeter, x: real, now: int): (r: MacroMeter)
    requires Addressable(mm)
    ensures Addressable(r)
    ensures Valid(mm) ==> Valid(r)
    ensures Averagers.Bias(r.averager) == Averagers.Bias(mm.averager)
    ensures Averagers.Window(r.averager) == Averagers.Window(mm.averager)[1..] + [x]
    ensures r.averageMeter.level == Averagers.GetAverage(r.averager)
    ensures r.averageMeter == Meters.Update(mm.averageMeter, r.averager.average, now)
    ensures r.instantMeter == Meters.Update(mm.instantMeter, x, now)
    ensures r.textMeter == ValueHolders.UpdateHeldValue(mm.textMeter, x, now)
    ensures r.channel == mm.channel
    ensures r.averageVisible == mm.averageVisible && r.instantVisible == mm.instantVisible
  {
    var avg := Averagers.Add(mm.averager, x);
    mm.(averager := avg,
        textMeter := ValueHolders.UpdateHeldValue(mm.textMeter, x, now),
        averageMeter := Meters.Update(mm.averageMeter, Averagers.GetAverage(avg), now),
        instantMeter := Meters.Update(mm.instantMeter, x, now))
  }

  /** The three peak holders of a channel; each runs its own 40 Hz timer. */
  datatype Holder = TextHolder | AverageTick | InstantTick

  /**
    One holder's `timerCallback` fires. Only that holder's peak state can
    move: no setting, no level, no visibility flag and nothing in the
    averager changes.
   */
  function TimerFired(mm: MacroMeter, which: Holder, now: int): (r: MacroMeter)
    ensures r.averager == mm.averager && r.channel == mm.channel
    ensures r.averageVisible == mm.averageVisible && r.instantVisible == mm.instantVisible
    ensures r.textMeter.threshold == mm.textMeter.threshold
    ensures r.textMeter.base.holdTime == mm.textMeter.base.holdTime
    ensures r.averageMeter == mm.averageMeter.(fallingTick := r.averageMeter.fallingTick)
    ensures r.instantMeter == mm.instantMeter.(fallingTick := r.instantMeter.fallingTick)
    ensures r.averageMeter.fallingTick.decayRatePerFrame == mm.averageMeter.fallingTick.decayRatePerFrame
    ensures r.instantMeter.fallingTick.decayRatePerFrame == mm.instantMeter.fallingTick.decayRatePerFrame
    ensures r.averageMeter.fallingTick.base.holdTime == mm.averageMeter.fallingTick.base.holdTime
    ensures r.instantMeter.fallingTick.base.holdTime == mm.instantMeter.fallingTick.base.holdTime
    ensures which != TextHolder ==> r.textMeter == mm.textMeter
    ensures which != AverageTick ==> r.averageMeter == mm.averageMeter
    ensures which != InstantTick ==> r.instantMeter == mm.instantMeter
    ensures Valid(mm) ==> Valid(r)
  {
    match which
    case TextHolder => mm.(textMeter := ValueHolders.TimerCallback(mm.textMeter, now))
    case AverageTick => mm.(averageMeter := Meters.FallingTickTimer(mm.averageMeter, now))
    case InstantTick => mm.(instantMeter := Meters.FallingTickTimer(mm.instantMeter, now))
  }

  /** `update` applied to each sample of `xs`, all at time `now`. */
  function UpdateAll(mm: MacroMeter, xs: seq<real>, now: int): (r: MacroMeter)
    requires Addressable(mm)
    ensures Addressable(r)
    ensures Valid(mm) ==> Valid(r)
    ensures r.averager == Averagers.AddAll(mm.averager, xs)
    ensures |xs| > 0 ==> r.averageMeter.level == r.averager.average
    ensures r.channel == mm.channel
    decreases |xs|
  {
    if |xs| == 0 then mm else Update(UpdateAll(mm, xs[..|xs| - 1], now), xs[|xs| - 1], now)
  }

  /**
    From a fresh meter, after at least one sample the average bar shows the
    arithmetic mean of the newest 20 entries of the history, the initial
    -48 dB fill counting as the oldest entries.
   */
  lemma AverageBarShowsWindowMean(channel: Channel, now: int, tickEnabled: bool, xs: seq<real>)
    requires |xs| > 0
    ensures UpdateAll(New(channel, now, tickEnabled), xs, now).averageMeter.level
         == Sum(Last(DefaultAveragerSize, Fill(DefaultAveragerSize, NegativeInfinity) + xs)) / DefaultAveragerSize as real
  {
    Averagers.MeanOfLastWindow(DefaultAveragerSize, NegativeInfinity, xs);
  }

  /** `setThreshold` reaches all three sub-meters and nothing else. */
  function SetThreshold(mm: MacroMeter, thresh: real): (r: MacroMeter)
    ensures r.textMeter.threshold == thresh
    ensures r.averageMeter.threshold == thresh && r.instantMeter.threshold == thresh
    ensures r.textMeter.base == mm.textMeter.base
    ensures r.averageMeter == mm.averageMeter.(threshold := thresh)
    ensures r.instantMeter == mm.instantMeter.(threshold := thresh)
    ensures r.averager == mm.averager && r.channel == mm.channel
    ensures r.averageVisible == mm.averageVisible && r.instantVisible == mm.instantVisible
  {
    mm.(averageMeter := Meters.SetThreshold(mm.averageMeter, thresh),
        instantMeter := Meters.SetThreshold(mm.instantMeter, thresh),
        textMeter := ValueHolders.SetThreshold(mm.textMeter, thresh))
  }

  /** `setDecayRate` reaches the two bars only. */
  function SetDecayRate(mm: MacroMeter, dbPerSecond: real): (r: MacroMeter)
    ensures r.averageMeter == Meters.SetDecayRate(mm.averageMeter, dbPerSecond)
    ensures r.instantMeter == Meters.SetDecayRate(mm.instantMeter, dbPerSecond)
    ensures r == mm.(averageMeter := r.averageMeter, instantMeter := r.instantMeter)
  {
    mm.(averageMeter := Meters.SetDecayRate(mm.averageMeter, dbPerSecond),
        instantMeter := Meters.SetDecayRate(mm.instantMeter, dbPerSecond))
  }

  /** `setHoldTime` reaches the two bars only; the text meter keeps its own hold time. */
  function SetHoldTime(mm: MacroMeter, ms: int): (r: MacroMeter)
    ensures GetHoldTime(r.averageMeter.fallingTick.base) == ms
    ensures GetHoldTime(r.instantMeter.fallingTick.base) == ms
    ensures r.averageMeter == Meters.SetHoldTime(mm.averageMeter, ms)
    ensures r.instantMeter == Meters.SetHoldTime(mm.instantMeter, ms)
    ensures r == mm.(averageMeter := r.averageMeter, instantMeter := r.instantMeter)
  {
    mm.(averageMeter := Meters.SetHoldTime(mm.averageMeter, ms),
        instantMeter := Meters.SetHoldTime(mm.instantMeter, ms))
  }

  /** `resetValueHolder` drops both bars' falling ticks to the floor. */
  function ResetValueHolder(mm: MacroMeter): (r: MacroMeter)
    ensures r.averageMeter.fallingTick.base.currentValue == NegativeInfinity
    ensures r.instantMeter.fallingTick.base.currentValue == NegativeInfinity
    ensures r.averageMeter == Meters.ResetValueHolder(mm.averageMeter)
    ensures r.instantMeter == Meters.ResetValueHolder(mm.instantMeter)
    ensures r == mm.(averageMeter := r.averageMeter, instantMeter := r.instantMeter)
  {
    mm.(averageMeter := Meters.ResetValueHolder(mm.averageMeter),
        instantMeter := Meters.ResetValueHolder(mm.instantMeter))
  }

  function SetTickVisibility(mm: MacroMeter, on: bool): (r: MacroMeter)
    ensures r.averageMeter.fallingTickEnabled == on && r.instantMeter.fallingTickEnabled == on
    ensures r == mm.(averageMeter := Meters.SetTickVisibility(mm.averageMeter, on),
                     instantMeter := Meters.SetTickVisibility(mm.instantMeter, on))
  {
    mm.(averageMeter := Meters.SetTickVisibility(mm.averageMeter, on),
        instantMeter := Meters.SetTickVisibility(mm.instantMeter, on))
  }

  /** Meter-view selector ids: 1 both bars, 2 instant ("Peak") only, 3 average only. */
  const ViewBoth: int := 1
  const ViewPeak: int := 2
  const ViewAverage: int := 3

  /** `setMeterView(id)`: show the bars the id names; an unknown id changes nothing. */
  function SetMeterView(mm: MacroMeter, id: int): (r: MacroMeter)
    ensures id == ViewBoth ==> r.averageVisible && r.instantVisible
    ensures id == ViewPeak ==> !r.averageVisible && r.instantVisible
    ensures id == ViewAverage ==> r.averageVisible && !r.instantVisible
    ensures id !in {ViewBoth, ViewPeak, ViewAverage} ==> r == mm
    ensures r == mm.(averageVisible := r.averageVisible, instantVisible := r.instantVisible)
  {
    if id == ViewBoth then mm.(averageVisible := true, instantVisible := true)
    else if id == ViewPeak then mm.(averageVisible := false, instantVisible := true)
    else if id == ViewAverage then mm.(averageVisible := true, instantVisible := false)
    else mm
  }

  /** At least one bar is on screen. */
  predicate SomeBarVisible(mm: MacroMeter)
  {
    mm.averageVisible || mm.instantVisible
  }

  /**
    A fresh meter shows both bars, and no sequence of view selections, valid
    or not, can hide both.
   */
  lemma {:induction false} ViewsNeverHideBoth(mm: MacroMeter, ids: seq<int>)
    requires SomeBarVisible(mm)
    ensures SomeBarVisible(SetMeterViews(mm, ids))
    decreases |ids|
  {
    if |ids| > 0 {
      ViewsNeverHideBoth(mm, ids[..|ids| - 1]);
    }
  }

  function SetMeterViews(mm: MacroMeter, ids: seq<int>): MacroMeter
    decreases |ids|
  {
    if |ids| == 0 then mm else SetMeterView(SetMeterViews(mm, ids[..|ids| - 1]), ids[|ids| - 1])
  }

  /** The averaging-time table: ids 1..5 pick 4, 10, 20, 40 or 80 samples; any other id picks 20. */
  function AveragerSizeForId(id: int): (r: nat)
    ensures r in {4, 10, 20, 40, 80}
    ensures !(1 <= id <= 5) ==> r == DefaultAveragerSize
  {
    match id
    case 1 => 4
    case 2 => 10
    case 3 => 20
    case 4 => 40
    case 5 => 80
    case _ => 20
  }

  /** Averaging times in ms printed on the selector buttons with ids 1..5. */
  function AverageTimeLabelMs(id: int): nat
    requires 1 <= id <= 5
  {
    [100, 250, 500, 1000, 2000][id - 1]
  }

  /**
    The size table agrees with the buttons: at one sample every 25 ms each
    size spans exactly the averaging time on its button, and the fallback
    size is that of the 500 ms button, which is also the starting size.
   */
  lemma AveragerSizeMatchesLabel(id: int)
    ensures 1 <= id <= 5 ==> AveragerSizeForId(id) * SampleIntervalMs == AverageTimeLabelMs(id)
    ensures AveragerSizeForId(id) == DefaultAveragerSize <==> (id == 3 || !(1 <= id <= 5))
  {
  }

  /**
    `resizeAverager(id)`: resize the averager to the id's size, refilled with
    the current average. Built on the corrected `Averagers.Resize`, so the
    write index restarts and the average carries over exactly.
   */
  function ResizeAverager(mm: MacroMeter, id: int): (r: MacroMeter)
    ensures Valid(r)
    ensures Averagers.GetSize(r.averager) == AveragerSizeForId(id)
    ensures r.averager.average == mm.averager.average
    ensures Averagers.Window(r.averager) == Fill(AveragerSizeForId(id), mm.averager.average)
    ensures r == mm.(averager := r.averager)
  {
    mm.(averager := Averagers.Resize(mm.averager, AveragerSizeForId(id), Averagers.GetAverage(mm.averager)))
  }

  /**
    The same call on the program's own `resize` keeps the average only when it
    is a whole number of dB: an average of -47.5 dB comes back as -47 dB.
   */
  lemma ResizeAsWrittenTruncatesAverage(mm: MacroMeter, id: int)
    ensures var a := Averagers.ResizeAsWritten(mm.averager, AveragerSizeForId(id), mm.averager.average);
            a.average == mm.averager.average <==> Averagers.Integral(mm.averager.average)
  {
  }
}
