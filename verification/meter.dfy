/**
  One vertical bar meter: the level it shows, the falling tick that trails
  it, the threshold above which the bar turns red and the dB tick grid that
  `resized` lays out for the scale beside it.
 */
module Meters {
  import opened ValueHolderBase
  import DVH = DecayingValueHolders
  import ValueHolders

  /** Spacing of the tick grid, in dB. */
  const TickSpacing: int := 6

  /** One scale mark: its dB value and its pixel row. */
  datatype Tick = Tick(db: real, y: int)

  datatype Meter = Meter(
    level: real,
    fallingTick: DVH.DecayingValueHolder,
    fallingTickEnabled: bool,
    threshold: real,
    ticks: seq<Tick>)

  /**
    A fresh meter: level 0 dB, threshold 0 dB, no ticks until the first
    `resized`. The program leaves `fallingTickEnabled` uninitialised, so it is
    a parameter here.
   */
  function New(now: int, tickEnabled: bool): (r: Meter)
    ensures r.level == 0.0 && r.threshold == 0.0 && r.ticks == []
    ensures r.fallingTick == DVH.New(now)
    ensures r.fallingTickEnabled == tickEnabled
  {
    Meter(0.0, DVH.New(now), tickEnabled, 0.0, [])
  }

  /** Integer division rounding toward zero, as C++ `/` on `int`. */
  function TruncDiv(a: int, b: int): (q: int)
    requires b > 0
    ensures a >= 0 ==> q == a / b
    ensures a < 0 ==> q == -((-a) / b)
  {
    if a >= 0 then a / b else -((-a) / b)
  }

  /** `juce::jmap<int>`: linear map of `value` from [srcMin, srcMax] onto [dstMin, dstMax] in `int` arithmetic. */
  function JmapInt(value: int, srcMin: int, srcMax: int, dstMin: int, dstMax: int): int
    requires srcMin < srcMax
  {
    dstMin + TruncDiv((dstMax - dstMin) * (value - srcMin), srcMax - srcMin)
  }

  /** Pixel row of the tick for `db` on a meter `height` pixels tall: -48 dB at the bottom, 6 dB at the top. */
  function TickY(db: int, height: int): int
  {
    JmapInt(db, NegativeInfinity.Floor, MaxDecibels.Floor, height, 0)
  }

  /** The grid value of the `k`-th tick. */
  function GridDb(k: int): int
  {
    NegativeInfinity.Floor + TickSpacing * k
  }

  /**
    `resized`: drop the old ticks, then walk every integer dB from -48 to 6
    and keep the multiples of 6. C++ `%` truncates where Dafny's is Euclidean,
    but both give 0 exactly on the multiples, so the test `i % 6 == 0` is the
    same in both.
   */
  method Resized(m: Meter, height: int) returns (r: Meter)
    ensures |r.ticks| == 10
    ensures forall k :: 0 <= k < |r.ticks| ==> r.ticks[k] == Tick(GridDb(k) as real, TickY(GridDb(k), height))
    ensures r.ticks[0].db == NegativeInfinity && r.ticks[9].db == MaxDecibels
    ensures forall j, k :: 0 <= j < k < |r.ticks| ==> r.ticks[j].db < r.ticks[k].db
    ensures r == m.(ticks := r.ticks)
  {
    var ticks: seq<Tick> := [];
    var i := NegativeInfinity.Floor;
    while i <= MaxDecibels.Floor
      invariant -48 <= i <= 7
      invariant |ticks| == (i + 53) / 6
      invariant forall k :: 0 <= k < |ticks| ==> ticks[k] == Tick(GridDb(k) as real, TickY(GridDb(k), height))
    {
      if i % 6 == 0 {
        assert i == GridDb(|ticks|);
        ticks := ticks + [Tick(i as real, TickY(i, height))];
      }
      i := i + 1;
    }
    r := m.(ticks := ticks);
  }

  /** Multiplying by a non-negative factor keeps `<=`. */
  lemma ScaleMonotone(h: int, a: int, b: int)
    requires h >= 0 && 0 <= a <= b
    ensures 0 <= h * a <= h * b
  {
    assert h * b - h * a == h * (b - a);
  }

  /** Division by the grid's dB span keeps `<=`. */
  lemma SpanDivMonotone(p: int, q: int)
    requires 0 <= p <= q
    ensures 0 <= p / 54 <= q / 54
  {
  }

  /**
    On a meter of non-negative height the grid runs from the bottom row to
    the top row, and a louder tick never sits lower on screen.
   */
  lemma TickRowsDescend(height: int, a: int, b: int)
    requires height >= 0
    requires -48 <= a <= b <= 6
    ensures TickY(-48, height) == height && TickY(6, height) == 0
    ensures 0 <= TickY(b, height) <= TickY(a, height) <= height
  {
    ScaleMonotone(height, a + 48, b + 48);
    ScaleMonotone(height, b + 48, 54);
    SpanDivMonotone(height * (a + 48), height * (b + 48));
    SpanDivMonotone(height * (b + 48), height * 54);
    assert (height * 54) / 54 == height;
    assert TickY(a, height) == height - (height * (a + 48)) / 54;
    assert TickY(b, height) == height - (height * (b + 48)) / 54;
  }

  /** `update(x)`: the bar shows `x` and `x` is handed once to the falling tick. */
  function Update(m: Meter, x: real, now: int): (r: Meter)
    ensures r.level == x
    ensures r.fallingTick == DVH.UpdateHeldValue(m.fallingTick, x, now)
    ensures r.fallingTick.base.currentValue >= r.level
    ensures r.threshold == m.threshold && r.ticks == m.ticks && r.fallingTickEnabled == m.fallingTickEnabled
  {
    m.(level := x, fallingTick := DVH.UpdateHeldValue(m.fallingTick, x, now))
  }

  function SetThreshold(m: Meter, thresh: real): (r: Meter)
    ensures r.threshold == thresh
    ensures r == m.(threshold := thresh)
  {
    m.(threshold := thresh)
  }

  /** `setDecayRate`, `setHoldTime`, `resetValueHolder`: handed straight to the falling tick. */
  function SetDecayRate(m: Meter, dbPerSecond: real): (r: Meter)
    ensures r.fallingTick == DVH.SetDecayRate(m.fallingTick, dbPerSecond)
    ensures r.fallingTick.decayRatePerFrame * DVH.TimerFrequency as real == dbPerSecond
    ensures r == m.(fallingTick := r.fallingTick)
  {
    m.(fallingTick := DVH.SetDecayRate(m.fallingTick, dbPerSecond))
  }

  function SetHoldTime(m: Meter, ms: int): (r: Meter)
    ensures r.fallingTick == DVH.SetHoldTime(m.fallingTick, ms)
    ensures GetHoldTime(r.fallingTick.base) == ms
    ensures r == m.(fallingTick := r.fallingTick)
  {
    m.(fallingTick := DVH.SetHoldTime(m.fallingTick, ms))
  }

  function ResetValueHolder(m: Meter): (r: Meter)
    ensures r.fallingTick == DVH.Reset(m.fallingTick)
    ensures r.fallingTick.base.currentValue == NegativeInfinity
    ensures r == m.(fallingTick := r.fallingTick)
  {
    m.(fallingTick := DVH.Reset(m.fallingTick))
  }

  function SetTickVisibility(m: Meter, on: bool): (r: Meter)
    ensures r.fallingTickEnabled == on
    ensures r == m.(fallingTickEnabled := on)
  {
    m.(fallingTickEnabled := on)
  }

  /** The falling tick's own 40 Hz timer; the bar itself does not move. */
  function FallingTickTimer(m: Meter, now: int): (r: Meter)
    ensures r.fallingTick == DVH.TimerCallback(m.fallingTick, now)
    ensures r == m.(fallingTick := r.fallingTick)
  {
    m.(fallingTick := DVH.TimerCallback(m.fallingTick, now))
  }

  /** The test `paint` uses to colour the bar red: a level equal to the threshold already counts. */
  predicate IsOverThreshold(m: Meter)
  {
    m.threshold <= m.level
  }

  /**
    The value `paint` draws the tick at: with a zero hold time the tick is
    pinned to the level, otherwise it is the falling tick's value.
   */
  function TickValue(m: Meter): (r: real)
    ensures GetHoldTime(m.fallingTick.base) == 0 ==> r == m.level
    ensures GetHoldTime(m.fallingTick.base) != 0 ==> r == m.fallingTick.base.currentValue
  {
    if GetHoldTime(m.fallingTick.base) == 0 then m.level else DVH.GetCurrentValue(m.fallingTick)
  }

  /** Right after an update the tick is drawn at or above the bar, whatever the hold time. */
  lemma TickNotBelowBarAfterUpdate(m: Meter, x: real, now: int)
    ensures TickValue(Update(m, x, now)) >= x
  {
  }

  /**
    The bar and the text meter disagree exactly at the threshold: the bar
    compares with `<=` and turns red, the text holder compares with `>` and
    does not.
   */
  lemma ThresholdEqualityIsRedOnlyOnTheBar(m: Meter, t: real, now: int)
    requires m.threshold == t
    ensures IsOverThreshold(Update(m, t, now))
    ensures var vh := ValueHolders.SetThreshold(ValueHolders.New(now), t);
            !ValueHolders.IsOverThreshold(ValueHolders.UpdateHeldValue(vh, t, now))
  {
  }
}
