/**
  The falling tick of a bar meter: a peak that, once the hold time has passed,
  falls with ballistic acceleration. Each expired tick subtracts
  `decayRatePerFrame * decayRateMultiplier`, clamps to the meter range and
  grows the multiplier by 1.04; reaching the floor resets the multiplier to 1.
 */
module DecayingValueHolders {
  import opened ValueHolderBase

  /** The rate the decay is computed for; it equals the 40 Hz at which every holder starts its timer. */
  const TimerFrequency: int := 40
  /** Decay rate of a freshly built holder, in dB per second. */
  const InitDecayRate: real := 12.0
  /** Per-tick growth of the decay multiplier. */
  const MultiplierGrowth: real := 1.04

  datatype DecayingValueHolder = DecayingValueHolder(base: HoldState, decayRatePerFrame: real, decayRateMultiplier: real)

  /** Nothing ever leaves the current value below the floor. */
  predicate Valid(h: DecayingValueHolder)
  {
    h.base.currentValue >= NegativeInfinity
  }

  /** `juce::jlimit(lo, hi, v)`. */
  function Clamp(lo: real, hi: real, v: real): (r: real)
    requires lo <= hi
    ensures lo <= r <= hi
    ensures lo <= v <= hi ==> r == v
  {
    if v < lo then lo else if hi < v then hi else v
  }

  /** The constructor: base fields at their initialisers, then `setDecayRate(initDecayRate)`. */
  function New(now: int): (r: DecayingValueHolder)
    ensures Valid(r)
    ensures r.base == Init(now)
    ensures r.decayRatePerFrame == InitDecayRate / TimerFrequency as real == 0.3
    ensures r.decayRateMultiplier == 1.0
  {
    SetDecayRate(DecayingValueHolder(Init(now), 0.0, 1.0), InitDecayRate)
  }

  /** A new input above the current value becomes the peak; anything else is ignored. */
  function UpdateHeldValue(h: DecayingValueHolder, x: real, now: int): (r: DecayingValueHolder)
    ensures x <= h.base.currentValue ==> r == h
    ensures x > h.base.currentValue ==>
      && r.base.currentValue == x
      && r.base.peakTime == now
      && r.decayRateMultiplier == 1.0
    ensures r.base.currentValue >= h.base.currentValue && r.base.currentValue >= x
    ensures r.base.heldValue == h.base.heldValue && r.base.holdTime == h.base.holdTime
    ensures r.decayRatePerFrame == h.decayRatePerFrame
    ensures Valid(h) ==> Valid(r)
  {
    if x > h.base.currentValue then
      ResetDecayRateMultiplier(h.(base := h.base.(peakTime := now, currentValue := x)))
    else
      h
  }

  /** `setDecayRate(d)`: the per-frame decrement becomes `d` spread over one second of ticks. */
  function SetDecayRate(h: DecayingValueHolder, dbPerSecond: real): (r: DecayingValueHolder)
    ensures r.decayRatePerFrame * TimerFrequency as real == dbPerSecond
    ensures r.base == h.base && r.decayRateMultiplier == h.decayRateMultiplier
  {
    h.(decayRatePerFrame := dbPerSecond / TimerFrequency as real)
  }

  /** `resetDecayRateMultiplier`: the multiplier returns to 1 and nothing else changes. */
  function ResetDecayRateMultiplier(h: DecayingValueHolder): (r: DecayingValueHolder)
    ensures r.decayRateMultiplier == 1.0
    ensures r.base == h.base && r.decayRatePerFrame == h.decayRatePerFrame
  {
    h.(decayRateMultiplier := 1.0)
  }

  /** The amount one expired tick subtracts. */
  function Step(h: DecayingValueHolder): real
  {
    h.decayRatePerFrame * h.decayRateMultiplier
  }

  /** One decay step, taken on every tick after the hold has expired. */
  function HandleOverHoldTime(h: DecayingValueHolder): (r: DecayingValueHolder)
    ensures NegativeInfinity <= r.base.currentValue <= MaxDecibels
    ensures Valid(r)
    ensures Valid(h) && h.decayRatePerFrame >= 0.0 && h.decayRateMultiplier >= 0.0 ==>
              r.base.currentValue <= h.base.currentValue
    ensures r.base.currentValue == NegativeInfinity ==> r.decayRateMultiplier == 1.0
    ensures r.base.currentValue != NegativeInfinity ==>
              r.decayRateMultiplier == h.decayRateMultiplier * MultiplierGrowth
    ensures var next := h.base.currentValue - Step(h);
            && (NegativeInfinity <= next <= MaxDecibels ==> r.base.currentValue == next)
            && (r.base.currentValue > NegativeInfinity ==> r.base.currentValue <= next)
    ensures r.base.heldValue == h.base.heldValue && r.base.peakTime == h.base.peakTime
    ensures r.base.holdTime == h.base.holdTime && r.decayRatePerFrame == h.decayRatePerFrame
  {
    var v := Clamp(NegativeInfinity, MaxDecibels, h.base.currentValue - Step(h));
    var h' := h.(base := h.base.(currentValue := v),
                 decayRateMultiplier := h.decayRateMultiplier * MultiplierGrowth);
    if v == NegativeInfinity then ResetDecayRateMultiplier(h') else h'
  }

  /** `timerCallback`: decay exactly when the hold has expired. */
  function TimerCallback(h: DecayingValueHolder, now: int): (r: DecayingValueHolder)
    ensures OverHoldTime(h.base, now) ==> r == HandleOverHoldTime(h)
    ensures !OverHoldTime(h.base, now) ==> r == h
    ensures r.base.peakTime == h.base.peakTime && r.base.holdTime == h.base.holdTime
    ensures Valid(h) ==> Valid(r)
  {
    if OverHoldTime(h.base, now) then HandleOverHoldTime(h) else h
  }

  function Reset(h: DecayingValueHolder): (r: DecayingValueHolder)
    ensures Valid(r)
    ensures r.base == ValueHolderBase.Reset(h.base)
    ensures r.decayRatePerFrame == h.decayRatePerFrame && r.decayRateMultiplier == h.decayRateMultiplier
  {
    h.(base := ValueHolderBase.Reset(h.base))
  }

  function SetHoldTime(h: DecayingValueHolder, ms: int): (r: DecayingValueHolder)
    ensures r.base == ValueHolderBase.SetHoldTime(h.base, ms)
    ensures r.decayRatePerFrame == h.decayRatePerFrame && r.decayRateMultiplier == h.decayRateMultiplier
  {
    h.(base := ValueHolderBase.SetHoldTime(h.base, ms))
  }

  function GetCurrentValue(h: DecayingValueHolder): real
  {
    h.base.currentValue
  }

  /** `n` consecutive decay steps, the ticks after the hold has expired. */
  function Ticks(h: DecayingValueHolder, n: nat): DecayingValueHolder
  {
    if n == 0 then h else HandleOverHoldTime(Ticks(h, n - 1))
  }

  function Pow(b: real, n: nat): real
  {
    if n == 0 then 1.0 else b * Pow(b, n - 1)
  }

  /** Predicate on a run of ticks: none of the first `n` landed on the floor. */
  predicate AboveFloorFor(h: DecayingValueHolder, n: nat)
  {
    forall k :: 1 <= k <= n ==> Ticks(h, k).base.currentValue != NegativeInfinity
  }

  /**
    Above the floor the multiplier grows geometrically: after `n` ticks that
    all stay off the floor it is the starting multiplier times 1.04^n.
   */
  lemma {:induction false} MultiplierIsGeometric(h: DecayingValueHolder, n: nat)
    requires AboveFloorFor(h, n)
    ensures Ticks(h, n).decayRateMultiplier == h.decayRateMultiplier * Pow(MultiplierGrowth, n)
  {
    if n > 0 {
      assert AboveFloorFor(h, n - 1);
      MultiplierIsGeometric(h, n - 1);
      assert Ticks(h, n).base.currentValue != NegativeInfinity;
    }
  }

  /**
    Ballistic acceleration: with a positive rate and multiplier, the step a
    tick subtracts is strictly larger than the step of the tick before it,
    as long as that earlier tick stayed off the floor.
   */
  lemma StepAccelerates(h: DecayingValueHolder)
    requires h.decayRatePerFrame > 0.0 && h.decayRateMultiplier > 0.0
    requires HandleOverHoldTime(h).base.currentValue != NegativeInfinity
    ensures Step(HandleOverHoldTime(h)) == Step(h) * MultiplierGrowth > Step(h)
  {
    var h' := HandleOverHoldTime(h);
    assert h'.decayRateMultiplier == h.decayRateMultiplier * MultiplierGrowth;
    assert Step(h') == (h.decayRatePerFrame * h.decayRateMultiplier) * MultiplierGrowth;
    assert Step(h) > 0.0;
  }

  /** At the floor with a non-negative rate, a tick keeps the value there and the multiplier at 1. */
  lemma FloorIsStable(h: DecayingValueHolder)
    requires h.base.currentValue == NegativeInfinity
    requires h.decayRatePerFrame >= 0.0 && h.decayRateMultiplier >= 0.0
    ensures HandleOverHoldTime(h).base.currentValue == NegativeInfinity
    ensures HandleOverHoldTime(h).decayRateMultiplier == 1.0
  {
    assert Step(h) >= 0.0;
  }

  /**
    Decay monotonicity: with a non-negative rate and multiplier, a valid holder's
    value never rises over any run of ticks, and the multiplier stays at least 1.
   */
  lemma {:induction false} TicksNeverRise(h: DecayingValueHolder, n: nat)
    requires Valid(h) && h.decayRatePerFrame >= 0.0 && h.decayRateMultiplier >= 1.0
    ensures Valid(Ticks(h, n)) && Ticks(h, n).decayRateMultiplier >= 1.0
    ensures Ticks(h, n).decayRatePerFrame == h.decayRatePerFrame
    ensures Ticks(h, n + 1).base.currentValue <= Ticks(h, n).base.currentValue
  {
    if n > 0 {
      TicksNeverRise(h, n - 1);
      var t := Ticks(h, n - 1);
      assert Ticks(h, n) == HandleOverHoldTime(t);
      assert t.decayRateMultiplier * MultiplierGrowth >= 1.0;
    }
    assert Ticks(h, n + 1) == HandleOverHoldTime(Ticks(h, n));
  }

  /** `n` times `r`, built up one tick at a time. */
  function Fall(n: nat, r: real): real
  {
    if n == 0 then 0.0 else Fall(n - 1, r) + r
  }

  lemma {:induction false} FallIsProduct(n: nat, r: real)
    ensures Fall(n, r) == n as real * r
  {
    if n > 0 {
      FallIsProduct(n - 1, r);
      var x := n as real;
      assert (n - 1) as real == x - 1.0;
      assert (x - 1.0) * r + r == x * r;
    }
  }

  /**
    With a positive rate the fall is at least the base rate per tick: after `n`
    ticks the value is at the floor or at least `n * rate` below where it began.
   */
  lemma {:induction false} FallsAtLeastBaseRate(h: DecayingValueHolder, n: nat)
    requires Valid(h) && h.decayRatePerFrame > 0.0 && h.decayRateMultiplier >= 1.0
    ensures Ticks(h, n).base.currentValue == NegativeInfinity
            || Ticks(h, n).base.currentValue <= h.base.currentValue - Fall(n, h.decayRatePerFrame)
  {
    if n > 0 {
      FallsAtLeastBaseRate(h, n - 1);
      TicksNeverRise(h, n - 1);
      var t := Ticks(h, n - 1);
      assert Ticks(h, n) == HandleOverHoldTime(t);
      if t.base.currentValue == NegativeInfinity {
        FloorIsStable(t);
      } else {
        StepAtLeastRate(t);
      }
    }
  }

  lemma StepAtLeastRate(h: DecayingValueHolder)
    requires h.decayRatePerFrame > 0.0 && h.decayRateMultiplier >= 1.0
    ensures Step(h) >= h.decayRatePerFrame
  {
    var a, m := h.decayRatePerFrame, h.decayRateMultiplier;
    assert a * m - a == a * (m - 1.0);
  }

  /** Hence a peak reaches the floor after at most (value + 48) / rate expired ticks. */
  lemma ReachesFloor(h: DecayingValueHolder, n: nat)
    requires Valid(h) && h.decayRatePerFrame > 0.0 && h.decayRateMultiplier >= 1.0
    requires n as real * h.decayRatePerFrame >= h.base.currentValue - NegativeInfinity
    ensures Ticks(h, n).base.currentValue == NegativeInfinity
  {
    FallsAtLeastBaseRate(h, n);
    FallIsProduct(n, h.decayRatePerFrame);
    TicksNeverRise(h, n);
    var v := Ticks(h, n).base.currentValue;
    assert v >= NegativeInfinity;
    assert v == NegativeInfinity || v <= h.base.currentValue - n as real * h.decayRatePerFrame;
  }

  /**
    Peaks at -6 dB and then -3 dB, a hold time of 0 and the default 12 dB/s:
    the first two expired ticks fall by 0.3 dB and then 0.312 dB.
   */
  lemma DefaultBallistics()
    ensures var h := SetHoldTime(UpdateHeldValue(UpdateHeldValue(New(0), -6.0, 0), -3.0, 0), 0);
            && TimerCallback(h, 0) == h
            && TimerCallback(h, 1).base.currentValue == -3.3
            && TimerCallback(TimerCallback(h, 1), 2).base.currentValue == -3.612
  {
  }
}
