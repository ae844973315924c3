/**
  The threshold holder behind the text meter: it follows the input, remembers
  the largest input above the threshold, and drops that held value to the
  floor once the hold time has passed without a new over-threshold input.
 */
module ValueHolders {
  import opened ValueHolderBase

  /** Threshold of a freshly built holder, in dB. */
  const DefaultThreshold: real := 0.0

  datatype ValueHolder = ValueHolder(base: HoldState, threshold: real)

  function New(now: int): (r: ValueHolder)
    ensures r.base == Init(now)
    ensures r.threshold == DefaultThreshold
    ensures !IsOverThreshold(r)
  {
    ValueHolder(Init(now), DefaultThreshold)
  }

  /** `setThreshold` changes the threshold and nothing else. */
  function SetThreshold(h: ValueHolder, thresh: real): (r: ValueHolder)
    ensures r.threshold == thresh && r.base == h.base
  {
    h.(threshold := thresh)
  }

  /** The strict comparison of the current value with the threshold. */
  predicate IsOverThreshold(h: ValueHolder)
  {
    h.base.currentValue > h.threshold
  }

  /**
    `updateHeldValue(x)`: the current value always follows `x`; an input above
    the threshold restarts the hold and raises the held value to it if larger.
   */
  function UpdateHeldValue(h: ValueHolder, x: real, now: int): (r: ValueHolder)
    ensures r.base.currentValue == x
    ensures IsOverThreshold(r) <==> x > h.threshold
    ensures x > h.threshold ==>
      && r.base.peakTime == now
      && r.base.heldValue == (if x > h.base.heldValue then x else h.base.heldValue)
      && r.base.heldValue >= r.base.currentValue
    ensures x <= h.threshold ==>
      r.base.heldValue == h.base.heldValue && r.base.peakTime == h.base.peakTime
    ensures r.threshold == h.threshold && r.base.holdTime == h.base.holdTime
  {
    var h' := h.(base := h.base.(currentValue := x));
    if IsOverThreshold(h') then
      var held := if x > h'.base.heldValue then x else h'.base.heldValue;
      h'.(base := h'.base.(peakTime := now, heldValue := held))
    else
      h'
  }

  /** Once the hold expires the held value snaps back to the floor. */
  function HandleOverHoldTime(h: ValueHolder): (r: ValueHolder)
    ensures r.base.heldValue == NegativeInfinity
    ensures r.base.currentValue == h.base.currentValue && r.threshold == h.threshold
    ensures r.base.peakTime == h.base.peakTime && r.base.holdTime == h.base.holdTime
  {
    h.(base := h.base.(heldValue := NegativeInfinity))
  }

  /** `timerCallback`: snap back exactly when the hold has expired. */
  function TimerCallback(h: ValueHolder, now: int): (r: ValueHolder)
    ensures OverHoldTime(h.base, now) ==> r.base.heldValue == NegativeInfinity
    ensures !OverHoldTime(h.base, now) ==> r == h
    ensures r.base.currentValue == h.base.currentValue && r.threshold == h.threshold
    ensures r.base.peakTime == h.base.peakTime && r.base.holdTime == h.base.holdTime
  {
    if OverHoldTime(h.base, now) then HandleOverHoldTime(h) else h
  }

  function GetHeldValue(h: ValueHolder): real
  {
    h.base.heldValue
  }

  function GetCurrentValue(h: ValueHolder): real
  {
    h.base.currentValue
  }

  /** Feeding the inputs `xs` one after another, all at time `now`. */
  function UpdateAll(h: ValueHolder, xs: seq<real>, now: int): ValueHolder
    decreases |xs|
  {
    if |xs| == 0 then h else UpdateHeldValue(UpdateAll(h, xs[..|xs| - 1], now), xs[|xs| - 1], now)
  }

  /** Reference definition: the largest of `init` and the entries of `xs` above `thresh`. */
  function MaxAbove(init: real, xs: seq<real>, thresh: real): real
    decreases |xs|
  {
    if |xs| == 0 then init
    else
      var m := MaxAbove(init, xs[..|xs| - 1], thresh);
      var x := xs[|xs| - 1];
      if x > thresh && x > m then x else m
  }

  /**
    Between expiries the held value is the running maximum of the inputs that
    crossed the threshold, starting from whatever was held before.
   */
  lemma {:induction false} HeldIsMaxAboveThreshold(h: ValueHolder, xs: seq<real>, now: int)
    ensures UpdateAll(h, xs, now).base.heldValue == MaxAbove(h.base.heldValue, xs, h.threshold)
    ensures UpdateAll(h, xs, now).threshold == h.threshold
    decreases |xs|
  {
    if |xs| > 0 {
      HeldIsMaxAboveThreshold(h, xs[..|xs| - 1], now);
    }
  }
}
