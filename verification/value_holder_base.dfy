/**
  The state shared by both peak holders: the current and held values, the
  time of the last peak and the hold time, all driven by a 40 Hz timer.
  The clock is an explicit `now` argument in milliseconds.
 */
module ValueHolderBase {

  /** Top of the meter scale, in dB. */
  const MaxDecibels: real := 6.0
  /** Bottom of the meter scale, in dB; the holders' floor. */
  const NegativeInfinity: real := -48.0
  /** Hold time of a freshly built holder, in ms. */
  const DefaultHoldTimeMs: int := 2000

  const Int64Min: int := -0x8000_0000_0000_0000
  const Int64Max: int := 0x7FFF_FFFF_FFFF_FFFF

  datatype HoldState = HoldState(currentValue: real, heldValue: real, peakTime: int, holdTime: int)

  /** The field initialisers: both values at the floor, peak time at construction, 2 s hold. */
  function Init(now: int): (r: HoldState)
    ensures r.currentValue == NegativeInfinity && r.heldValue == NegativeInfinity
    ensures r.peakTime == now
    ensures r.holdTime == DefaultHoldTimeMs
    ensures !OverHoldTime(r, now)
  {
    HoldState(NegativeInfinity, NegativeInfinity, now, DefaultHoldTimeMs)
  }

  /** The test `timerCallback` makes: strictly more than the hold time has passed since the peak. */
  predicate OverHoldTime(b: HoldState, now: int)
  {
    now - b.peakTime > b.holdTime
  }

  function SetHoldTime(b: HoldState, ms: int): (r: HoldState)
    ensures GetHoldTime(r) == ms
    ensures r == b.(holdTime := ms)
  {
    b.(holdTime := ms)
  }

  function GetHoldTime(b: HoldState): int
  {
    b.holdTime
  }

  /** `reset`: the current value drops to the floor; held value, peak time and hold time stay. */
  function Reset(b: HoldState): (r: HoldState)
    ensures r.currentValue == NegativeInfinity
    ensures r.heldValue == b.heldValue && r.peakTime == b.peakTime && r.holdTime == b.holdTime
  {
    b.(currentValue := NegativeInfinity)
  }

  /**
    The timer never moves the peak time, so once the hold has expired it stays
    expired at every later tick until a new peak arrives.
   */
  lemma ExpiryPersists(b: HoldState, now: int, later: int)
    requires OverHoldTime(b, now)
    requires now <= later
    ensures OverHoldTime(b, later)
  {
  }

  /** A hold time of 0 still waits one millisecond: the comparison is strict. */
  lemma ExpiryIsStrict(b: HoldState)
    ensures !OverHoldTime(b, b.peakTime + b.holdTime)
    ensures OverHoldTime(b, b.peakTime + b.holdTime + 1)
  {
  }
}
