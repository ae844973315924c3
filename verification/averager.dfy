/**
  The running averager: a fixed-size ring of samples, a write index, a running
  total and a cached mean, updated in O(1) per sample.

  Samples are `float` in the program and `real` here. `add`, the getters and
  the constructor follow the program; the constructor runs the program's own
  `resize`, so its `int` accumulator truncates a non-integral initial value.
  `clear` and `resize` come in two versions: the `AsWritten` ones reproduce
  two defects of the program (an `int` accumulator and a write index that
  survives a shrink), the plain ones are the corrected definitions that the
  meters use when they resize.
 */
module Averagers {
  import opened Ring

  datatype Averager = Averager(container: seq<real>, writeIndex: int, runningTotal: real, average: real)

  /** `add` may only run while the write index addresses a slot. */
  predicate IndexInRange(a: Averager)
  {
    0 <= a.writeIndex < |a.container|
  }

  /** The cached average is the running total over the size, as `computeAverage` leaves it. */
  predicate Tracks(a: Averager)
  {
    |a.container| >= 1 && a.average == a.runningTotal / |a.container| as real
  }

  /** How far the running total is from the true sum of the ring. */
  function Bias(a: Averager): real
  {
    Sum(a.container) - a.runningTotal
  }

  /** The running total is the exact sum of the ring and the average is total / size. */
  predicate Consistent(a: Averager)
  {
    Tracks(a) && Bias(a) == 0.0
  }

  predicate Valid(a: Averager)
  {
    IndexInRange(a) && Consistent(a)
  }

  /** The samples in the order they were added, oldest first. */
  function Window(a: Averager): seq<real>
    requires IndexInRange(a)
  {
    Chronological(a.container, a.writeIndex)
  }

  /** Conversion of a `float` to an `int`: rounds toward zero. */
  function Trunc(x: real): (r: int)
    ensures -1.0 < x - r as real < 1.0
    ensures x >= 0.0 ==> 0 <= r && r as real <= x
    ensures x <= 0.0 ==> r <= 0 && x <= r as real
  {
    if x >= 0.0 then x.Floor else -((-x).Floor)
  }

  /** True when `x` has no fractional part. */
  predicate Integral(x: real)
  {
    x == x.Floor as real
  }

  /** What `n` slots of `v` lose when each is truncated toward zero. */
  function Shortfall(n: nat, v: real): real
  {
    n as real * (v - Trunc(v) as real)
  }

  /** `n` copies of `v` sum to the truncated total plus the shortfall, and nothing is lost exactly when `v` is integral. */
  lemma ShortfallOfFill(n: nat, v: real)
    ensures Sum(Fill(n, v)) == (n * Trunc(v)) as real + Shortfall(n, v)
    ensures n >= 1 ==> (Shortfall(n, v) == 0.0 <==> Integral(v))
  {
    SumFill(n, v);
    assert (n * Trunc(v)) as real == n as real * Trunc(v) as real;
    if n >= 1 && Shortfall(n, v) == 0.0 {
      assert v - Trunc(v) as real == 0.0;
    }
  }

  /**
    `std::accumulate(first, last, 0)`: the accumulator has the type of the
    initial value `0`, an `int`, so every partial sum is converted back to `int`.
   */
  function Accumulate(xs: seq<real>, acc: int): int
  {
    if |xs| == 0 then acc else Accumulate(xs[1..], Trunc(acc as real + xs[0]))
  }

  /** An integer partial sum with the sign of `v` keeps that sign, so each step truncates `v` alone. */
  lemma TruncShift(k: int, v: real)
    requires (v >= 0.0 && k >= 0) || (v <= 0.0 && k <= 0)
    ensures Trunc(k as real + v) == k + Trunc(v)
  {
    if v >= 0.0 {
      var f := v.Floor;
      assert (k + f) as real <= k as real + v < (k + f + 1) as real;
    } else {
      var f := (-v).Floor;
      assert (-k + f) as real <= -(k as real + v) < (-k + f + 1) as real;
    }
  }

  /** Accumulating `n` copies of `v` into an `int` yields `n` times `v` truncated. */
  lemma {:induction false} AccumulateFill(n: nat, v: real, acc: int)
    requires (v >= 0.0 && acc >= 0) || (v <= 0.0 && acc <= 0)
    ensures Accumulate(Fill(n, v), acc) == acc + n * Trunc(v)
  {
    if n > 0 {
      assert Fill(n, v)[0] == v;
      assert Fill(n, v)[1..] == Fill(n - 1, v);
      TruncShift(acc, v);
      AccumulateFill(n - 1, v, acc + Trunc(v));
    }
  }

  /**
    `clear(v)` as the program writes it: every slot becomes `v`, but the total
    is accumulated into an `int`, so the cached average is `v` rounded toward zero.
   */
  function ClearAsWritten(a: Averager, v: real): (r: Averager)
    requires |a.container| >= 1
    ensures r.container == Fill(|a.container|, v)
    ensures r.writeIndex == a.writeIndex
    ensures r.runningTotal == (|a.container| * Trunc(v)) as real
    ensures Tracks(r)
    ensures r.average == Trunc(v) as real
    ensures r.average == v <==> Integral(v)
    ensures Bias(r) == Shortfall(|a.container|, v)
  {
    var c := Fill(|a.container|, v);
    AccumulateFill(|c|, v, 0);
    ShortfallOfFill(|c|, v);
    var total := Accumulate(c, 0) as real;
    TotalOverSize(|c|, Trunc(v));
    TruncIsIdentity(v);
    Averager(c, a.writeIndex, total, total / |c| as real)
  }

  /** `n` equal integer parts divided by `n` give back the part. */
  lemma TotalOverSize(n: nat, t: int)
    requires n >= 1
    ensures (n * t) as real / n as real == t as real
  {
    assert (n * t) as real == n as real * t as real;
  }

  /** Truncation leaves exactly the integral values unchanged. */
  lemma TruncIsIdentity(v: real)
    ensures Trunc(v) as real == v <==> Integral(v)
  {
    if v < 0.0 {
      if Integral(v) {
        assert -v == (-(v.Floor)) as real;
        assert (-v).Floor == -(v.Floor);
      }
      if Trunc(v) as real == v {
        assert v.Floor == Trunc(v);
      }
    }
  }

  /**
    `resize(s, v)` as the program writes it: the vector is resized and cleared,
    but the write index is kept, so a shrink can leave it past the end.
   */
  function ResizeAsWritten(a: Averager, s: nat, v: real): (r: Averager)
    requires s >= 1
    ensures r.container == Fill(s, v)
    ensures r.writeIndex == a.writeIndex
    ensures IndexInRange(r) <==> 0 <= a.writeIndex < s
    ensures Tracks(r)
    ensures r.average == Trunc(v) as real
    ensures Bias(r) == Shortfall(s, v)
  {
    ClearAsWritten(a.(container := VectorResize(a.container, s, v)), v)
  }

  /** `clear(v)` with the total summed in floating point, as the cast to `float` intends. */
  function Clear(a: Averager, v: real): (r: Averager)
    requires |a.container| >= 1
    ensures Consistent(r)
    ensures r.container == Fill(|a.container|, v)
    ensures r.writeIndex == a.writeIndex
    ensures r.average == v
  {
    var c := Fill(|a.container|, v);
    SumFill(|c|, v);
    Averager(c, a.writeIndex, Sum(c), Sum(c) / |c| as real)
  }

  /** `resize(s, v)` that also restarts the write index, so the averager stays valid. */
  function Resize(a: Averager, s: nat, v: real): (r: Averager)
    requires s >= 1
    ensures Valid(r)
    ensures |r.container| == s
    ensures r.average == v
    ensures Window(r) == Fill(s, v)
  {
    var r := Clear(Averager(VectorResize(a.container, s, v), 0, a.runningTotal, a.average), v);
    assert Window(r) == r.container;
    r
  }

  /**
    The constructor `Averager(n, v)`: an empty vector put through the
    program's `resize`. The index starts at 0, so the ring is addressable,
    but the total is `n` times `v` truncated: only an integral `v` gives a
    consistent averager.
   */
  function New(n: nat, v: real): (r: Averager)
    requires n >= 1
    ensures IndexInRange(r) && r.writeIndex == 0
    ensures Tracks(r)
    ensures Window(r) == Fill(n, v)
    ensures r.average == Trunc(v) as real
    ensures Bias(r) == Shortfall(n, v)
    ensures Valid(r) <==> Integral(v)
  {
    var r := ResizeAsWritten(Averager([], 0, 0.0, 0.0), n, v);
    assert Window(r) == r.container;
    r
  }

  /**
    `add(t)`: take the overwritten slot out of the total, store `t`, add it in,
    advance the index modulo the size and recompute the average.
   */
  function Add(a: Averager, t: real): (r: Averager)
    requires IndexInRange(a)
    ensures IndexInRange(r)
    ensures |r.container| == |a.container|
    ensures r.container[a.writeIndex] == t
    ensures forall k :: 0 <= k < |a.container| && k != a.writeIndex ==> r.container[k] == a.container[k]
    ensures r.writeIndex == (a.writeIndex + 1) % |a.container|
    ensures Tracks(r)
    ensures Bias(r) == Bias(a)
    ensures Consistent(a) ==> Consistent(r)
    ensures Window(r) == Window(a)[1..] + [t]
  {
    var idx := a.writeIndex;
    var sum := a.runningTotal - a.container[idx] + t;
    var c := a.container[idx := t];
    SumUpdate(a.container, idx, t);
    ChronologicalAfterStore(a.container, idx, t);
    Averager(c, (idx + 1) % |c|, sum, sum / |c| as real)
  }

  /** `add` applied to each sample of `xs` in turn. */
  function AddAll(a: Averager, xs: seq<real>): (r: Averager)
    requires IndexInRange(a)
    ensures IndexInRange(r)
    ensures |r.container| == |a.container|
    ensures Tracks(a) ==> Tracks(r)
    ensures Bias(r) == Bias(a)
    ensures Consistent(a) ==> Consistent(r)
    decreases |xs|
  {
    if |xs| == 0 then a else Add(AddAll(a, xs[..|xs| - 1]), xs[|xs| - 1])
  }

  function GetAverage(a: Averager): real
  {
    a.average
  }

  function GetSize(a: Averager): nat
  {
    |a.container|
  }

  /** After any run of `add`s the ring holds the newest `size` samples of the whole history. */
  lemma {:induction false} AddAllWindow(a: Averager, xs: seq<real>)
    requires IndexInRange(a)
    ensures Window(AddAll(a, xs)) == Last(|a.container|, Window(a) + xs)
    decreases |xs|
  {
    if |xs| == 0 {
      assert Window(a) + xs == Window(a);
    } else {
      var init := xs[..|xs| - 1];
      var t := xs[|xs| - 1];
      AddAllWindow(a, init);
      assert Window(a) + xs == (Window(a) + init) + [t];
      LastAppend(|a.container|, Window(a) + init, t);
    }
  }

  /** While no wrap-around happens, each `add` moves the write index on by one. */
  lemma {:induction false} AddAllIndex(a: Averager, xs: seq<real>)
    requires IndexInRange(a)
    requires a.writeIndex + |xs| < |a.container|
    ensures AddAll(a, xs).writeIndex == a.writeIndex + |xs|
    decreases |xs|
  {
    if |xs| > 0 {
      var b := AddAll(a, xs[..|xs| - 1]);
      AddAllIndex(a, xs[..|xs| - 1]);
      assert AddAll(a, xs) == Add(b, xs[|xs| - 1]);
      ModSmall(b.writeIndex + 1, |b.container|);
    }
  }

  lemma ModSmall(x: int, n: int)
    requires 0 <= x < n
    ensures x % n == x
  {
  }

  /**
    The averager's promise: after constructing it with `n` copies of `v` and
    adding `xs`, the average is the arithmetic mean of the last `n` values of
    the history, with the initial fill counting as the oldest values. For a
    non-integral `v` the constructor's truncation stays in the total, and
    every later average is off by the same amount.
   */
  lemma MeanOfLastWindow(n: nat, v: real, xs: seq<real>)
    requires n >= 1
    ensures AddAll(New(n, v), xs).average
              == (Sum(Last(n, Fill(n, v) + xs)) - Shortfall(n, v)) / n as real
    ensures Integral(v) ==> AddAll(New(n, v), xs).average == Sum(Last(n, Fill(n, v) + xs)) / n as real
  {
    var a0 := New(n, v);
    var a := AddAll(a0, xs);
    var total := Sum(Last(n, Fill(n, v) + xs));
    AddAllWindow(a0, xs);
    SumChronological(a.container, a.writeIndex);
    assert Sum(a.container) == total;
    assert a.runningTotal == total - Shortfall(n, v);
    ShortfallOfFill(n, v);
  }

  /**
    The truncation of `clear` is never repaired: whatever is added after an
    as-written clear to a non-integral `v`, the running total stays short of
    the true sum by the same amount, so the averager never becomes consistent.
   */
  lemma ClearAsWrittenBiasPersists(a: Averager, v: real, xs: seq<real>)
    requires IndexInRange(a)
    ensures var r := AddAll(ClearAsWritten(a, v), xs);
            && Bias(r) == Shortfall(|a.container|, v)
            && r.average == (Sum(Window(r)) - Bias(r)) / |a.container| as real
            && (Consistent(r) <==> Integral(v))
  {
    var c := ClearAsWritten(a, v);
    var r := AddAll(c, xs);
    SumChronological(r.container, r.writeIndex);
    ShortfallOfFill(|a.container|, v);
    assert Tracks(r);
  }

  /**
    Finding: shrinking keeps the write index. An averager of 20 slots that has
    taken 10 samples has its index at 10; resizing it to 4 slots leaves the
    index at 10, so the next `add` writes past the end of the vector.
   */
  lemma ShrinkLeavesIndexPastEnd()
    ensures var a := AddAll(New(20, -48.0), Fill(10, -48.0));
            IndexInRange(a) && !IndexInRange(ResizeAsWritten(a, 4, a.average))
  {
    var a0 := New(20, -48.0);
    var xs := Fill(10, -48.0);
    assert a0.writeIndex == 0;
    AddAllIndex(a0, xs);
    var a := AddAll(a0, xs);
    assert a.writeIndex == 10 % 20 == 10;
  }

  /**
    Finding: the `int` accumulator truncates. Clearing to -47.5 stores a total
    of -47 per slot, so the average reads -47 instead of -47.5.
   */
  lemma ClearTruncatesFill()
    ensures ClearAsWritten(New(20, -48.0), -47.5).average == -47.0
    ensures Clear(New(20, -48.0), -47.5).average == -47.5
  {
    assert Trunc(-47.5) == -47;
  }
}
