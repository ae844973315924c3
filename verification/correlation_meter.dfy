/**
  The correlation meter: for every stereo sample it low-passes L*L, R*R and
  L*R through three FIR filters, divides the filtered product by the square
  root of the product of the filtered powers, and feeds the quotient to a
  short and a long running averager. A degenerate denominator feeds 0.

  The filters, their design and `sqrt` belong to the DSP library and are
  parameters here: `Dsp` bundles them, `C` is the coefficient set and `S`
  a filter's sample history.
 */
module CorrelationMeters {
  import opened Ring
  import opened FloatModel
  import Averagers

  /** Cut-off frequency of the smoothing filters, in Hz. */
  const CutoffHz: real := 100.0
  /** Order of the windowed FIR design. */
  const FilterOrder: nat := 2
  /** The long averager spans this many blocks. */
  const AveragedBlocks: nat := 6

  /** The library routines the meter calls. */
  datatype Dsp<!C, !S> = Dsp(
    /** Low-pass FIR design by the Hann-window method from frequency, sample rate and order. */
    design: (real, real, nat) -> C,
    /** A filter's history right after `prepare`. */
    cleared: S,
    /** `processSample`: new history and output for one input. */
    process: (C, S, Float) -> (S, Float),
    /** Square root of a non-negative real. */
    root: real -> real)

  datatype Filter<C, S> = Filter(coefficients: C, history: S)

  /** `filters[0]` smooths L*R, `filters[1]` smooths L*L, `filters[2]` smooths R*R. */
  datatype Filters<C, S> = Filters(product: Filter<C, S>, left: Filter<C, S>, right: Filter<C, S>)

  datatype CorrelationMeter<C, S> = CorrelationMeter(
    filters: Filters<C, S>,
    sampleRate: real,
    blockSize: nat,
    instantaneous: Averagers.Averager,
    averaged: Averagers.Averager)

  predicate Valid<C, S>(cm: CorrelationMeter<C, S>)
  {
    Averagers.Valid(cm.instantaneous) && Averagers.Valid(cm.averaged)
  }

  /** All three filters use one coefficient set. */
  ghost predicate SharedCoefficients<C, S>(fs: Filters<C, S>)
  {
    fs.left.coefficients == fs.product.coefficients && fs.right.coefficients == fs.product.coefficients
  }

  /** One `processSample` call: the history moves on, the coefficients stay. */
  function Process<C, S>(dsp: Dsp<C, S>, f: Filter<C, S>, x: Float): (r: (Filter<C, S>, Float))
    ensures r.0.coefficients == f.coefficients
    ensures r.0.history == dsp.process(f.coefficients, f.history, x).0
    ensures r.1 == dsp.process(f.coefficients, f.history, x).1
  {
    var (h, y) := dsp.process(f.coefficients, f.history, x);
    (Filter(f.coefficients, h), y)
  }

  /** `prepareFilters`: one design, handed to all three freshly prepared filters. */
  function PrepareFilters<C, S>(dsp: Dsp<C, S>, sampleRate: real): (r: Filters<C, S>)
    ensures SharedCoefficients(r)
    ensures r.product.coefficients == dsp.design(CutoffHz, sampleRate, FilterOrder)
    ensures r.product.history == dsp.cleared && r.left.history == dsp.cleared && r.right.history == dsp.cleared
  {
    var c := dsp.design(CutoffHz, sampleRate, FilterOrder);
    Filters(Filter(c, dsp.cleared), Filter(c, dsp.cleared), Filter(c, dsp.cleared))
  }

  /**
    The constructor: the averagers span one block and six blocks, both filled
    with 0, and the filters are prepared. A block size of 0 would give the
    averagers no slots, which they cannot work with.
   */
  function New<C, S>(dsp: Dsp<C, S>, sampleRate: real, blockSize: nat): (r: CorrelationMeter<C, S>)
    requires blockSize >= 1
    ensures Valid(r)
    ensures SharedCoefficients(r.filters)
    ensures r.filters == PrepareFilters(dsp, sampleRate)
    ensures r.instantaneous == Averagers.New(blockSize, 0.0)
    ensures r.averaged == Averagers.New(AveragedBlocks * blockSize, 0.0)
    ensures Averagers.GetSize(r.averaged) == AveragedBlocks * Averagers.GetSize(r.instantaneous)
    ensures r.instantaneous.average == 0.0 && r.averaged.average == 0.0
  {
    CorrelationMeter(PrepareFilters(dsp, sampleRate), sampleRate, blockSize,
                     Averagers.New(blockSize, 0.0), Averagers.New(AveragedBlocks * blockSize, 0.0))
  }

  /** The denominator: smooth L*L and R*R, multiply, take the square root. Both power filters advance. */
  function Denominator<C, S>(dsp: Dsp<C, S>, fs: Filters<C, S>, l: Float, r: Float): (res: (Filters<C, S>, Float))
    ensures res.0 == fs.(left := Process(dsp, fs.left, Square(l)).0, right := Process(dsp, fs.right, Square(r)).0)
    ensures SharedCoefficients(fs) ==> SharedCoefficients(res.0)
  {
    var (fl, pl) := Process(dsp, fs.left, Square(l));
    var (fr, pr) := Process(dsp, fs.right, Square(r));
    (fs.(left := fl, right := fr), Sqrt(Mul(pl, pr), dsp.root))
  }

  /** The guard as the program writes it: not zero and not infinite. */
  predicate GuardAsWritten(den: Float)
  {
    den != Finite(0.0) && !IsInf(den)
  }

  /** The guard the division needs: a finite, non-zero denominator. */
  predicate Guard(den: Float)
  {
    den.Finite? && den.v != 0.0
  }

  /** The corrected guard is the program's guard with NaN excluded as well. */
  lemma GuardsDifferOnlyOnNaN(den: Float)
    ensures Guard(den) <==> GuardAsWritten(den) && !IsNaN(den)
    ensures GuardAsWritten(den) && !Guard(den) <==> IsNaN(den)
  {
  }

  /**
    One iteration of the loop in `update` as written: both power filters
    always advance; the product filter advances and the quotient is pushed
    only when the guard passes, otherwise 0 is pushed.
   */
  function SampleAsWritten<C, S>(dsp: Dsp<C, S>, fs: Filters<C, S>, l: Float, r: Float): (res: (Filters<C, S>, Float))
    ensures var (fs1, den) := Denominator(dsp, fs, l, r);
            && res.0.left == fs1.left && res.0.right == fs1.right
            && (!GuardAsWritten(den) ==> res.0.product == fs.product && res.1 == Finite(0.0))
            && (GuardAsWritten(den) ==>
                  var (p, num) := Process(dsp, fs.product, Mul(l, r));
                  res.0.product == p && res.1 == Div(num, den))
  {
    var (fs1, den) := Denominator(dsp, fs, l, r);
    if GuardAsWritten(den) then
      var (p, num) := Process(dsp, fs1.product, Mul(l, r));
      (fs1.(product := p), Div(num, den))
    else
      (fs1, Finite(0.0))
  }

  /**
    The corrected iteration: the quotient is pushed only when the denominator
    is finite and non-zero and the quotient itself is finite; otherwise 0.
    The filters advance exactly as in the program.
   */
  function Sample<C, S>(dsp: Dsp<C, S>, fs: Filters<C, S>, l: Float, r: Float): (res: (Filters<C, S>, real))
    ensures var (fs1, den) := Denominator(dsp, fs, l, r);
            && res.0.left == fs1.left && res.0.right == fs1.right
            && (!Guard(den) ==> res.0.product == fs.product && res.1 == 0.0)
            && (Guard(den) ==>
                  var (p, num) := Process(dsp, fs.product, Mul(l, r));
                  && res.0.product == p
                  && res.1 == (if Div(num, den).Finite? then Div(num, den).v else 0.0))
    ensures SharedCoefficients(fs) ==> SharedCoefficients(res.0)
  {
    var (fs1, den) := Denominator(dsp, fs, l, r);
    if Guard(den) then
      var (p, num) := Process(dsp, fs1.product, Mul(l, r));
      var q := Div(num, den);
      (fs1.(product := p), if q.Finite? then q.v else 0.0)
    else
      (fs1, 0.0)
  }

  /**
    Wherever the program pushes a finite value the corrected iteration pushes
    the same value and leaves the filters in the same state.
   */
  lemma CorrectedAgreesOnFiniteOutputs<C, S>(dsp: Dsp<C, S>, fs: Filters<C, S>, l: Float, r: Float)
    requires SampleAsWritten(dsp, fs, l, r).1.Finite?
    ensures Sample(dsp, fs, l, r).0 == SampleAsWritten(dsp, fs, l, r).0
    ensures Sample(dsp, fs, l, r).1 == SampleAsWritten(dsp, fs, l, r).1.v
  {
    var (fs1, den) := Denominator(dsp, fs, l, r);
    if GuardAsWritten(den) {
      var (p, num) := Process(dsp, fs.product, Mul(l, r));
      assert Div(num, den).Finite?;
      assert !IsNaN(den);
    }
  }

  /** Filters that pass their input straight through, for the counterexample below. */
  function PassThrough(): Dsp<int, int>
  {
    Dsp((f, rate, order) => 0, 0, (c, h, x) => (h, x), v => v)
  }

  /**
    Finding: the guard lets NaN through. With pass-through filters, a left
    sample of +inf and a right sample of 0 give inf * 0 = NaN under the
    square root, the guard passes it, and NaN is pushed into both averagers,
    whose running totals then stay NaN for good. The corrected iteration
    pushes 0.
   */
  lemma NaNPassesGuard(fs: Filters<int, int>)
    ensures IsNaN(SampleAsWritten(PassThrough(), fs, Infinite(false), Finite(0.0)).1)
    ensures Sample(PassThrough(), fs, Infinite(false), Finite(0.0)).1 == 0.0
  {
    DenominatorIsNaN(fs);
    NaNDenominatorIsPushed(PassThrough(), fs, Infinite(false), Finite(0.0));
  }

  /** Whenever the denominator is NaN the program pushes NaN and the corrected iteration pushes 0. */
  lemma NaNDenominatorIsPushed<C, S>(dsp: Dsp<C, S>, fs: Filters<C, S>, l: Float, r: Float)
    requires IsNaN(Denominator(dsp, fs, l, r).1)
    ensures IsNaN(SampleAsWritten(dsp, fs, l, r).1)
    ensures Sample(dsp, fs, l, r).1 == 0.0
  {
  }

  /** With pass-through filters, +inf on the left and 0 on the right make the denominator NaN. */
  lemma DenominatorIsNaN(fs: Filters<int, int>)
    ensures Denominator(PassThrough(), fs, Infinite(false), Finite(0.0)).1 == NaN
  {
    var dsp := PassThrough();
    PassesThrough(fs.left, Square(Infinite(false)));
    PassesThrough(fs.right, Square(Finite(0.0)));
    InfinityTimesZero();
  }

  /** A pass-through filter outputs its input and keeps its state. */
  lemma PassesThrough(f: Filter<int, int>, x: Float)
    ensures Process(PassThrough(), f, x) == (f, x)
  {
  }

  /** One sample through the corrected iteration, its value pushed into both averagers. */
  function Step<C, S>(dsp: Dsp<C, S>, m: CorrelationMeter<C, S>, sample: (Float, Float)): (res: (CorrelationMeter<C, S>, real))
    requires Averagers.IndexInRange(m.instantaneous) && Averagers.IndexInRange(m.averaged)
    ensures Averagers.IndexInRange(res.0.instantaneous) && Averagers.IndexInRange(res.0.averaged)
    ensures res.0.instantaneous == Averagers.Add(m.instantaneous, res.1)
    ensures res.0.averaged == Averagers.Add(m.averaged, res.1)
    ensures (res.0.filters, res.1) == Sample(dsp, m.filters, sample.0, sample.1)
    ensures res.0.sampleRate == m.sampleRate && res.0.blockSize == m.blockSize
  {
    var (fs, c) := Sample(dsp, m.filters, sample.0, sample.1);
    (m.(filters := fs,
        instantaneous := Averagers.Add(m.instantaneous, c),
        averaged := Averagers.Add(m.averaged, c)), c)
  }

  /**
    The loop of `update` over a block, as a function: each sample pushes one
    value into both averagers. Defined from the last sample backwards.
   */
  function Run<C, S>(dsp: Dsp<C, S>, cm: CorrelationMeter<C, S>, block: seq<(Float, Float)>): (res: (CorrelationMeter<C, S>, seq<real>))
    requires Averagers.IndexInRange(cm.instantaneous) && Averagers.IndexInRange(cm.averaged)
    ensures Averagers.IndexInRange(res.0.instantaneous) && Averagers.IndexInRange(res.0.averaged)
    ensures |res.1| == |block|
    ensures res.0.instantaneous == Averagers.AddAll(cm.instantaneous, res.1)
    ensures res.0.averaged == Averagers.AddAll(cm.averaged, res.1)
    ensures Valid(cm) ==> Valid(res.0)
    ensures SharedCoefficients(cm.filters) ==> SharedCoefficients(res.0.filters)
    decreases |block|
  {
    if |block| == 0 then (cm, [])
    else
      var (m, pushed) := Run(dsp, cm, block[..|block| - 1]);
      var (m', c) := Step(dsp, m, block[|block| - 1]);
      assert (pushed + [c])[..|pushed|] == pushed;
      (m', pushed + [c])
  }

  /** Running one more sample is one more step. */
  lemma RunSnoc<C, S>(dsp: Dsp<C, S>, cm: CorrelationMeter<C, S>, block: seq<(Float, Float)>, i: nat)
    requires Averagers.IndexInRange(cm.instantaneous) && Averagers.IndexInRange(cm.averaged)
    requires i < |block|
    ensures var (m, pushed) := Run(dsp, cm, block[..i]);
            var (m', c) := Step(dsp, m, block[i]);
            Run(dsp, cm, block[..i + 1]) == (m', pushed + [c])
  {
    assert block[..i + 1][..i] == block[..i];
  }

  /**
    `update(buffer)`: walk the block's samples in order, as the program's
    loop does, pushing one value per sample into each averager.
   */
  method Update<C, S>(dsp: Dsp<C, S>, cm: CorrelationMeter<C, S>, block: seq<(Float, Float)>)
      returns (r: CorrelationMeter<C, S>, pushed: seq<real>)
    requires Valid(cm)
    ensures Valid(r)
    ensures |pushed| == |block|
    ensures r.instantaneous == Averagers.AddAll(cm.instantaneous, pushed)
    ensures r.averaged == Averagers.AddAll(cm.averaged, pushed)
    ensures (r, pushed) == Run(dsp, cm, block)
    ensures SharedCoefficients(cm.filters) ==> SharedCoefficients(r.filters)
  {
    r := cm;
    pushed := [];
    var i := 0;
    while i < |block|
      invariant 0 <= i <= |block|
      invariant (r, pushed) == Run(dsp, cm, block[..i])
    {
      RunSnoc(dsp, cm, block, i);
      var (m, c) := Step(dsp, r, block[i]);
      r := m;
      pushed := pushed + [c];
      i := i + 1;
    }
    assert block[..|block|] == block;
  }

  /**
    On a fresh meter, after a block the short averager reads the mean of the
    newest `blockSize` pushed values and the long one the mean of the newest
    six blocks' worth, the initial zeros counting as the oldest values.
   */
  lemma FreshMeterReadsWindowMeans<C, S>(dsp: Dsp<C, S>, sampleRate: real, blockSize: nat, block: seq<(Float, Float)>)
    requires blockSize >= 1
    ensures var (m, pushed) := Run(dsp, New(dsp, sampleRate, blockSize), block);
            && m.instantaneous.average == Sum(Last(blockSize, Fill(blockSize, 0.0) + pushed)) / blockSize as real
            && m.averaged.average
               == Sum(Last(AveragedBlocks * blockSize, Fill(AveragedBlocks * blockSize, 0.0) + pushed)) / (AveragedBlocks * blockSize) as real
  {
    var (m, pushed) := Run(dsp, New(dsp, sampleRate, blockSize), block);
    Averagers.MeanOfLastWindow(blockSize, 0.0, pushed);
    Averagers.MeanOfLastWindow(AveragedBlocks * blockSize, 0.0, pushed);
  }
}
