/**
  The scrolling histogram: every update writes the mean of the left and
  right levels into a 776-slot circular buffer, and `paint` walks the ring
  from a start index to draw one point per sample. Rows view starts at the
  oldest sample; columns view starts half a ring later.
 */
module Histograms {
  import opened Ring
  import opened CircularBuffers
  import opened ValueHolderBase

  /** Number of samples the trace keeps. */
  const TraceLength: nat := 776

  datatype HistView = Rows | Columns

  /** `threshold` stands for the `juce::Value`, which reads as 0 until set. */
  datatype Histogram = Histogram(ring: CircularBuffer, threshold: real, view: HistView)

  predicate Valid(h: Histogram)
  {
    CircularBuffers.Valid(h.ring)
  }

  /**
    A fresh histogram: 776 slots at -48 dB. The program leaves `view`
    uninitialised until `setView`, so it is a parameter here.
   */
  function New(view: HistView): (r: Histogram)
    ensures Valid(r)
    ensures GetSize(r.ring) == TraceLength
    ensures Chronology(r.ring) == Fill(TraceLength, NegativeInfinity)
    ensures r.view == view && r.threshold == 0.0
  {
    Histogram(CircularBuffers.New(TraceLength, NegativeInfinity), 0.0, view)
  }

  /** `update(L, R)`: one write, of the mean of the two inputs. */
  function Update(h: Histogram, inputL: real, inputR: real): (r: Histogram)
    requires Valid(h)
    ensures Valid(r)
    ensures Chronology(r.ring) == Chronology(h.ring)[1..] + [(inputL + inputR) / 2.0]
    ensures r.ring == Write(h.ring, (inputL + inputR) / 2.0)
    ensures r.threshold == h.threshold && r.view == h.view
  {
    h.(ring := Write(h.ring, (inputL + inputR) / 2.0))
  }

  function SetThreshold(h: Histogram, thresh: real): (r: Histogram)
    ensures r == h.(threshold := thresh)
  {
    h.(threshold := thresh)
  }

  function SetView(h: Histogram, v: HistView): (r: Histogram)
    ensures r == h.(view := v)
  {
    h.(view := v)
  }

  /** Where `paint` starts the walk: the read index, moved on by half the ring in columns view. */
  function StartIndex(h: Histogram): (r: int)
    requires Valid(h)
    ensures 0 <= r < GetSize(h.ring)
    ensures h.view == Rows ==> r == GetReadIndex(h.ring)
    ensures h.view == Columns ==> r == (GetReadIndex(h.ring) + GetSize(h.ring) / 2) % GetSize(h.ring)
  {
    var readIdx := GetReadIndex(h.ring);
    var size := GetSize(h.ring);
    if h.view == Columns then (readIdx + size / 2) % size else readIdx
  }

  /** The indices `lo, lo + 1, ..., hi - 1`; empty when `lo >= hi`. */
  function Range(lo: int, hi: int): (r: seq<int>)
    ensures |r| == if lo <= hi then hi - lo else 0
    ensures forall k :: 0 <= k < |r| ==> r[k] == lo + k
    decreases hi - lo
  {
    if lo >= hi then [] else [lo] + Range(lo + 1, hi)
  }

  /** No index occurs twice. */
  predicate Distinct(s: seq<int>)
  {
    forall j, k :: 0 <= j < k < |s| ==> s[j] != s[k]
  }

  /**
    The two loops of `paint` as the program writes them: from the start up to
    `size - 2`, then from 0 up to just before the start. The first loop stops
    one short of the end of the ring.
   */
  function WalkAsWritten(start: int, size: int): (r: seq<int>)
    requires 0 <= start < size
    ensures |r| == size - 1
    ensures forall k :: 0 <= k < size - 1 - start ==> r[k] == start + k
    ensures forall k :: size - 1 - start <= k < size - 1 ==> r[k] == k - (size - 1 - start)
    ensures Distinct(r)
    ensures forall k :: 0 <= k < |r| ==> 0 <= r[k] < size - 1
  {
    Range(start, size - 1) + Range(0, start)
  }

  /** `x` reduced once modulo `n`: the index `x` names on a ring of `n` slots when `0 <= x < 2n`. */
  function Wrap(x: int, n: int): int
  {
    if x < n then x else x - n
  }

  /** On `[0, 2n)` the reduction is the remainder. */
  lemma ModAsWrap(x: int, n: int)
    requires 0 <= x < 2 * n
    ensures x % n == Wrap(x, n)
  {
    if x >= n {
      assert x == n * 1 + (x - n);
    }
  }

  /** The walk `paint` evidently intends: every slot once, from the start round to just before it. */
  function Walk(start: int, size: int): (r: seq<int>)
    requires 0 <= start < size
    ensures |r| == size
    ensures forall k :: 0 <= k < size ==> r[k] == Wrap(start + k, size)
    ensures Distinct(r)
    ensures forall i :: 0 <= i < size ==> i in r
  {
    var r := Range(start, size) + Range(0, start);
    assert forall i :: 0 <= i < size ==> i in r by {
      forall i | 0 <= i < size
        ensures i in r
      {
        if i >= start {
          assert r[i - start] == i;
        } else {
          assert r[size - start + i] == i;
        }
      }
    }
    r
  }

  /**
    Finding: whatever the start, the walk as written never reaches the last
    slot, so the sample stored there is never drawn, and the trace has one
    point fewer than the ring has samples.
   */
  lemma WalkSkipsLastSlot(start: int, size: int)
    requires 0 <= start < size
    ensures size - 1 !in WalkAsWritten(start, size)
    ensures size - 1 in Walk(start, size)
    ensures |WalkAsWritten(start, size)| < |Walk(start, size)|
  {
  }

  /** A fresh histogram in rows view draws 775 of its 776 samples; slot 775 holds the newest sample. */
  lemma NewestSampleNotDrawn(xs: seq<real>)
    requires |xs| == TraceLength
    ensures var h := New(Rows);
            var b := WriteAll(h.ring, xs);
            && GetReadIndex(b) == 0
            && b.buffer[TraceLength - 1] == xs[TraceLength - 1]
            && TraceLength - 1 !in WalkAsWritten(GetReadIndex(b), TraceLength)
  {
    var h := New(Rows);
    var b := WriteAll(h.ring, xs);
    LastInputsInOrder(TraceLength, NegativeInfinity, xs);
    WalkSkipsLastSlot(GetReadIndex(b), TraceLength);
    assert Chronology(b) == xs;
    assert Chronology(b)[0] == b.buffer[GetReadIndex(b)] == xs[0];
    ReadIndexAfterFullLap(xs);
  }

  /** After exactly one lap of writes from a fresh ring the index is back at 0. */
  lemma ReadIndexAfterFullLap(xs: seq<real>)
    requires |xs| == TraceLength
    ensures WriteAll(New(Rows).ring, xs).writeIndex == 0
  {
    var b0 := New(Rows).ring;
    var init := xs[..|xs| - 1];
    WriteAllIndex(b0, init);
    assert WriteAll(b0, xs) == Write(WriteAll(b0, init), xs[|xs| - 1]);
  }

  /** While no wrap-around happens, each write moves the index on by one. */
  lemma {:induction false} WriteAllIndex(b: CircularBuffer, xs: seq<real>)
    requires CircularBuffers.Valid(b)
    requires b.writeIndex + |xs| < |b.buffer|
    ensures WriteAll(b, xs).writeIndex == b.writeIndex + |xs|
    decreases |xs|
  {
    if |xs| > 0 {
      WriteAllIndex(b, xs[..|xs| - 1]);
      assert WriteAll(b, xs) == Write(WriteAll(b, xs[..|xs| - 1]), xs[|xs| - 1]);
    }
  }

  /** One drawn point: its pixel column and the sample value, in dB. */
  datatype Point = Point(x: int, db: real)

  /** The values read along a walk. */
  function Trace(data: seq<real>, walk: seq<int>): (r: seq<real>)
    requires forall k :: 0 <= k < |walk| ==> 0 <= walk[k] < |data|
    ensures |r| == |walk|
    ensures forall k :: 0 <= k < |r| ==> r[k] == data[walk[k]]
  {
    seq(|walk|, k requires 0 <= k < |walk| => data[walk[k]])
  }

  /** Reading the data along the corrected walk rotates it to start at `start`. */
  lemma TraceOfWalkIsRotation(data: seq<real>, start: int)
    requires 0 <= start < |data|
    ensures Trace(data, Walk(start, |data|)) == Chronological(data, start)
  {
    var w := Walk(start, |data|);
    var t := Trace(data, w);
    var c := Chronological(data, start);
    forall k | 0 <= k < |data|
      ensures t[k] == c[k]
    {
      RotationIndex(data, start, k);
    }
  }

  /**
    The points `paint` draws, on the corrected walk: x runs 1, 2, 3, ... and
    in rows view the values are the samples oldest first.
   */
  function Points(h: Histogram): (r: seq<Point>)
    requires Valid(h)
    ensures |r| == GetSize(h.ring)
    ensures forall k :: 0 <= k < |r| ==> r[k].x == k + 1
    ensures h.view == Rows ==> forall k :: 0 <= k < |r| ==> r[k].db == Chronology(h.ring)[k]
    ensures h.view == Columns ==> forall k :: 0 <= k < |r| ==>
              r[k].db == Chronological(Chronology(h.ring), GetSize(h.ring) / 2)[k]
  {
    var size := GetSize(h.ring);
    var start := StartIndex(h);
    var t := Trace(GetData(h.ring), Walk(start, size));
    TraceOfWalkIsRotation(GetData(h.ring), start);
    ColumnsRotation(h.ring.buffer, h.ring.writeIndex);
    seq(size, k requires 0 <= k < size => Point(k + 1, t[k]))
  }

  /** Starting half a ring past the read index shows the chronological view rotated by half a ring. */
  lemma ColumnsRotation(s: seq<real>, i: int)
    requires 0 <= i < |s|
    ensures Chronological(s, (i + |s| / 2) % |s|) == Chronological(Chronological(s, i), |s| / 2)
  {
    var n := |s|;
    var h := n / 2;
    ModAsWrap(i + h, n);
    var j := Wrap(i + h, n);
    var c := Chronological(s, i);
    var lhs := Chronological(s, j);
    var rhs := Chronological(c, h);
    forall k | 0 <= k < n
      ensures lhs[k] == rhs[k]
    {
      RotationIndex(s, j, k);
      RotationIndex(c, h, k);
      RotationIndex(s, i, Wrap(h + k, n));
    }
  }

  /** Entry `k` of a rotation is entry `Wrap(i + k, n)` of the original. */
  lemma RotationIndex(s: seq<real>, i: int, k: int)
    requires 0 <= i < |s| && 0 <= k < |s|
    ensures Chronological(s, i)[k] == s[Wrap(i + k, |s|)]
  {
  }
}
