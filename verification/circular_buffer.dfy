/**
  The circular trace buffer behind the histograms: a fixed-size ring and a
  write index that, after every write, points at the oldest retained sample,
  so it doubles as the read index.
 */
module CircularBuffers {
  import opened Ring

  datatype CircularBuffer = CircularBuffer(buffer: seq<real>, writeIndex: int)

  /**
    `write` needs a slot to store into: the size must be at least one (with
    size 0 the `size_t` expression `getSize() - 1` wraps round) and the index
    must address a slot.
   */
  predicate Valid(b: CircularBuffer)
  {
    |b.buffer| >= 1 && 0 <= b.writeIndex < |b.buffer|
  }

  /** The retained samples, oldest first: read from `getReadIndex()` and wrap once. */
  function Chronology(b: CircularBuffer): seq<real>
    requires Valid(b)
  {
    Chronological(b.buffer, b.writeIndex)
  }

  /** The constructor `CircularBuffer(n, v)`: an empty vector resized to `n` copies of `v`. */
  function New(n: nat, v: real): (r: CircularBuffer)
    requires n >= 1
    ensures Valid(r)
    ensures r.buffer == Fill(n, v)
    ensures Chronology(r) == Fill(n, v)
  {
    var r := CircularBuffer(VectorResize([], n, v), 0);
    assert Chronology(r) == r.buffer;
    r
  }

  /** `resize(s, v)`: the vector keeps its prefix and is padded with `v`; the write index is kept. */
  function Resize(b: CircularBuffer, s: nat, v: real): (r: CircularBuffer)
    ensures |r.buffer| == s
    ensures forall k :: 0 <= k < s && k < |b.buffer| ==> r.buffer[k] == b.buffer[k]
    ensures forall k :: |b.buffer| <= k < s ==> r.buffer[k] == v
    ensures r.writeIndex == b.writeIndex
    ensures Valid(r) <==> s >= 1 && 0 <= b.writeIndex < s
  {
    CircularBuffer(VectorResize(b.buffer, s, v), b.writeIndex)
  }

  /** `clear(v)`: every slot becomes `v`; size and write index are kept. */
  function Clear(b: CircularBuffer, v: real): (r: CircularBuffer)
    ensures r.buffer == Fill(|b.buffer|, v)
    ensures r.writeIndex == b.writeIndex
    ensures Valid(b) ==> Valid(r) && Chronology(r) == Fill(|b.buffer|, v)
  {
    var r := CircularBuffer(Fill(|b.buffer|, v), b.writeIndex);
    assert Valid(b) ==> Chronology(r) == Fill(|b.buffer|, v);
    r
  }

  /** `write(t)`: store at the write index, then step it on, back to 0 past the last slot. */
  function Write(b: CircularBuffer, t: real): (r: CircularBuffer)
    requires Valid(b)
    ensures Valid(r)
    ensures |r.buffer| == |b.buffer|
    ensures r.buffer[b.writeIndex] == t
    ensures forall k :: 0 <= k < |b.buffer| && k != b.writeIndex ==> r.buffer[k] == b.buffer[k]
    ensures r.writeIndex == if b.writeIndex == |b.buffer| - 1 then 0 else b.writeIndex + 1
    ensures Chronology(r) == Chronology(b)[1..] + [t]
  {
    var idx := b.writeIndex;
    var buf := b.buffer[idx := t];
    var next := idx + 1;
    var next := if next > |buf| - 1 then 0 else next;
    assert next == (idx + 1) % |buf|;
    ChronologicalAfterStore(b.buffer, idx, t);
    CircularBuffer(buf, next)
  }

  /** `getReadIndex()`: the write index, which is where the oldest sample sits. */
  function GetReadIndex(b: CircularBuffer): (r: int)
    requires Valid(b)
    ensures 0 <= r < |b.buffer|
    ensures b.buffer[r] == Chronology(b)[0]
  {
    b.writeIndex
  }

  function GetData(b: CircularBuffer): seq<real>
  {
    b.buffer
  }

  function GetSize(b: CircularBuffer): nat
  {
    |b.buffer|
  }

  /** `write` applied to each sample of `xs` in turn. */
  function WriteAll(b: CircularBuffer, xs: seq<real>): (r: CircularBuffer)
    requires Valid(b)
    ensures Valid(r)
    ensures |r.buffer| == |b.buffer|
    decreases |xs|
  {
    if |xs| == 0 then b else Write(WriteAll(b, xs[..|xs| - 1]), xs[|xs| - 1])
  }

  /** After any run of writes the chronological view is the newest `size` samples of the history. */
  lemma {:induction false} WriteAllChronology(b: CircularBuffer, xs: seq<real>)
    requires Valid(b)
    ensures Chronology(WriteAll(b, xs)) == Last(|b.buffer|, Chronology(b) + xs)
    decreases |xs|
  {
    if |xs| == 0 {
      assert Chronology(b) + xs == Chronology(b);
    } else {
      var init := xs[..|xs| - 1];
      var t := xs[|xs| - 1];
      WriteAllChronology(b, init);
      assert Chronology(b) + xs == (Chronology(b) + init) + [t];
      LastAppend(|b.buffer|, Chronology(b) + init, t);
    }
  }

  /**
    Once at least `size` samples have been written, reading `size` slots from
    `getReadIndex()` with wrap-around yields exactly the last `size` inputs in
    order, and the read index holds the oldest of them.
   */
  lemma LastInputsInOrder(n: nat, v: real, xs: seq<real>)
    requires 1 <= n <= |xs|
    ensures Chronology(WriteAll(New(n, v), xs)) == xs[|xs| - n..]
    ensures var b := WriteAll(New(n, v), xs); b.buffer[GetReadIndex(b)] == xs[|xs| - n]
  {
    var b0 := New(n, v);
    var b := WriteAll(b0, xs);
    WriteAllChronology(b0, xs);
    LastOfLongHistory(Fill(n, v), xs, n);
    assert Chronology(b)[0] == xs[|xs| - n];
  }

  /** The newest `n` entries of a history whose tail `xs` is at least `n` long lie in `xs`. */
  lemma LastOfLongHistory(f: seq<real>, xs: seq<real>, n: nat)
    requires n <= |xs|
    ensures Last(n, f + xs) == xs[|xs| - n..]
  {
    var h := f + xs;
    assert |h| - n == |f| + (|xs| - n);
    assert h[|f| + (|xs| - n)..] == xs[|xs| - n..];
  }
}
