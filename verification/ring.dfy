/**
  Ring arithmetic shared by the running averager and the circular trace buffer.

  Both keep a fixed-size `std::vector` and a write index that, after every
  store, points one past the newest sample, which is also the oldest retained
  one. `Chronological(s, i)` reads such a ring from index `i`, wrapping once;
  `Last(n, h)` is the window of the `n` newest entries of a history `h`.
 */
module Ring {

  /** Sum of the samples, folded from the front. */
  function Sum(s: seq<real>): real
  {
    if |s| == 0 then 0.0 else s[0] + Sum(s[1..])
  }

  /** `n` copies of `v`: what `std::vector::assign(n, v)` leaves behind. */
  function Fill(n: nat, v: real): (r: seq<real>)
    ensures |r| == n
    ensures forall k :: 0 <= k < n ==> r[k] == v
  {
    seq(n, _ => v)
  }

  /** `std::vector::resize(n, v)`: keeps the prefix that still fits and pads with `v`. */
  function VectorResize(s: seq<real>, n: nat, v: real): (r: seq<real>)
    ensures |r| == n
    ensures forall k :: 0 <= k < n && k < |s| ==> r[k] == s[k]
    ensures forall k :: |s| <= k < n ==> r[k] == v
  {
    if n <= |s| then s[..n] else s + Fill(n - |s|, v)
  }

  /** The ring read from index `i` to the end and then from the start up to `i`. */
  function Chronological(s: seq<real>, i: int): (r: seq<real>)
    requires 0 <= i <= |s|
  {
    s[i..] + s[..i]
  }

  /** The `n` newest entries of the history `h`, oldest first. */
  function Last(n: nat, h: seq<real>): (r: seq<real>)
    requires n <= |h|
  {
    h[|h| - n..]
  }

  lemma {:induction false} SumConcat(a: seq<real>, b: seq<real>)
    ensures Sum(a + b) == Sum(a) + Sum(b)
  {
    if |a| == 0 {
      assert a + b == b;
    } else {
      assert (a + b)[1..] == a[1..] + b;
      SumConcat(a[1..], b);
    }
  }

  /** A ring filled with `v` sums to `n * v`. */
  lemma {:induction false} SumFill(n: nat, v: real)
    ensures Sum(Fill(n, v)) == n as real * v
  {
    if n > 0 {
      assert Fill(n, v)[1..] == Fill(n - 1, v);
      SumFill(n - 1, v);
    }
  }

  /** Overwriting slot `i` changes the sum by exactly the difference of the two values. */
  lemma SumUpdate(s: seq<real>, i: int, t: real)
    requires 0 <= i < |s|
    ensures Sum(s[i := t]) == Sum(s) - s[i] + t
  {
    assert s == s[..i] + [s[i]] + s[i + 1..];
    assert s[i := t] == s[..i] + [t] + s[i + 1..];
    SumConcat(s[..i] + [s[i]], s[i + 1..]);
    SumConcat(s[..i], [s[i]]);
    SumConcat(s[..i] + [t], s[i + 1..]);
    SumConcat(s[..i], [t]);
  }

  /** Reading a ring in chronological order does not change its sum. */
  lemma SumChronological(s: seq<real>, i: int)
    requires 0 <= i <= |s|
    ensures Sum(Chronological(s, i)) == Sum(s)
  {
    assert s == s[..i] + s[i..];
    SumConcat(s[i..], s[..i]);
    SumConcat(s[..i], s[i..]);
  }

  /**
    Storing `t` at the write index `i` and advancing the index by one modulo the
    size drops the oldest entry of the chronological view and appends `t`.
   */
  lemma ChronologicalAfterStore(s: seq<real>, i: int, t: real)
    requires 0 <= i < |s|
    ensures Chronological(s[i := t], (i + 1) % |s|) == Chronological(s, i)[1..] + [t]
  {
    var s' := s[i := t];
    if i + 1 < |s| {
      assert (i + 1) % |s| == i + 1;
      assert s'[i + 1..] == s[i + 1..];
      assert s'[..i + 1] == s[..i] + [t];
      assert Chronological(s, i)[1..] == s[i + 1..] + s[..i];
    } else {
      assert (i + 1) % |s| == 0;
      assert s'[0..] == s[..i] + [t];
      assert s'[..0] == [];
      assert Chronological(s, i)[1..] == s[..i];
    }
  }

  /** Appending to a long enough history slides its window by one. */
  lemma LastAppend(n: nat, h: seq<real>, t: real)
    requires 1 <= n <= |h|
    ensures Last(n, h + [t]) == Last(n, h)[1..] + [t]
  {
    assert (h + [t])[|h| + 1 - n..] == h[|h| - n + 1..] + [t];
  }
}
