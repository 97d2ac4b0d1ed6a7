/** Kcp::send cuts what it hands to the C library so that it never needs more than 127 fragments. */
module Fragments {
  import opened Prelude

  const IKCP_WND_RCV := 128

  /** Division rounded up, as the source writes it. */
  function Ceil(a: nat, b: nat): nat
    requires b > 0
  {
    (a + b - 1) / b
  }

  /** Ceil is the one c with b * (c - 1) < a <= b * c. */
  lemma CeilIs(a: nat, b: nat, c: int)
    requires b > 0
    ensures c == Ceil(a, b) <==> b * (c - 1) < a <= b * c
  {
    var q := Ceil(a, b);
    assert b * q <= a + b - 1 < b * q + b;
    if b * (c - 1) < a <= b * c {
      if c < q { MulMonotone(b, c, q - 1); }
      if q < c { MulMonotone(b, q, c - 1); }
    }
  }

  lemma MulMonotone(b: nat, x: int, y: int)
    requires x <= y
    ensures b * x <= b * y
  {
  }

  /** The length of the slice that send hands on; every subtraction is one of usize and must not underflow. */
  function KeptLength(len: nat, mss: nat): nat
    requires mss > 0
  {
    if len > mss then
      var count := (len + mss - 1) / mss;
      if count >= IKCP_WND_RCV then
        NoUnderflow(len, mss, count);
        var most: nat := len - mss * (count - IKCP_WND_RCV);
        var size: nat := most - mss;
        size
      else len
    else len
  }

  lemma NoUnderflow(len: nat, mss: nat, count: nat)
    requires mss > 0 && count == Ceil(len, mss) && count >= IKCP_WND_RCV
    ensures mss * (count - IKCP_WND_RCV) <= len
    ensures mss <= len - mss * (count - IKCP_WND_RCV)
  {
  }

  /** For every length: the slice has at most 127 fragments, is uncut exactly if the data has no more,
      is nonempty if the data is, and otherwise loses a whole number of fragments. */
  lemma KeptLengthIs(len: nat, mss: nat)
    requires mss > 0
    ensures var kept := KeptLength(len, mss);
            && kept <= len
            && Ceil(kept, mss) == (if Ceil(len, mss) <= 127 then Ceil(len, mss) else 127)
            && (kept == len <==> Ceil(len, mss) <= 127)
            && (len > 0 ==> kept > 0)
            && len - kept == mss * (if Ceil(len, mss) <= 127 then 0 else Ceil(len, mss) - 127)
            && kept % mss == len % mss
  {
    var count, kept := Ceil(len, mss), KeptLength(len, mss);
    CeilIs(len, mss, count);
    if len <= mss {
      CeilIs(len, mss, if len == 0 then 0 else 1);
    } else if count >= IKCP_WND_RCV {
      NoUnderflow(len, mss, count);
      assert mss * (count - IKCP_WND_RCV) + mss == mss * (count - 127);
      assert mss * (count - 1) == mss * 126 + mss * (count - 127);
      assert mss * count == mss * 127 + mss * (count - 127);
      CeilIs(kept, mss, 127);
      AddMultiple(kept, mss, count - 127);
      MulMonotone(mss, 1, count - 127);
    }
  }

  lemma AddMultiple(a: nat, m: nat, k: nat)
    requires m > 0
    ensures (a + m * k) % m == a % m
  {
    var q := a / m;
    assert a + m * k == m * (q + k) + a % m by {
      assert m * (q + k) == m * q + m * k;
    }
    DivisionIsUnique(a + m * k, m, q + k, a % m);
  }

  lemma DivisionIsUnique(a: nat, m: nat, q: int, r: nat)
    requires m > 0 && a == m * q + r && r < m
    ensures a % m == r
  {
    var q' := a / m;
    if q' < q { MulMonotone(m, q' + 1, q); }
    if q < q' { MulMonotone(m, q + 1, q'); }
  }

  /** The slices the C library gets when a caller sends data and then, again and again, what was not accepted. */
  function Slices<T>(data: seq<T>, mss: nat): (r: seq<seq<T>>)
    requires mss > 0
    decreases |data|
  {
    if data == [] then [] else
      KeptLengthIs(|data|, mss);
      var n := KeptLength(|data|, mss);
      [data[..n]] + Slices(data[n..], mss)
  }

  function Concat<T>(slices: seq<seq<T>>): seq<T> {
    if slices == [] then [] else slices[0] + Concat(slices[1..])
  }

  /** Resending delivers every byte once and in order, in ceil(ceil(len / mss) / 127) calls. */
  lemma {:induction false} SlicesDeliver<T>(data: seq<T>, mss: nat)
    requires mss > 0
    ensures Concat(Slices(data, mss)) == data
    ensures |Slices(data, mss)| == Ceil(Ceil(|data|, mss), 127)
    ensures forall slice :: slice in Slices(data, mss) ==> 0 < Ceil(|slice|, mss) <= 127
    decreases |data|
  {
    if data != [] {
      KeptLengthIs(|data|, mss);
      var n, count := KeptLength(|data|, mss), Ceil(|data|, mss);
      var rest := data[n..];
      SlicesDeliver(rest, mss);
      assert data == data[..n] + rest;
      CeilIs(|data|, mss, count);
      CeilIs(n, mss, Ceil(n, mss));
      if count <= 127 {
        assert rest == [];
      } else {
        CeilIs(|rest|, mss, count - 127);
        MulMonotone(mss, count - 128, count - 127);
      }
    }
  }

  lemma {:induction false} AtMost<T>(slices: seq<seq<T>>, most: nat)
    requires forall slice :: slice in slices ==> |slice| <= most
    ensures |Concat(slices)| <= most * |slices|
    decreases |slices|
  {
    if slices != [] {
      AtMost(slices[1..], most);
      assert most * |slices| == most + most * |slices[1..]|;
    }
  }

  lemma FewFragments(len: nat, mss: nat)
    requires mss > 0 && Ceil(len, mss) <= 127
    ensures len <= mss * 127
  {
  }

  lemma FewestArithmetic(len: nat, mss: nat, calls: nat)
    requires mss > 0 && len <= mss * 127 * calls
    ensures Ceil(Ceil(len, mss), 127) <= calls
  {
    var count := Ceil(len, mss);
    CeilIs(len, mss, count);
    assert mss * 127 * calls == mss * (127 * calls);
    if 127 * calls < count {
      MulMonotone(mss, 127 * calls, count - 1);
    }
  }

  /** No other way of cutting data into sends of at most 127 fragments takes fewer calls. */
  lemma SlicesAreFewest<T>(data: seq<T>, mss: nat, other: seq<seq<T>>)
    requires mss > 0 && Concat(other) == data
    requires forall slice :: slice in other ==> Ceil(|slice|, mss) <= 127
    ensures |Slices(data, mss)| <= |other|
  {
    SlicesDeliver(data, mss);
    forall slice | slice in other
      ensures |slice| <= mss * 127
    {
      FewFragments(|slice|, mss);
    }
    AtMost(other, mss * 127);
    FewestArithmetic(|data|, mss, |other|);
  }

  /** The control block as send sees it: the slices it was handed. */
  class Kcp<T> {
    var handed: seq<seq<T>>

    constructor ()
      ensures handed == []
    {
      handed := [];
    }

    /** error is the negative answer of ikcp_send, if it gives one; else it accepts the whole slice. */
    method Send(pkt: seq<T>, mss: nat, error: Option<int>) returns (r: Io<nat>)
      requires mss > 0 && (error.Some? ==> error.value < 0)
      modifies this
      ensures 0 <= KeptLength(|pkt|, mss) <= |pkt|
      ensures error.Some? ==> handed == old(handed) && r == Failed(error.value)
      ensures error.None? ==> r == Ok(KeptLength(|pkt|, mss)) && handed == old(handed) + [pkt[..KeptLength(|pkt|, mss)]]
    {
      KeptLengthIs(|pkt|, mss);
      var data := pkt;
      if |data| > mss {
        var count := (|data| + mss - 1) / mss;
        if count >= IKCP_WND_RCV {
          var size := |data| - (mss * (count - IKCP_WND_RCV)) - mss;
          data := data[..size];
        }
      }
      if error.Some? {
        return Failed(error.value);
      }
      assert data == pkt[..KeptLength(|pkt|, mss)];
      handed := handed + [data];
      r := Ok(|data|);
    }
  }
}
