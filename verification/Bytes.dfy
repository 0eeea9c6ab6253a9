/** Bytes and the little-endian integers every wire format of the program is built from. */
module Bytes {
  import Align

  type byte = x: int | 0 <= x < 256

  datatype Option<+T> = None | Some(value: T)

  /** Number of values an unsigned integer of `n` bytes can hold. */
  function Range(n: nat): (r: nat)
    ensures r >= 1
  {
    if n == 0 then 1 else 256 * Range(n - 1)
  }

  /** Little-endian encoding of `v` in `n` bytes; a value that does not fit is truncated. */
  function ToLe(v: nat, n: nat): (s: seq<byte>)
    ensures |s| == n
  {
    if n == 0 then [] else [v % 256] + ToLe(v / 256, n - 1)
  }

  function FromLe(s: seq<byte>): (v: nat)
    ensures v < Range(|s|)
  {
    if s == [] then 0 else s[0] + 256 * FromLe(s[1..])
  }

  /** Every value in range survives a store and a load. */
  lemma {:induction false} FromToLe(v: nat, n: nat)
    requires v < Range(n)
    ensures FromLe(ToLe(v, n)) == v
  {
    if n != 0 {
      FromToLe(v / 256, n - 1);
      assert ToLe(v, n)[1..] == ToLe(v / 256, n - 1);
    }
  }

  /** Byte `i` is the digit of 256 to the power `i`. */
  lemma {:induction false} ToLeByte(v: nat, n: nat, i: nat)
    requires i < n
    ensures ToLe(v, n)[i] == v / Range(i) % 256
  {
    if i > 0 {
      ToLeByte(v / 256, n - 1, i - 1);
      DivideTwice(v, Range(i - 1));
    }
  }

  lemma DivideTwice(v: nat, r: nat)
    requires r > 0
    ensures v / 256 / r == v / (256 * r)
  {
    var q := v / 256 / r;
    var a, b := v % 256, v / 256 % r;
    assert v == 256 * (v / 256) + a && v / 256 == q * r + b;
    Align.QuotientIs(v, 256 * r, q, 256 * b + a);
  }

  lemma Range16()
    ensures Range(1) == 0x100 && Range(2) == 0x1_0000
  {
    assert Range(0) == 1;
    assert Range(1) == 256 * Range(0);
  }

  lemma LowDigit(b: byte, v: nat)
    ensures (b + 256 * v) % 256 == b && (b + 256 * v) / 256 == v
  {
  }

  /** Every encoding is the encoding of the value it stands for. */
  lemma {:induction false} ToFromLe(s: seq<byte>)
    ensures ToLe(FromLe(s), |s|) == s
  {
    hide Range;
    if s != [] {
      LowDigit(s[0], FromLe(s[1..]));
      ToFromLe(s[1..]);
      assert [s[0]] + s[1..] == s;
    }
  }

  /** memcpy */
  method CopyTo(a: array<byte>, at: nat, s: seq<byte>)
    requires at + |s| <= a.Length
    modifies a
    ensures a[..at + |s|] == old(a[..at]) + s
    ensures a[at + |s|..] == old(a[at + |s|..])
  {
    var i := 0;
    while i < |s|
      invariant 0 <= i <= |s|
      invariant a[..at + i] == old(a[..at]) + s[..i]
      invariant a[at + |s|..] == old(a[at + |s|..])
    {
      a[at + i] := s[i];
      i := i + 1;
    }
  }

  lemma SliceOfSlice(s: seq<byte>, a: nat, b: nat, c: nat, d: nat)
    requires a <= b <= |s| && c <= d <= b - a
    ensures s[a..b][c..d] == s[a + c..a + d]
  {
    var x, y := s[a..b][c..d], s[a + c..a + d];
    assert forall k :: 0 <= k < d - c ==> x[k] == y[k];
  }
}
