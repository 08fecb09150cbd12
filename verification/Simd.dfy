/** The vector instructions the quantized kernels use, lane by lane: which of
    them saturate, which wrap around, and which bits cross from byte to byte. */
module Simd {

  /** Signed bytes. */
  type i8 = x: int | -128 <= x < 128

  // ----- integer lanes -----

  function Saturate16(x: int): int { if x > 32767 then 32767 else if x < -32768 then -32768 else x }

  function Wrap8(x: int): int { (x + 128) % 256 - 128 }
  function Wrap16(x: int): int { (x + 32768) % 65536 - 32768 }
  function Wrap32(x: int): int { (x + 2147483648) % 4294967296 - 2147483648 }

  /** What two adjacent products add up to. */
  function PairDot(a: seq<int>, b: seq<int>, k: nat): int
    requires |a| == |b| && 2 * k + 1 < |a|
  {
    a[2 * k] * b[2 * k] + a[2 * k + 1] * b[2 * k + 1]
  }

  /** `maddubs`: unsigned by signed bytes, adjacent products added with
      saturation. */
  function MaddUbs(a: seq<int>, b: seq<int>): (r: seq<int>)
    requires |a| == |b| && |a| % 2 == 0
    ensures |r| == |a| / 2
  {
    seq(|a| / 2, k requires 0 <= k < |a| / 2 => Saturate16(PairDot(a, b, k)))
  }

  /** `madd`: 16-bit lanes, adjacent products added with wrap-around. */
  function Madd(a: seq<int>, b: seq<int>): (r: seq<int>)
    requires |a| == |b| && |a| % 2 == 0
    ensures |r| == |a| / 2
  {
    seq(|a| / 2, k requires 0 <= k < |a| / 2 => Wrap32(PairDot(a, b, k)))
  }

  function Add32(a: seq<int>, b: seq<int>): (r: seq<int>)
    requires |a| == |b|
    ensures |r| == |a|
  {
    seq(|a|, k requires 0 <= k < |a| => Wrap32(a[k] + b[k]))
  }

  function Sub16(a: seq<int>, b: seq<int>): (r: seq<int>)
    requires |a| == |b|
    ensures |r| == |a|
  {
    seq(|a|, k requires 0 <= k < |a| => Wrap16(a[k] - b[k]))
  }

  /** `hadd`: adjacent lanes of `a`, then of `b`, added with wrap-around. */
  function Hadd16(a: seq<int>, b: seq<int>): (r: seq<int>)
    requires |a| == 8 && |b| == 8
    ensures |r| == 8
  {
    seq(8, k requires 0 <= k < 8 =>
      if k < 4 then Wrap16(a[2 * k] + a[2 * k + 1]) else Wrap16(b[2 * (k - 4)] + b[2 * (k - 4) + 1]))
  }

  /** `sign`: the byte `x`, negated or cleared as the sign of `s` says. */
  function Sign8(x: int, s: int): int { if s < 0 then Wrap8(-x) else if s == 0 then 0 else x }

  function Sign(a: seq<int>, b: seq<int>): (r: seq<int>)
    requires |a| == |b|
    ensures |r| == |a|
  {
    seq(|a|, k requires 0 <= k < |a| => Sign8(a[k], b[k]))
  }

  /** The byte's bits read as unsigned. */
  function Unsigned(x: int): int { x % 256 }

  function UnsignedLanes(a: seq<int>): (r: seq<int>)
    ensures |r| == |a|
  {
    seq(|a|, k requires 0 <= k < |a| => Unsigned(a[k]))
  }

  function Splat(x: int, n: nat): (r: seq<int>)
    ensures |r| == n && forall k :: 0 <= k < n ==> r[k] == x
  {
    seq(n, _ => x)
  }

  // ----- byte lanes -----

  function ByteLanes(v: seq<bv8>): (r: seq<int>)
    ensures |r| == |v|
  {
    seq(|v|, k requires 0 <= k < |v| => v[k] as int)
  }

  function And(v: seq<bv8>, mask: bv8): (r: seq<bv8>)
    ensures |r| == |v|
  {
    seq(|v|, k requires 0 <= k < |v| => v[k] & mask)
  }

  function Or(a: seq<bv8>, b: seq<bv8>): (r: seq<bv8>)
    requires |a| == |b|
    ensures |r| == |a|
  {
    seq(|a|, k requires 0 <= k < |a| => a[k] | b[k])
  }

  function Join(low: bv8, high: bv8): bv16 { (low as bv16) | ((high as bv16) << 8) }
  function LowHalf(w: bv16): bv8 { (w & 0xFF) as bv8 }
  function HighHalf(w: bv16): bv8 { ((w >> 8) & 0xFF) as bv8 }

  /** The shift counts the kernels use. */
  predicate ShiftCount(n: nat) { n == 2 || n == 4 || n == 6 }

  function Right(w: bv16, n: nat): bv16
    requires ShiftCount(n)
  {
    if n == 2 then w >> 2 else if n == 4 then w >> 4 else w >> 6
  }

  function ByteRight(b: bv8, n: nat): bv8
    requires ShiftCount(n)
  {
    if n == 2 then b >> 2 else if n == 4 then b >> 4 else b >> 6
  }

  function Left4(w: bv16): bv16 { w << 4 }
  function ByteLeft4(b: bv8): bv8 { b << 4 }

  /** Half a byte. */
  function Nibble(b: bv8, high: bool): bv8 { if high then ByteRight(b, 4) & 15 else b & 15 }

  lemma NibbleBound(b: bv8, high: bool)
    ensures Nibble(b, high) < 16 && 0 <= Nibble(b, high) as int < 16
  {}

  /** A byte after its 16-bit lane is shifted right: bits of the lane's other
      byte may have moved in. */
  function ShiftedRight(v: seq<bv8>, n: nat, k: nat): bv8
    requires |v| % 2 == 0 && k < |v| && ShiftCount(n)
  {
    if k % 2 == 0 then LowHalf(Right(Join(v[k], v[k + 1]), n)) else HighHalf(Right(Join(v[k - 1], v[k]), n))
  }

  function ShiftedLeft4(v: seq<bv8>, k: nat): bv8
    requires |v| % 2 == 0 && k < |v|
  {
    if k % 2 == 0 then LowHalf(Left4(Join(v[k], v[k + 1]))) else HighHalf(Left4(Join(v[k - 1], v[k])))
  }

  /** `srli_epi16` on bytes held in 16-bit lanes. */
  function Srl16(v: seq<bv8>, n: nat): (r: seq<bv8>)
    requires |v| % 2 == 0 && ShiftCount(n)
    ensures |r| == |v|
  {
    seq(|v|, k requires 0 <= k < |v| => ShiftedRight(v, n, k))
  }

  /** `slli_epi16` by four. */
  function Sll16By4(v: seq<bv8>): (r: seq<bv8>)
    requires |v| % 2 == 0
    ensures |r| == |v|
  {
    seq(|v|, k requires 0 <= k < |v| => ShiftedLeft4(v, k))
  }

  /** A mask of at most `8 - n` bits drops every bit that moved in. */
  lemma RightMasked4(low: bv8, high: bv8)
    ensures LowHalf(Right(Join(low, high), 4)) & 15 == ByteRight(low, 4) & 15
    ensures HighHalf(Right(Join(low, high), 4)) & 15 == ByteRight(high, 4) & 15
    ensures LowHalf(Right(Join(low, high), 4)) & 3 == ByteRight(low, 4) & 3
    ensures HighHalf(Right(Join(low, high), 4)) & 3 == ByteRight(high, 4) & 3
  {}

  lemma RightMasked2(low: bv8, high: bv8)
    ensures LowHalf(Right(Join(low, high), 2)) & 3 == ByteRight(low, 2) & 3
    ensures HighHalf(Right(Join(low, high), 2)) & 3 == ByteRight(high, 2) & 3
  {}

  lemma RightMasked6(low: bv8, high: bv8)
    ensures LowHalf(Right(Join(low, high), 6)) & 3 == ByteRight(low, 6) & 3
    ensures HighHalf(Right(Join(low, high), 6)) & 3 == ByteRight(high, 6) & 3
  {}

  lemma RightMasked(low: bv8, high: bv8, n: nat)
    requires ShiftCount(n)
    ensures LowHalf(Right(Join(low, high), n)) & 3 == ByteRight(low, n) & 3
    ensures HighHalf(Right(Join(low, high), n)) & 3 == ByteRight(high, n) & 3
  {
    hide LowHalf, HighHalf, Right, ByteRight, Join;
    if n == 2 { RightMasked2(low, high); } else if n == 4 { RightMasked4(low, high); } else { RightMasked6(low, high); }
  }

  lemma LeftOfSmall(low: bv8, high: bv8)
    requires low < 16 && high < 16
    ensures LowHalf(Left4(Join(low, high))) == ByteLeft4(low) && HighHalf(Left4(Join(low, high))) == ByteLeft4(high)
  {}

  lemma NibblesShifted(v: seq<bv8>)
    requires |v| % 2 == 0
    ensures forall k :: 0 <= k < |v| ==> And(Srl16(v, 4), 15)[k] == ByteRight(v[k], 4) & 15
  {
    hide LowHalf, HighHalf, Right, ByteRight, Join;
    forall k | 0 <= k < |v| ensures And(Srl16(v, 4), 15)[k] == ByteRight(v[k], 4) & 15 {
      if k % 2 == 0 { RightMasked4(v[k], v[k + 1]); } else { RightMasked4(v[k - 1], v[k]); }
    }
  }

  lemma PairsShifted(v: seq<bv8>, n: nat)
    requires |v| % 2 == 0 && ShiftCount(n)
    ensures forall k :: 0 <= k < |v| ==> And(Srl16(v, n), 3)[k] == ByteRight(v[k], n) & 3
  {
    hide LowHalf, HighHalf, Right, ByteRight, Join;
    forall k | 0 <= k < |v| ensures And(Srl16(v, n), 3)[k] == ByteRight(v[k], n) & 3 {
      if k % 2 == 0 { RightMasked(v[k], v[k + 1], n); } else { RightMasked(v[k - 1], v[k], n); }
    }
  }

  lemma PairsRaised(v: seq<bv8>)
    requires |v| % 2 == 0 && forall k :: 0 <= k < |v| ==> v[k] < 4
    ensures forall k :: 0 <= k < |v| ==> Sll16By4(v)[k] == ByteLeft4(v[k])
  {
    hide LowHalf, HighHalf, Left4, ByteLeft4, Join;
    forall k | 0 <= k < |v| ensures Sll16By4(v)[k] == ByteLeft4(v[k]) {
      if k % 2 == 0 { LeftOfSmall(v[k], v[k + 1]); } else { LeftOfSmall(v[k - 1], v[k]); }
    }
  }
}
