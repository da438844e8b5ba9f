/** Exclusive or of integers, and of buffers read as integers in either byte order. */
module Raid5Xor {
  import opened Common

  // ---------- integers ----------

  function Xor(a: nat, b: nat): nat {
    if a == 0 && b == 0 then 0
    else (if a % 2 != b % 2 then 1 else 0) + 2 * Xor(a / 2, b / 2)
  }

  lemma {:induction false} XorCommutes(a: nat, b: nat)
    ensures Xor(a, b) == Xor(b, a)
  {
    if a != 0 || b != 0 {
      XorCommutes(a / 2, b / 2);
    }
  }

  lemma {:induction false} XorZero(a: nat)
    ensures Xor(a, 0) == a
  {
    if a != 0 {
      XorZero(a / 2);
    }
  }

  lemma {:induction false} XorSelf(a: nat)
    ensures Xor(a, a) == 0
  {
    if a != 0 {
      XorSelf(a / 2);
    }
  }

  lemma {:induction false} XorAssociates(a: nat, b: nat, c: nat)
    ensures Xor(Xor(a, b), c) == Xor(a, Xor(b, c))
  {
    if a != 0 || b != 0 || c != 0 {
      XorAssociates(a / 2, b / 2, c / 2);
      XorHalves(a, b);
      XorHalves(b, c);
      XorHalves(Xor(a, b), c);
      XorHalves(a, Xor(b, c));
    }
  }

  lemma XorHalves(a: nat, b: nat)
    ensures Xor(a, b) / 2 == Xor(a / 2, b / 2)
    ensures Xor(a, b) % 2 == if a % 2 != b % 2 then 1 else 0
  {
  }

  function Shift(bits: nat, x: nat): nat {
    if bits == 0 then x else 2 * Shift(bits - 1, x)
  }

  lemma ShiftByte(x: nat)
    ensures Shift(8, x) == 256 * x
  {
    assert Shift(1, x) == 2 * Shift(0, x);
    assert Shift(2, x) == 2 * Shift(1, x);
    assert Shift(4, x) == 4 * Shift(2, x);
    assert Shift(6, x) == 4 * Shift(4, x);
  }

  lemma ShiftHalves(bits: nat, hi: nat, lo: nat)
    requires bits > 0
    ensures (Shift(bits, hi) + lo) / 2 == Shift(bits - 1, hi) + lo / 2 && (Shift(bits, hi) + lo) % 2 == lo % 2
  {
  }

  /** The low bits and the high bits are combined independently. */
  lemma {:induction false} XorSplits(bits: nat, hi: nat, lo: nat, hi': nat, lo': nat)
    requires lo < Shift(bits, 1) && lo' < Shift(bits, 1)
    ensures Xor(Shift(bits, hi) + lo, Shift(bits, hi') + lo') == Shift(bits, Xor(hi, hi')) + Xor(lo, lo')
    ensures Xor(lo, lo') < Shift(bits, 1)
  {
    if bits > 0 {
      ShiftHalves(bits, hi, lo);
      ShiftHalves(bits, hi', lo');
      XorSplits(bits - 1, hi, lo / 2, hi', lo' / 2);
      XorHalves(Shift(bits, hi) + lo, Shift(bits, hi') + lo');
      XorHalves(lo, lo');
    }
  }

  // ---------- buffers ----------

  datatype ByteOrder = Little | Big

  function Reverse(b: Bytes): (r: Bytes)
    ensures |r| == |b| && forall i :: 0 <= i < |b| ==> r[i] == b[|b| - 1 - i]
  {
    if b == [] then [] else Reverse(b[1..]) + [b[0]]
  }

  function FromLittle(b: Bytes): nat {
    if b == [] then 0 else b[0] as nat + 256 * FromLittle(b[1..])
  }

  function FromBytes(order: ByteOrder, b: Bytes): nat {
    if order == Little then FromLittle(b) else FromLittle(Reverse(b))
  }

  /** None when the number does not fit. */
  function ToLittle(x: nat, n: nat): (r: Option<Bytes>)
    ensures r.Some? ==> |r.value| == n
  {
    if n == 0 then (if x == 0 then Some([]) else None)
    else match ToLittle(x / 256, n - 1)
      case None => None
      case Some(rest) => Some([(x % 256) as Byte] + rest)
  }

  function ToBytes(order: ByteOrder, x: nat, n: nat): Option<Bytes> {
    match ToLittle(x, n)
    case None => None
    case Some(b) => Some(if order == Little then b else Reverse(b))
  }

  lemma {:induction false} FromThenToLittle(b: Bytes)
    ensures ToLittle(FromLittle(b), |b|) == Some(b)
  {
    if b != [] {
      FromThenToLittle(b[1..]);
      assert FromLittle(b) / 256 == FromLittle(b[1..]);
      assert FromLittle(b) % 256 == b[0] as nat;
      assert b == [b[0]] + b[1..];
    }
  }

  lemma ReverseTwice(b: Bytes)
    ensures Reverse(Reverse(b)) == b
  {
  }

  lemma FromThenToBytes(order: ByteOrder, b: Bytes)
    ensures ToBytes(order, FromBytes(order, b), |b|) == Some(b)
  {
    FromThenToLittle(if order == Little then b else Reverse(b));
    ReverseTwice(b);
  }

  function XorByte(a: Byte, b: Byte): Byte {
    ShiftByte(1);
    XorSplits(8, 0, a as nat, 0, b as nat);
    Xor(a as nat, b as nat) as Byte
  }

  /** Exclusive or of two buffers, byte by byte. */
  function XorPair(a: Bytes, b: Bytes): (r: Bytes)
    requires |a| == |b|
    ensures |r| == |a| && forall i :: 0 <= i < |a| ==> r[i] == XorByte(a[i], b[i])
  {
    seq(|a|, i requires 0 <= i < |a| => XorByte(a[i], b[i]))
  }

  lemma {:induction false} XorOfLittle(a: Bytes, b: Bytes)
    requires |a| == |b|
    ensures Xor(FromLittle(a), FromLittle(b)) == FromLittle(XorPair(a, b))
  {
    if a != [] {
      XorOfLittle(a[1..], b[1..]);
      assert XorPair(a, b)[1..] == XorPair(a[1..], b[1..]);
      ShiftByte(1);
      ShiftByte(FromLittle(a[1..]));
      ShiftByte(FromLittle(b[1..]));
      ShiftByte(FromLittle(XorPair(a[1..], b[1..])));
      XorSplits(8, FromLittle(a[1..]), a[0] as nat, FromLittle(b[1..]), b[0] as nat);
    }
  }

  /** The exclusive or of the integers is that of the buffers, byte by byte, in either byte order. */
  lemma XorOfBytes(order: ByteOrder, a: Bytes, b: Bytes)
    requires |a| == |b|
    ensures Xor(FromBytes(order, a), FromBytes(order, b)) == FromBytes(order, XorPair(a, b))
  {
    if order == Little {
      XorOfLittle(a, b);
    } else {
      XorOfLittle(Reverse(a), Reverse(b));
      assert XorPair(Reverse(a), Reverse(b)) == Reverse(XorPair(a, b));
    }
  }

  // ---------- many buffers ----------

  ghost predicate SameLength(buffers: seq<Bytes>, n: nat) {
    forall i :: 0 <= i < |buffers| ==> |buffers[i]| == n
  }

  function Zeros(n: nat): (r: Bytes)
    ensures |r| == n && forall i :: 0 <= i < n ==> r[i] == 0
  {
    seq(n, _ => 0)
  }

  /** The exclusive or of all the buffers, all of length `n`. */
  function XorAll(buffers: seq<Bytes>, n: nat): (r: Bytes)
    requires SameLength(buffers, n)
    ensures |r| == n
  {
    if buffers == [] then Zeros(n) else XorPair(XorAll(buffers[..|buffers| - 1], n), buffers[|buffers| - 1])
  }

  lemma PairCommutes(a: Bytes, b: Bytes)
    requires |a| == |b|
    ensures XorPair(a, b) == XorPair(b, a)
  {
    forall i | 0 <= i < |a| ensures XorByte(a[i], b[i]) == XorByte(b[i], a[i]) {
      XorCommutes(a[i] as nat, b[i] as nat);
    }
  }

  lemma PairAssociates(a: Bytes, b: Bytes, c: Bytes)
    requires |a| == |b| == |c|
    ensures XorPair(XorPair(a, b), c) == XorPair(a, XorPair(b, c))
  {
    forall i | 0 <= i < |a| ensures XorByte(XorByte(a[i], b[i]), c[i]) == XorByte(a[i], XorByte(b[i], c[i])) {
      XorAssociates(a[i] as nat, b[i] as nat, c[i] as nat);
    }
  }

  lemma PairSelf(a: Bytes)
    ensures XorPair(a, a) == Zeros(|a|)
  {
    forall i | 0 <= i < |a| ensures XorByte(a[i], a[i]) == 0 {
      XorSelf(a[i] as nat);
    }
  }

  lemma PairZero(a: Bytes)
    ensures XorPair(a, Zeros(|a|)) == a && XorPair(Zeros(|a|), a) == a
  {
    forall i | 0 <= i < |a| ensures XorByte(a[i], 0) == a[i] && XorByte(0, a[i]) == a[i] {
      XorZero(a[i] as nat);
      XorCommutes(a[i] as nat, 0);
    }
  }

  lemma {:induction false} XorAllAppend(a: seq<Bytes>, b: seq<Bytes>, n: nat)
    requires SameLength(a, n) && SameLength(b, n)
    ensures XorAll(a + b, n) == XorPair(XorAll(a, n), XorAll(b, n))
    decreases |b|
  {
    if b == [] {
      assert a + b == a;
      PairZero(XorAll(a, n));
    } else {
      var init, last := b[..|b| - 1], b[|b| - 1];
      assert (a + b)[..|a + b| - 1] == a + init;
      XorAllAppend(a, init, n);
      PairAssociates(XorAll(a, n), XorAll(init, n), last);
    }
  }

  /** Any one buffer is the exclusive or of the others and of the parity. */
  lemma MissingBuffer(before: seq<Bytes>, missing: Bytes, after: seq<Bytes>, n: nat)
    requires SameLength(before, n) && |missing| == n && SameLength(after, n)
    ensures XorAll(before + after + [XorAll(before + [missing] + after, n)], n) == missing
  {
    var a, b := XorAll(before, n), XorAll(after, n);
    var parity := XorAll(before + [missing] + after, n);
    XorAllAppend(before + [missing], after, n);
    assert (before + [missing])[..|before|] == before;
    assert parity == XorPair(XorPair(a, missing), b);
    XorAllAppend(before, after, n);
    var others := before + after;
    assert (others + [parity])[..|others|] == others;
    assert XorAll(others + [parity], n) == XorPair(XorPair(a, b), parity);
    PairCommutes(a, missing);
    PairAssociates(missing, a, b);
    assert parity == XorPair(missing, XorPair(a, b));
    PairCommutes(XorPair(a, b), parity);
    PairAssociates(missing, XorPair(a, b), XorPair(a, b));
    PairSelf(XorPair(a, b));
    PairZero(missing);
  }

  /** The accumulating loop over integers computes the bytewise exclusive or, and its result always fits. */
  method XorBuffers(order: ByteOrder, buffers: seq<Bytes>) returns (r: Bytes)
    requires buffers != [] && SameLength(buffers, |buffers[0]|)
    ensures r == XorAll(buffers, |buffers[0]|)
  {
    var n := |buffers[0]|;
    var xored := FromBytes(order, buffers[0]);
    assert buffers[..1] == [buffers[0]];
    assert XorAll([buffers[0]], n) == XorPair(XorAll([], n), buffers[0]) by {
      assert [buffers[0]][..0] == [];
    }
    PairZero(buffers[0]);
    for i := 1 to |buffers|
      invariant xored == FromBytes(order, XorAll(buffers[..i], n))
    {
      assert buffers[..i + 1][..i] == buffers[..i];
      XorOfBytes(order, XorAll(buffers[..i], n), buffers[i]);
      xored := Xor(xored, FromBytes(order, buffers[i]));
    }
    assert buffers[..|buffers|] == buffers;
    FromThenToBytes(order, XorAll(buffers, n));
    r := ToBytes(order, xored, n).value;
  }
}
