/** Bytes, machine words and bitwise exclusive or, over natural numbers. */
module Bytes {

  type byte = b: nat | b < 256

  /** Order in which a host lays out the bytes of a word in memory. */
  datatype ByteOrder = Little | Big

  function Pow2(k: nat): (p: nat)
    ensures p > 0
  {
    if k == 0 then 1 else 2 * Pow2(k - 1)
  }

  lemma {:induction false} Pow2Sum(j: nat, k: nat)
    ensures Pow2(j + k) == Pow2(j) * Pow2(k)
  {
    if j > 0 {
      Pow2Sum(j - 1, k);
    }
  }

  /** Bitwise exclusive or. */
  function Xor(a: nat, b: nat): nat
    decreases a + b
  {
    if a == 0 && b == 0 then 0
    else 2 * Xor(a / 2, b / 2) + (if a % 2 == b % 2 then 0 else 1)
  }

  lemma {:induction false} XorBelow(a: nat, b: nat, k: nat)
    requires a < Pow2(k) && b < Pow2(k)
    ensures Xor(a, b) < Pow2(k)
  {
    if k > 0 {
      XorBelow(a / 2, b / 2, k - 1);
    }
  }

  lemma {:induction false} XorCancels(a: nat, b: nat)
    ensures Xor(Xor(a, b), b) == a
    decreases a + b
  {
    if a != 0 || b != 0 {
      XorCancels(a / 2, b / 2);
      var x := Xor(a, b);
      assert x / 2 == Xor(a / 2, b / 2);
      XorUnfolds(x, b);
    }
  }

  /** x shifted left by k bits. */
  function ShiftLeft(x: nat, k: nat): nat
  {
    if k == 0 then x else 2 * ShiftLeft(x, k - 1)
  }

  lemma ShiftByte(x: nat)
    ensures ShiftLeft(x, 8) == 256 * x
  {
    assert ShiftLeft(x, 1) == 2 * x && ShiftLeft(x, 2) == 4 * x && ShiftLeft(x, 3) == 8 * x;
    assert ShiftLeft(x, 4) == 16 * x && ShiftLeft(x, 5) == 32 * x && ShiftLeft(x, 6) == 64 * x;
  }

  /** Exclusive or never carries: it acts on the low k bits and on the rest separately. */
  lemma {:induction false} XorSplits(lo1: nat, lo2: nat, hi1: nat, hi2: nat, k: nat)
    requires lo1 < Pow2(k) && lo2 < Pow2(k)
    ensures Xor(lo1 + ShiftLeft(hi1, k), lo2 + ShiftLeft(hi2, k)) == Xor(lo1, lo2) + ShiftLeft(Xor(hi1, hi2), k)
  {
    if k > 0 {
      XorSplits(lo1 / 2, lo2 / 2, hi1, hi2, k - 1);
      XorHalves(lo1, lo2, ShiftLeft(hi1, k - 1), ShiftLeft(hi2, k - 1));
    }
  }

  lemma XorHalves(lo1: nat, lo2: nat, q1: nat, q2: nat)
    ensures Xor(lo1 + 2 * q1, lo2 + 2 * q2) - Xor(lo1, lo2)
            == 2 * Xor(lo1 / 2 + q1, lo2 / 2 + q2) - 2 * Xor(lo1 / 2, lo2 / 2)
  {
    XorUnfolds(lo1 + 2 * q1, lo2 + 2 * q2);
    XorUnfolds(lo1, lo2);
    assert (lo1 + 2 * q1) / 2 == lo1 / 2 + q1 && (lo2 + 2 * q2) / 2 == lo2 / 2 + q2;
  }

  lemma XorUnfolds(a: nat, b: nat)
    ensures Xor(a, b) == 2 * Xor(a / 2, b / 2) + (if a % 2 == b % 2 then 0 else 1)
  {
  }

  function XorByte(a: byte, b: byte): byte
  {
    assert Pow2(8) == 256;
    XorBelow(a, b, 8);
    Xor(a, b)
  }

  /** Pointwise exclusive or: the meaning of a one-time pad. */
  function XorSeq(x: seq<byte>, y: seq<byte>): (r: seq<byte>)
    requires |x| == |y|
    ensures |r| == |x|
    ensures forall i :: 0 <= i < |r| ==> r[i] == XorByte(x[i], y[i])
  {
    seq(|x|, i requires 0 <= i < |x| => XorByte(x[i], y[i]))
  }

  /** The same pad applied twice gives the plaintext back. */
  lemma XorSeqCancels(x: seq<byte>, pad: seq<byte>)
    requires |x| == |pad|
    ensures XorSeq(XorSeq(x, pad), pad) == x
  {
    forall i | 0 <= i < |x|
      ensures XorSeq(XorSeq(x, pad), pad)[i] == x[i]
    {
      XorCancels(x[i], pad[i]);
    }
  }

  function Reverse<T>(s: seq<T>): (r: seq<T>)
    ensures |r| == |s|
    ensures forall i :: 0 <= i < |r| ==> r[i] == s[|s| - 1 - i]
  {
    seq(|s|, i requires 0 <= i < |s| => s[|s| - 1 - i])
  }

  /** Value of a word whose bytes are listed from least to most significant. */
  function FromLittle(s: seq<byte>): (v: nat)
    ensures v < Pow2(8 * |s|)
  {
    if s == [] then 0
    else
      Pow2Sum(8, 8 * (|s| - 1));
      assert Pow2(8) == 256;
      s[0] + 256 * FromLittle(s[1..])
  }

  /** The n low bytes of v, from least to most significant. */
  function ToLittle(v: nat, n: nat): (s: seq<byte>)
    ensures |s| == n
  {
    if n == 0 then [] else [v % 256] + ToLittle(v / 256, n - 1)
  }

  /** Loads the word stored in memory as s. */
  function LoadWord(s: seq<byte>, order: ByteOrder): (v: nat)
    ensures v < Pow2(8 * |s|)
  {
    if order.Little? then FromLittle(s) else FromLittle(Reverse(s))
  }

  /** Memory image of the n-byte word v. */
  function StoreWord(v: nat, n: nat, order: ByteOrder): (s: seq<byte>)
    ensures |s| == n
  {
    if order.Little? then ToLittle(v, n) else Reverse(ToLittle(v, n))
  }

  lemma {:induction false} LittleRoundTrip(v: nat, n: nat)
    requires v < Pow2(8 * n)
    ensures FromLittle(ToLittle(v, n)) == v
  {
    if n > 0 {
      Pow2Sum(8, 8 * (n - 1));
      assert Pow2(8) == 256;
      LittleRoundTrip(v / 256, n - 1);
      assert ToLittle(v, n)[1..] == ToLittle(v / 256, n - 1);
    }
  }

  /** A stored word loads back unchanged, in either byte order. */
  lemma WordRoundTrip(v: nat, n: nat, order: ByteOrder)
    requires v < Pow2(8 * n)
    ensures LoadWord(StoreWord(v, n, order), order) == v
  {
    LittleRoundTrip(v, n);
    assert Reverse(Reverse(ToLittle(v, n))) == ToLittle(v, n);
  }

  lemma {:induction false} XorLittle(x: seq<byte>, y: seq<byte>)
    requires |x| == |y|
    ensures ToLittle(Xor(FromLittle(x), FromLittle(y)), |x|) == XorSeq(x, y)
  {
    if x == [] {
    } else {
      var rest := Xor(FromLittle(x[1..]), FromLittle(y[1..]));
      XorHead(x[0], y[0], FromLittle(x[1..]), FromLittle(y[1..]));
      XorLittle(x[1..], y[1..]);
      assert XorSeq(x, y) == [XorByte(x[0], y[0])] + XorSeq(x[1..], y[1..]);
    }
  }

  lemma XorHead(a: byte, b: byte, x: nat, y: nat)
    ensures Xor(a + 256 * x, b + 256 * y) / 256 == Xor(x, y)
    ensures Xor(a + 256 * x, b + 256 * y) % 256 == XorByte(a, b)
  {
    assert Pow2(8) == 256;
    XorSplits(a, b, x, y, 8);
    ShiftByte(x);
    ShiftByte(y);
    ShiftByte(Xor(x, y));
    var low, high := XorByte(a, b), Xor(x, y);
    assert Xor(a + 256 * x, b + 256 * y) == low + 256 * high;
  }

  /** One exclusive or of whole words is the exclusive or of their bytes in memory. */
  lemma XorOfWords(x: seq<byte>, y: seq<byte>, order: ByteOrder)
    requires |x| == |y|
    ensures StoreWord(Xor(LoadWord(x, order), LoadWord(y, order)), |x|, order) == XorSeq(x, y)
  {
    XorLittle(x, y);
    XorLittle(Reverse(x), Reverse(y));
    assert Reverse(XorSeq(Reverse(x), Reverse(y))) == XorSeq(x, y);
  }
}
