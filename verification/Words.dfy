/** Machine words: bounded numbers, their images in memory, and the 4-byte word of flags. */
module Words {
  import opened Bytes

  type uint32 = n: nat | n < 0x1_0000_0000
  type uint64 = n: nat | n < 0x1_0000_0000_0000_0000

  lemma PowersOfTwo()
    ensures Pow2(0) == 1 && Pow2(8) == 0x100 && Pow2(16) == 0x1_0000 && Pow2(32) == 0x1_0000_0000
    ensures Pow2(64) == 0x1_0000_0000_0000_0000
  {
    assert Pow2(8) == 0x100;
    Pow2Sum(8, 8);
    Pow2Sum(16, 16);
    Pow2Sum(32, 32);
  }

  /** The flag word that holds x, and the number a flag word holds. */
  function WordOf(x: uint32): bv32
  {
    x as bv32
  }

  function ValueOf(w: bv32): uint32
  {
    w as nat
  }

  /** The word w shifted left by one, with its lowest bit clear or set. */
  function Even(w: bv32): bv32
  {
    w << 1
  }

  function Odd(w: bv32): bv32
  {
    (w << 1) | 1
  }

  lemma EvenValue(w: bv32)
    requires w < 0x8000_0000
    ensures (w << 1) as nat == 2 * (w as nat)
  {
  }

  lemma OddValue(w: bv32)
    ensures ((w << 1) | 1) as nat == ((w << 1) as nat) + 1
  {
  }

  lemma Doubled(w: bv32)
    requires w < 0x8000_0000
    ensures ValueOf(Even(w)) == 2 * ValueOf(w)
    ensures ValueOf(Odd(w)) == 2 * ValueOf(w) + 1
  {
    EvenValue(w);
    OddValue(w);
  }

  lemma Bounded(w: bv32)
    ensures ValueOf(w) < 0x8000_0000 ==> w < 0x8000_0000
    ensures ValueOf(w) < 0x1_0000 ==> w < 0x1_0000
  {
  }

  lemma Back(w: bv32)
    ensures WordOf(ValueOf(w)) == w
  {
  }

  /** Every 32-bit number has its word. */
  lemma {:induction false} Forth(x: uint32)
    ensures ValueOf(WordOf(x)) == x
  {
    hide ValueOf, WordOf, Even, Odd;
    if x == 0 {
      ZeroWord();
    } else {
      Forth(x / 2);
      Bounded(WordOf(x / 2));
      Doubled(WordOf(x / 2));
      Back(Even(WordOf(x / 2)));
      Back(Odd(WordOf(x / 2)));
    }
  }

  lemma ZeroWord()
    ensures ValueOf(WordOf(0)) == 0
  {
    assert ValueOf(0) == 0;
    Back(0);
  }

  /** Bitwise or. */
  function Or(a: nat, b: nat): nat
    decreases a + b
  {
    if a == 0 && b == 0 then 0
    else 2 * Or(a / 2, b / 2) + (if a % 2 == 1 || b % 2 == 1 then 1 else 0)
  }

  lemma {:induction false} OrBelow(a: nat, b: nat, k: nat)
    requires a < Pow2(k) && b < Pow2(k)
    ensures Or(a, b) < Pow2(k)
  {
    if k > 0 {
      OrBelow(a / 2, b / 2, k - 1);
    }
  }

  lemma {:induction false} OrZero(a: nat)
    ensures Or(0, a) == a
  {
    if a > 0 {
      OrZero(a / 2);
    }
  }

  /** The or of a low part and a high part is their sum. */
  lemma {:induction false} OrJoins(low: nat, high: nat, k: nat)
    requires low < Pow2(k)
    ensures Or(low, ShiftLeft(high, k)) == low + ShiftLeft(high, k)
  {
    if k == 0 {
      OrZero(high);
    } else {
      OrJoins(low / 2, high, k - 1);
    }
  }

  lemma ShiftHalf(x: nat)
    ensures ShiftLeft(x, 16) == 0x1_0000 * x
  {
    ShiftByte(x);
    ShiftTwice(x, 8, 8);
    ShiftByte(ShiftLeft(x, 8));
  }

  lemma {:induction false} ShiftTwice(x: nat, j: nat, k: nat)
    ensures ShiftLeft(x, j + k) == ShiftLeft(ShiftLeft(x, j), k)
  {
    if k > 0 {
      ShiftTwice(x, j, k - 1);
    }
  }

  lemma {:induction false} LittleImage(s: seq<byte>)
    ensures ToLittle(FromLittle(s), |s|) == s
  {
    if s != [] {
      LittleImage(s[1..]);
    }
  }

  /** Bytes loaded as a word are stored back. */
  lemma StoresBack(s: seq<byte>, order: ByteOrder)
    ensures StoreWord(LoadWord(s, order), |s|, order) == s
  {
    LittleImage(s);
    LittleImage(Reverse(s));
    assert Reverse(Reverse(s)) == s;
  }
}
