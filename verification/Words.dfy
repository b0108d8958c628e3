/** Unsigned machine words as bounded naturals, with their wrap-around and bit operations written out. */
module Words {

  const U16 := 0x1_0000
  const U32 := 0x1_0000_0000
  const U64 := 0x1_0000_0000_0000_0000

  type u16 = x: nat | x < U16
  type u32 = x: nat | x < U32
  type u64 = x: nat | x < U64

  function Pow2(n: nat): (p: nat)
    ensures p > 0
  {
    if n == 0 then 1 else 2 * Pow2(n - 1)
  }

  /** Bit i of w, counted from the least significant end. */
  predicate Bit(w: nat, i: nat) {
    if i == 0 then w % 2 == 1 else Bit(w / 2, i - 1)
  }

  /** `w << 1` on 32 bits. */
  function ShiftLeft1(w: u32): (r: u32) {
    (2 * w) % U32
  }

  lemma Pow2Values()
    ensures Pow2(16) == U16 && Pow2(31) == 0x8000_0000 && Pow2(32) == U32
  {
    assert Pow2(8) == 0x100;
    assert Pow2(16) == 0x1_0000;
    assert Pow2(24) == 0x100_0000;
    assert Pow2(31) == 0x8000_0000;
  }

  lemma PlusDouble(w: nat, p: nat)
    ensures (w + 2 * p) / 2 == w / 2 + p && (w + 2 * p) % 2 == w % 2
  {
  }

  lemma BitStep(w: nat, i: nat)
    ensures Bit(w, i) <==> if i == 0 then w % 2 == 1 else Bit(w / 2, i - 1)
  {
  }

  lemma Pow2Step(n: nat)
    ensures Pow2(n) == if n == 0 then 1 else 2 * Pow2(n - 1)
  {
  }

  lemma {:induction false} AddUnsetBit(w: nat, k: nat, i: nat, n: nat)
    requires !Bit(w, k) && k < n && w < Pow2(n)
    ensures w + Pow2(k) < Pow2(n)
    ensures Bit(w + Pow2(k), i) <==> i == k || Bit(w, i)
  {
    hide Bit, Pow2;
    Pow2Step(k);
    Pow2Step(n);
    BitStep(w, k);
    BitStep(w, i);
    BitStep(w + Pow2(k), i);
    if k == 0 {
      assert (w + 1) / 2 == w / 2;
    } else {
      PlusDouble(w, Pow2(k - 1));
      AddUnsetBit(w / 2, k - 1, if i == 0 then 0 else i - 1, n - 1);
    }
  }

  /** `w | (1 << k)` on 32 bits. */
  function SetBit(w: u32, k: nat): (r: u32)
    requires k < 32
    ensures forall i :: 0 <= i < 32 ==> (Bit(r, i) <==> i == k || Bit(w, i))
  {
    Pow2Values();
    forall i | 0 <= i < 32
      ensures !Bit(w, k) ==> w + Pow2(k) < U32 && (Bit(w + Pow2(k), i) <==> i == k || Bit(w, i))
    {
      if !Bit(w, k) { AddUnsetBit(w, k, i, 32); }
    }
    assert !Bit(w, k) ==> w + Pow2(k) < U32 by {
      if !Bit(w, k) { AddUnsetBit(w, k, 0, 32); }
    }
    if Bit(w, k) then w else w + Pow2(k)
  }

  lemma MulDouble(a: nat, p: nat)
    ensures a * (2 * p) == 2 * (a * p)
  {
  }

  /** Adding a multiple of 2^n leaves the n low bits alone. */
  lemma {:induction false} AddHigh(w: nat, n: nat, c: nat, i: nat)
    requires i < n
    ensures Bit(w + c * Pow2(n), i) == Bit(w, i)
  {
    MulDouble(c, Pow2(n - 1));
    if i > 0 {
      assert (w + c * Pow2(n)) / 2 == w / 2 + c * Pow2(n - 1);
      AddHigh(w / 2, n - 1, c, i - 1);
    }
  }

  lemma EvenBits(v: nat, i: nat)
    ensures Bit(2 * v, i) <==> i > 0 && Bit(v, i - 1)
  {
    assert 2 * v / 2 == v;
  }

  lemma ShiftLeft1Bits(w: u32, i: nat)
    requires i < 32
    ensures Bit(ShiftLeft1(w), i) <==> i > 0 && Bit(w, i - 1)
  {
    hide Bit, Pow2;
    if 2 * w < U32 {
      EvenBits(w, i);
    } else {
      var v := w - 0x8000_0000;
      assert ShiftLeft1(w) == 2 * v;
      EvenBits(v, i);
      Pow2Values();
      if i > 0 { AddHigh(v, 31, 1, i - 1); }
    }
  }

  lemma AddMod16(x: int, n: int)
    ensures (x % U16 + n) % U16 == (x + n) % U16
  {
  }

  lemma AddMod32(x: int, n: int)
    ensures (x % U32 + n) % U32 == (x + n) % U32
  {
  }

  lemma SubMod16(x: int, y: int)
    ensures (x - y % U16) % U16 == (x - y) % U16 == (x % U16 - y) % U16
  {
  }

  lemma SubMod32(x: int, y: int)
    ensures (x - y % U32) % U32 == (x - y) % U32
  {
  }

  lemma AddMod32Multiple(x: int, c: int)
    ensures (x + c * U32) % U32 == x % U32
  {
  }

  lemma Mod64To32(x: int)
    ensures x % U64 % U32 == x % U32
  {
    assert x == x / U64 * U64 + x % U64;
    assert x / U64 * U64 == (x / U64 * U32) * U32;
    AddMod32Multiple(x % U64, x / U64 * U32);
  }

  /** `a ^ b` on the n low bits. */
  function XorN(a: nat, b: nat, n: nat): (r: nat)
    ensures r < Pow2(n)
    decreases n, a
  {
    if n == 0 then 0 else 2 * XorN(a / 2, b / 2, n - 1) + if a % 2 == b % 2 then 0 else 1
  }

  /** Bit by bit, the exclusive or. */
  lemma {:induction false} XorBits(a: nat, b: nat, n: nat, i: nat)
    requires i < n
    ensures Bit(XorN(a, b, n), i) <==> Bit(a, i) != Bit(b, i)
    decreases n
  {
    var x := XorN(a, b, n);
    assert x / 2 == XorN(a / 2, b / 2, n - 1) && x % 2 == if a % 2 == b % 2 then 0 else 1;
    if i > 0 { XorBits(a / 2, b / 2, n - 1, i - 1); }
  }

  lemma {:induction false} XorTwice(a: nat, b: nat, n: nat)
    requires a < Pow2(n)
    ensures XorN(XorN(a, b, n), b, n) == a
  {
    if n > 0 {
      var x := XorN(a, b, n);
      assert x / 2 == XorN(a / 2, b / 2, n - 1) && x % 2 == if a % 2 == b % 2 then 0 else 1;
      XorTwice(a / 2, b / 2, n - 1);
    }
  }

  lemma {:induction false} XorSymmetric(a: nat, b: nat, n: nat)
    ensures XorN(a, b, n) == XorN(b, a, n)
  {
    if n > 0 { XorSymmetric(a / 2, b / 2, n - 1); }
  }

  lemma {:induction false} XorZero(a: nat, n: nat)
    requires a < Pow2(n)
    ensures XorN(0, a, n) == a
  {
    if n > 0 { XorZero(a / 2, n - 1); }
  }

  /** The k low bits of c, with a above them. */
  function Above(a: nat, c: nat, k: nat): (r: nat)
    decreases k, c
  {
    if k == 0 then a else 2 * Above(a, c / 2, k - 1) + c % 2
  }

  lemma {:induction false} AboveIsSum(a: nat, c: nat, k: nat)
    requires c < Pow2(k)
    ensures Above(a, c, k) == a * Pow2(k) + c
    decreases k
  {
    if k > 0 {
      AboveIsSum(a, c / 2, k - 1);
      MulDouble(a, Pow2(k - 1));
      assert Above(a, c, k) == 2 * (a * Pow2(k - 1) + c / 2) + c % 2;
    }
  }

  lemma AboveNone(a: nat, c: nat)
    ensures Above(a, c, 0) == a
  {
  }

  lemma AboveStep(a: nat, c: nat, low: nat, k: nat)
    requires low < 2 && k > 0
    ensures Above(a, 2 * c + low, k) == 2 * Above(a, c, k - 1) + low
  {
    assert (2 * c + low) / 2 == c && (2 * c + low) % 2 == low;
  }

  lemma XorStep(a: nat, b: nat, i: nat, j: nat, n: nat)
    requires i < 2 && j < 2 && n > 0
    ensures XorN(2 * a + i, 2 * b + j, n) == 2 * XorN(a, b, n - 1) + if i == j then 0 else 1
  {
    assert (2 * a + i) / 2 == a && (2 * a + i) % 2 == i;
    assert (2 * b + j) / 2 == b && (2 * b + j) % 2 == j;
  }

  /** Exclusive or works on the high and the low part of a word separately. */
  lemma {:induction false} XorAbove(a: nat, b: nat, c: nat, d: nat, k: nat, n: nat)
    ensures XorN(Above(a, c, k), Above(b, d, k), n + k) == Above(XorN(a, b, n), XorN(c, d, k), k)
    decreases k
  {
    hide XorN, Above, Pow2;
    if k == 0 {
      AboveNone(a, c);
      AboveNone(b, d);
      AboveNone(XorN(a, b, n), XorN(c, d, 0));
    } else {
      var c', i, d', j := c / 2, c % 2, d / 2, d % 2;
      assert c == 2 * c' + i && d == 2 * d' + j;
      XorAbove(a, b, c', d', k - 1, n);
      AboveStep(a, c', i, k);
      AboveStep(b, d', j, k);
      XorStep(Above(a, c', k - 1), Above(b, d', k - 1), i, j, n + k);
      XorStep(c', d', i, j, k);
      AboveStep(XorN(a, b, n), XorN(c', d', k - 1), if i == j then 0 else 1, k);
    }
  }

  lemma XorSplit(a: nat, b: nat, c: nat, d: nat, k: nat, n: nat)
    requires c < Pow2(k) && d < Pow2(k)
    ensures XorN(a * Pow2(k) + c, b * Pow2(k) + d, n + k) == XorN(a, b, n) * Pow2(k) + XorN(c, d, k)
  {
    XorAbove(a, b, c, d, k, n);
    AboveIsSum(a, c, k);
    AboveIsSum(b, d, k);
    AboveIsSum(XorN(a, b, n), XorN(c, d, k), k);
  }

  /** The word with every bit set. */
  lemma {:induction false} AllOnes(n: nat, i: nat)
    requires i < n
    ensures Bit(Pow2(n) - 1, i)
  {
    assert (Pow2(n) - 1) / 2 == Pow2(n - 1) - 1;
    if i > 0 { AllOnes(n - 1, i - 1); }
  }
}
