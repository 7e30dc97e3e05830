/** Bitwise operations of the C code on non-negative machine integers, and what they are in arithmetic. */
module Bits {
  function And(x: nat, y: nat): nat {
    if x == 0 || y == 0 then 0 else 2 * And(x / 2, y / 2) + (x % 2) * (y % 2)
  }

  function Xor(x: nat, y: nat): nat
    decreases x + y
  {
    if x == 0 && y == 0 then 0 else 2 * Xor(x / 2, y / 2) + (x % 2 + y % 2) % 2
  }

  function Or(x: nat, y: nat): nat
    decreases x + y
  {
    if x == 0 && y == 0 then 0 else 2 * Or(x / 2, y / 2) + (if x % 2 + y % 2 > 0 then 1 else 0)
  }

  function Pow2(k: nat): (p: nat)
    ensures p > 0
  {
    if k == 0 then 1 else 2 * Pow2(k - 1)
  }

  lemma Doubles(k: nat)
    requires k > 0
    ensures Pow2(k) == 2 * Pow2(k - 1)
  {
  }

  lemma AndEven(x: nat, b: nat, p: nat)
    requires b <= 1
    ensures And(2 * x + b, 2 * p) == 2 * And(x, p)
  {
    assert (2 * x + b) / 2 == x && (2 * p) / 2 == p && (2 * p) % 2 == 0;
  }

  lemma AndOdd(x: nat, b: nat, p: nat)
    requires b <= 1 && p > 0
    ensures And(2 * x + b, 2 * p - 1) == 2 * And(x, p - 1) + b
  {
    assert (2 * x + b) / 2 == x && (2 * p - 1) / 2 == p - 1 && (2 * p - 1) % 2 == 1;
  }

  lemma XorEven(x: nat, b: nat, p: nat)
    requires b <= 1
    ensures Xor(2 * x + b, 2 * p) == 2 * Xor(x, p) + b
  {
    assert (2 * x + b) / 2 == x && (2 * p) / 2 == p && (2 * p) % 2 == 0;
  }

  /** The last bit of a number and the rest. */
  function Halves(n: nat): (r: (nat, nat))
    ensures n == 2 * r.0 + r.1 && r.1 <= 1
  {
    (n / 2, n % 2)
  }

  /** `low` with the bit of value `p` on top of it, or not. */
  function Topped(p: nat, top: bool, low: nat): nat {
    (if top then p else 0) + low
  }

  /** x & 2^k for an x below 2^(k+1): the top bit. */
  lemma {:induction false} AndTop(k: nat, top: bool, low: nat)
    requires low < Pow2(k)
    ensures And(Topped(Pow2(k), top, low), Pow2(k)) == Topped(Pow2(k), top, 0)
  {
    if k > 0 {
      hide And, Pow2, Halves;
      var p := Pow2(k - 1);
      var (h, b) := Halves(low);
      Doubles(k);
      AndEven(Topped(p, top, h), b, p);
      AndTop(k - 1, top, h);
    }
  }

  lemma XorOneBit()
    ensures Pow2(0) == 1 && Xor(0, 1) == 1 && Xor(1, 1) == 0
  {
  }

  /** x ^ 2^k for an x below 2^(k+1) flips the top bit and nothing else. */
  lemma {:induction false} XorTop(k: nat, top: bool, low: nat)
    requires low < Pow2(k)
    ensures Xor(Topped(Pow2(k), top, low), Pow2(k)) == Topped(Pow2(k), !top, low)
  {
    hide Xor, Pow2, Halves;
    if k == 0 {
      XorOneBit();
    } else {
      var p := Pow2(k - 1);
      var (h, b) := Halves(low);
      Doubles(k);
      XorEven(Topped(p, top, h), b, p);
      XorTop(k - 1, top, h);
    }
  }

  /** x & (2^k - 1) for an x below 2^(k+1) drops the top bit. */
  lemma {:induction false} AndLow(k: nat, top: bool, low: nat)
    requires low < Pow2(k)
    ensures And(Topped(Pow2(k), top, low), Pow2(k) - 1) == low
  {
    if k > 0 {
      hide And, Pow2, Halves;
      var p := Pow2(k - 1);
      var (h, b) := Halves(low);
      Doubles(k);
      AndOdd(Topped(p, top, h), b, p);
      AndLow(k - 1, top, h);
    }
  }

  lemma {:induction false} OrZero(x: nat)
    ensures Or(x, 0) == x
  {
    if x > 0 {
      OrZero(x / 2);
    }
  }

  /** x | 1 sets the last bit and nothing else. */
  lemma OrOne(x: nat, b: nat)
    requires b <= 1
    ensures Or(2 * x + b, 1) == 2 * x + 1
  {
    OrZero(x);
    assert (2 * x + b) / 2 == x && (2 * x + b) % 2 == b;
  }

  /** x & 1 is the last bit. */
  lemma AndOne(x: nat, b: nat)
    requires b <= 1
    ensures And(2 * x + b, 1) == b
  {
    AndOdd(x, b, 1);
  }

  /** x & 3 is the last two bits. */
  lemma AndThree(x: nat, w: nat, b: nat)
    requires w <= 1 && b <= 1
    ensures And(4 * x + 2 * w + b, 3) == 2 * w + b
  {
    AndOdd(2 * x + w, b, 2);
    AndOne(x, w);
  }
}
