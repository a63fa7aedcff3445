/** The exclusive-or of machine words, bit by bit, and the laws it obeys. */
module Bits {

  /** Bit i of a number, the lowest being bit 0. */
  function Bit(n: nat, i: nat): nat {
    if i == 0 then n % 2 else Bit(n / 2, i - 1)
  }

  function Xor(a: nat, b: nat): nat {
    if a == 0 && b == 0 then 0 else 2 * Xor(a / 2, b / 2) + (a + b) % 2
  }

  lemma XorHalf(a: nat, b: nat)
    ensures Xor(a, b) / 2 == Xor(a / 2, b / 2) && Xor(a, b) % 2 == (a + b) % 2
  {
  }

  lemma Differ(a: nat, b: nat)
    ensures (a + b) % 2 == if a % 2 == b % 2 then 0 else 1
  {
  }

  /** A bit is set just where the two numbers differ. */
  lemma {:induction false} XorBit(a: nat, b: nat, i: nat)
    ensures Bit(Xor(a, b), i) == if Bit(a, i) == Bit(b, i) then 0 else 1
    decreases i
  {
    XorHalf(a, b);
    if i == 0 {
      Differ(a, b);
    } else {
      XorBit(a / 2, b / 2, i - 1);
    }
  }

  /** It stays within the width of a word. */
  lemma {:induction false} XorFits(a: nat, b: nat, bound: nat, width: nat)
    requires bound == Power(width) && a < bound && b < bound
    ensures Xor(a, b) < bound
    decreases width
  {
    if width > 0 {
      XorHalf(a, b);
      XorFits(a / 2, b / 2, bound / 2, width - 1);
    }
  }

  function Power(width: nat): (p: nat)
    ensures p > 0
  {
    if width == 0 then 1 else 2 * Power(width - 1)
  }

  /** Operands on the right may change places. */
  ghost predicate Swaps<T(!new)>(op: (T, T) -> T) {
    forall a, b, c :: op(op(a, b), c) == op(op(a, c), b)
  }

  lemma Halves(x: nat, y: nat)
    requires x / 2 == y / 2 && x % 2 == y % 2
    ensures x == y
  {
  }

  lemma Parity(x: nat, y: nat, c: nat)
    requires x % 2 == y % 2
    ensures (x + c) % 2 == (y + c) % 2
  {
  }

  /** The last bit of two exclusive-ors is that of the sum. */
  lemma LastBit(a: nat, b: nat, c: nat)
    ensures Xor(Xor(a, b), c) % 2 == (a + b + c) % 2
  {
    XorHalf(a, b);
    XorHalf(Xor(a, b), c);
    Parity(Xor(a, b), a + b, c);
  }

  lemma {:induction false} XorSwap(a: nat, b: nat, c: nat)
    ensures Xor(Xor(a, b), c) == Xor(Xor(a, c), b)
    decreases a + b + c
  {
    if a + b + c > 0 {
      XorSwap(a / 2, b / 2, c / 2);
      XorHalf(a, b);
      XorHalf(a, c);
      XorHalf(Xor(a, b), c);
      XorHalf(Xor(a, c), b);
      LastBit(a, b, c);
      LastBit(a, c, b);
      Halves(Xor(Xor(a, b), c), Xor(Xor(a, c), b));
    }
  }

  lemma XorSwaps()
    ensures Swaps(Xor)
  {
    forall a, b, c ensures Xor(Xor(a, b), c) == Xor(Xor(a, c), b) {
      XorSwap(a, b, c);
    }
  }

  lemma {:induction false} XorZero(a: nat)
    ensures Xor(0, a) == a
  {
    if a > 0 {
      XorZero(a / 2);
    }
  }

  lemma TwiceEven(a: nat, b: nat)
    ensures (a + b + b) % 2 == a % 2
  {
  }

  lemma {:induction false} XorTwice(a: nat, b: nat)
    ensures Xor(Xor(a, b), b) == a
    decreases a + b
  {
    if a + b > 0 {
      XorTwice(a / 2, b / 2);
      XorHalf(a, b);
      XorHalf(Xor(a, b), b);
      LastBit(a, b, b);
      TwiceEven(a, b);
      Halves(Xor(Xor(a, b), b), a);
    }
  }
}
