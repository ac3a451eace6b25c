/** Bytes as numbers, and the exclusive-or of numbers. */
module Bytes {

  type byte = x: int | 0 <= x < 256

  type bytes = seq<byte>

  datatype Option<+T> = None | Some(value: T)

  /** Bitwise exclusive-or, defined bit by bit from the least significant one. */
  function Xor(a: nat, b: nat): nat
    decreases a + b
  {
    if a == 0 then b
    else if b == 0 then a
    else (if a % 2 == b % 2 then 0 else 1) + 2 * Xor(a / 2, b / 2)
  }

  /** The recursion equation of `Xor` without its two shortcuts. */
  lemma {:induction false} XorBit(a: nat, b: nat)
    ensures Xor(a, b) % 2 == (if a % 2 == b % 2 then 0 else 1)
    ensures Xor(a, b) / 2 == Xor(a / 2, b / 2)
  {
    if a > 0 && b > 0 {
      var bit, rest := if a % 2 == b % 2 then 0 else 1, Xor(a / 2, b / 2);
      assert Xor(a, b) == bit + 2 * rest;
      LowBit(bit, rest);
    }
  }

  lemma LowBit(bit: nat, rest: nat)
    requires bit < 2
    ensures (bit + 2 * rest) % 2 == bit && (bit + 2 * rest) / 2 == rest
  {
  }

  lemma {:induction false} XorComm(a: nat, b: nat)
    ensures Xor(a, b) == Xor(b, a)
    decreases a + b
  {
    if a > 0 && b > 0 {
      XorComm(a / 2, b / 2);
    }
  }

  lemma {:induction false} XorSelf(a: nat)
    ensures Xor(a, a) == 0
  {
    if a > 0 {
      XorSelf(a / 2);
    }
  }

  lemma {:induction false} XorAssoc(a: nat, b: nat, c: nat)
    ensures Xor(Xor(a, b), c) == Xor(a, Xor(b, c))
    decreases a + b + c
  {
    if a > 0 && b > 0 && c > 0 {
      XorBit(a, b);
      XorBit(b, c);
      XorBit(Xor(a, b), c);
      XorBit(a, Xor(b, c));
      XorAssoc(a / 2, b / 2, c / 2);
    }
  }

  /** Adding the same value twice cancels. */
  lemma XorCancel(a: nat, b: nat)
    ensures Xor(Xor(a, b), b) == a && Xor(a, Xor(a, b)) == b
  {
    XorAssoc(a, b, b);
    XorSelf(b);
    XorAssoc(a, a, b);
    XorSelf(a);
  }

  /** Terms of a sum may be regrouped. */
  lemma XorSwap(a: nat, b: nat, c: nat, d: nat)
    ensures Xor(Xor(a, b), Xor(c, d)) == Xor(Xor(a, c), Xor(b, d))
  {
    XorAssoc(a, b, Xor(c, d));
    XorAssoc(b, c, d);
    XorComm(b, c);
    XorAssoc(c, b, d);
    XorAssoc(a, c, Xor(b, d));
  }

  function Pow2(k: nat): (p: nat)
    ensures p > 0
  {
    if k == 0 then 1 else 2 * Pow2(k - 1)
  }

  lemma {:induction false} XorBelow(a: nat, b: nat, k: nat)
    requires a < Pow2(k) && b < Pow2(k)
    ensures Xor(a, b) < Pow2(k)
    decreases k
  {
    if k > 0 {
      XorBelow(a / 2, b / 2, k - 1);
      XorBit(a, b);
    }
  }

  function Shr(a: nat, k: nat): nat {
    if k == 0 then a else Shr(a, k - 1) / 2
  }

  lemma {:induction false} XorShr(a: nat, b: nat, k: nat)
    ensures Shr(Xor(a, b), k) == Xor(Shr(a, k), Shr(b, k))
  {
    if k > 0 {
      XorShr(a, b, k - 1);
      XorBit(Shr(a, k - 1), Shr(b, k - 1));
    }
  }

  /** A bit above both operands passes through, ... */
  lemma {:induction false} XorOneTop(a: nat, b: nat, k: nat)
    requires a < Pow2(k) && b < Pow2(k)
    ensures Xor(Pow2(k) + a, b) == Pow2(k) + Xor(a, b)
    decreases k
  {
    if k > 0 {
      XorOneTop(a / 2, b / 2, k - 1);
      XorBit(a, b);
      XorBit(Pow2(k) + a, b);
      assert (Pow2(k) + a) / 2 == Pow2(k - 1) + a / 2;
    }
  }

  /** ... and cancels when it is set in both. */
  lemma XorTwoTops(a: nat, b: nat, k: nat)
    requires a < Pow2(k) && b < Pow2(k)
    ensures Xor(Pow2(k) + a, Pow2(k) + b) == Xor(a, b)
  {
    var p := Pow2(k);
    XorOneTop(0, a, k);
    XorOneTop(0, b, k);
    XorSwap(p, a, p, b);
    XorSelf(p);
  }

  lemma XorByte(a: byte, b: byte)
    ensures 0 <= Xor(a, b) < 256
  {
    assert Pow2(8) == 256;
    XorBelow(a, b, 8);
  }

  /** Addition of field elements. */
  function Add(a: byte, b: byte): byte {
    XorByte(a, b);
    Xor(a, b)
  }

  /** A 16-bit number from its two bytes, and back, high byte first. */
  function Word(high: nat, low: nat): nat {
    256 * high + low
  }

  function U16(v: nat): bytes {
    [v / 256 % 256, v % 256]
  }
}
