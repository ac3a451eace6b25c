/** GF(256) with the RAID-6 polynomial 0x11d: the reference arithmetic that the lookup
    tables of the source are measured against. A byte is a polynomial over GF(2), addition
    is `Xor`, and `Mul` is the schoolbook carry-less product reduced at every shift. */
module Gf {
  import opened Bytes
  import opened Common

  /** Multiplication by the generator (the byte 2), reduced modulo 0x11d. */
  function Xtime(a: byte): (r: byte) {
    if a < 128 then 2 * a else XtimeByte(a); Xor(2 * a, 0x11d)
  }

  lemma XtimeByte(a: byte)
    requires a >= 128
    ensures 0 <= Xor(2 * a, 0x11d) < 256
    ensures Xor(2 * a, 0x11d) == Xor(2 * (a - 128), 0x1d)
  {
    assert Pow2(8) == 256;
    XorBelow(2 * a - 256, 0x1d, 8);
    XorTwoTops(2 * a - 256, 0x1d, 8);
  }

  function Select(b: nat, a: byte): byte {
    if b % 2 == 1 then a else 0
  }

  /** The product, by Horner's rule over the bits of `a`. */
  function Mul(a: byte, b: byte): byte
    decreases a
  {
    if a == 0 then 0
    else
      XorByte(Select(a, b), Xtime(Mul(a / 2, b)));
      Xor(Select(a, b), Xtime(Mul(a / 2, b)))
  }

  /** The generator raised to `i`. */
  function Power(i: nat): byte {
    if i == 0 then 1 else Xtime(Power(i - 1))
  }

  // ----- multiplication is linear, and commutes with the generator

  function Reduction(a: byte): nat {
    if a / 128 == 1 then 0x11d else 0
  }

  lemma TopBit(a: byte)
    ensures Shr(a, 7) == a / 128
  {
    assert Shr(a, 2) == Shr(a, 1) / 2 == a / 4;
    assert Shr(a, 4) == Shr(a, 3) / 2 == a / 16;
    assert Shr(a, 6) == Shr(a, 5) / 2 == a / 64;
  }

  lemma TopBitLinear(a: byte, b: byte)
    ensures Xor(a, b) / 128 == Xor(a / 128, b / 128)
  {
    XorByte(a, b);
    XorShr(a, b, 7);
    TopBit(a);
    TopBit(b);
    TopBit(Xor(a, b));
  }

  lemma ReductionLinear(a: byte, b: byte)
    ensures 0 <= Xor(a, b) < 256
    ensures Reduction(Xor(a, b)) == Xor(Reduction(a), Reduction(b))
  {
    XorByte(a, b);
    TopBitLinear(a, b);
    XorSelf(0x11d);
    assert Xor(1, 1) == 0;
  }

  lemma XtimeLinear(a: byte, b: byte)
    ensures 0 <= Xor(a, b) < 256
    ensures Xtime(Xor(a, b)) == Xor(Xtime(a), Xtime(b))
  {
    XorByte(a, b);
    var c := Xor(a, b);
    calc {
      Xtime(c);
      Xor(2 * c, Reduction(c));
      { ReductionLinear(a, b); XorBit(2 * a, 2 * b); }
      Xor(Xor(2 * a, 2 * b), Xor(Reduction(a), Reduction(b)));
      { XorSwap(2 * a, 2 * b, Reduction(a), Reduction(b)); }
      Xor(Xor(2 * a, Reduction(a)), Xor(2 * b, Reduction(b)));
      Xor(Xtime(a), Xtime(b));
    }
  }

  lemma {:induction false} MulZero(a: byte)
    ensures Mul(0, a) == 0 && Mul(a, 0) == 0
    decreases a
  {
    if a > 0 {
      MulZero(a / 2);
    }
  }

  /** Multiplication distributes over addition. */
  lemma {:induction false} MulAdd(a: byte, b: byte, c: byte)
    ensures 0 <= Xor(b, c) < 256
    ensures Mul(a, Xor(b, c)) == Xor(Mul(a, b), Mul(a, c))
    decreases a
  {
    XorByte(b, c);
    if a > 0 {
      var x, y := Mul(a / 2, b), Mul(a / 2, c);
      MulAdd(a / 2, b, c);
      XtimeLinear(x, y);
      XorSwap(Select(a, b), Select(a, c), Xtime(x), Xtime(y));
    }
  }

  lemma {:induction false} MulXtime(a: byte, b: byte)
    ensures Mul(a, Xtime(b)) == Xtime(Mul(a, b))
    decreases a
  {
    if a > 0 {
      MulXtime(a / 2, b);
      XtimeLinear(Select(a, b), Xtime(Mul(a / 2, b)));
    }
  }

  lemma {:induction false} MulOne(a: byte)
    ensures Mul(a, 1) == a
    decreases a
  {
    if a > 0 {
      MulOne(a / 2);
      assert Xor(a % 2, 2 * (a / 2)) == a;
    }
  }

  /** Powers of the generator multiply by adding their exponents. */
  lemma {:induction false} PowerAdd(i: nat, j: nat)
    ensures Power(i + j) == Mul(Power(i), Power(j))
    decreases j
  {
    if j == 0 {
      MulOne(Power(i));
    } else {
      PowerAdd(i, j - 1);
      MulXtime(Power(i), Power(j - 1));
    }
  }

  // ----- the generator has order 255

  lemma XtimeInjective(a: byte, b: byte)
    requires Xtime(a) == Xtime(b)
    ensures a == b
  {
    XtimeLinear(a, b);
    XorSelf(Xtime(a));
    var c := Xor(a, b);
    XorByte(a, b);
    assert Xtime(c) == 0;
    if c >= 128 {
      XorCancel(2 * c, 0x11d);
    }
    XorCancel(a, b);
  }

  lemma {:induction false} PowerNonZero(i: nat)
    ensures Power(i) != 0
  {
    if i > 0 {
      PowerNonZero(i - 1);
      if Xtime(Power(i - 1)) == 0 {
        XtimeInjective(Power(i - 1), 0);
      }
    }
  }

  /** Equal powers differ by a multiple of the order. */
  lemma {:induction false} PowerCancel(i: nat, j: nat)
    requires i <= j && Power(i) == Power(j)
    ensures Power(j - i) == 1
  {
    if i > 0 {
      XtimeInjective(Power(i - 1), Power(j - 1));
      PowerCancel(i - 1, j - 1);
    }
  }

  // Concrete powers are computed on machine bytes. Setting or clearing one bit is plain
  // arithmetic, which links the two views.

  function XtimeBits(x: bv8): bv8 {
    if x & 0x80 == 0 then x << 1 else (x << 1) ^ 0x1d
  }

  lemma Flip1(n: nat)
    ensures Xor(n, 1) == (if n % 2 == 0 then n + 1 else n - 1)
  {
    XorBit(n, 1);
  }

  lemma Flip4(n: nat)
    ensures Xor(n, 4) == (if n / 4 % 2 == 0 then n + 4 else n - 4)
  {
    XorBit(n, 4);
    XorBit(n / 2, 2);
    Flip1(n / 2 / 2);
    assert n / 2 / 2 == n / 4;
  }

  lemma Flip8(n: nat)
    ensures Xor(n, 8) == (if n / 8 % 2 == 0 then n + 8 else n - 8)
  {
    XorBit(n, 8);
    Flip4(n / 2);
    assert n / 2 / 4 == n / 8;
  }

  lemma Flip16(n: nat)
    ensures Xor(n, 16) == (if n / 16 % 2 == 0 then n + 16 else n - 16)
  {
    XorBit(n, 16);
    Flip8(n / 2);
    assert n / 2 / 8 == n / 16;
  }

  lemma FlipBit1(x: bv8)
    ensures Xor(x as int, 1) == (x ^ 1) as int
  {
    Flip1(x as int);
  }

  lemma Toggle4(x: bv8)
    ensures (x ^ 4) as int == (if x as int / 4 % 2 == 0 then x as int + 4 else x as int - 4)
  {
  }

  lemma FlipBit4(x: bv8, n: byte)
    requires x as int == n
    ensures Xor(n, 4) == (x ^ 4) as int
  {
    Toggle4(x);
    Flip4(n);
  }

  lemma Toggle8(x: bv8)
    ensures (x ^ 8) as int == (if x as int / 8 % 2 == 0 then x as int + 8 else x as int - 8)
  {
  }

  lemma FlipBit8(x: bv8, n: byte)
    requires x as int == n
    ensures Xor(n, 8) == (x ^ 8) as int
  {
    Toggle8(x);
    Flip8(n);
  }

  lemma Toggle16(x: bv8)
    ensures (x ^ 16) as int == (if x as int / 16 % 2 == 0 then x as int + 16 else x as int - 16)
  {
  }

  lemma FlipBit16(x: bv8, n: byte)
    requires x as int == n
    ensures Xor(n, 16) == (x ^ 16) as int
  {
    Toggle16(x);
    Flip16(n);
  }

  lemma ShiftSmall(x: bv8)
    requires x as int < 128
    ensures XtimeBits(x) as int == 2 * (x as int)
  {
  }

  lemma ShiftLarge(x: bv8)
    requires x as int >= 128
    ensures (x << 1) as int == 2 * (x as int) - 256
    ensures XtimeBits(x) == (((x << 1) ^ 1) ^ 4) ^ 8 ^ 16
  {
  }

  lemma XorFlips(n: nat)
    ensures Xor(n, 0x1d) == Xor(Xor(Xor(Xor(n, 1), 4), 8), 16)
  {
    assert Xor(1, 4) == 5 by { Flip4(1); }
    assert Xor(5, 8) == 13 by { Flip8(5); }
    assert Xor(13, 16) == 0x1d by { Flip16(13); }
    XorAssoc(n, 1, 4);
    XorAssoc(n, 5, 8);
    XorAssoc(n, 13, 16);
  }

  lemma XtimeIsBits(x: bv8, n: byte)
    requires x as int == n
    ensures Xtime(n) == XtimeBits(x) as int
  {
    if n < 128 {
      ShiftSmall(x);
    } else {
      ShiftLarge(x);
      XtimeByte(n);
      XorFlips(2 * n - 256);
      var y0 := x << 1;
      var y1 := y0 ^ 1;
      var y2 := y1 ^ 4;
      var y3 := y2 ^ 8;
      FlipBit1(y0);
      FlipBit4(y1, y1 as int);
      FlipBit8(y2, y2 as int);
      FlipBit16(y3, y3 as int);
    }
  }

  function XtimeBits4(x: bv8): bv8 {
    XtimeBits(XtimeBits(XtimeBits(XtimeBits(x))))
  }

  function XtimeBits17(x: bv8): bv8 {
    XtimeBits(XtimeBits4(XtimeBits4(XtimeBits4(XtimeBits4(x)))))
  }

  lemma PowerStep(i: nat, x: bv8)
    requires Power(i) == x as int
    ensures Power(i + 1) == XtimeBits(x) as int
  {
    XtimeIsBits(x, Power(i));
  }

  lemma PowerStep4(i: nat, x: bv8)
    requires Power(i) == x as int
    ensures Power(i + 4) == XtimeBits4(x) as int
  {
    var x1 := XtimeBits(x);
    var x2 := XtimeBits(x1);
    PowerStep(i, x);
    PowerStep(i + 1, x1);
    PowerStep(i + 2, x2);
    PowerStep(i + 3, XtimeBits(x2));
  }

  lemma PowerStep17(i: nat, x: bv8, y: bv8)
    requires Power(i) == x as int && XtimeBits17(x) == y
    ensures Power(i + 17) == y as int
  {
    var x4 := XtimeBits4(x);
    var x8 := XtimeBits4(x4);
    var x12 := XtimeBits4(x8);
    PowerStep4(i, x);
    PowerStep4(i + 4, x4);
    PowerStep4(i + 8, x8);
    PowerStep4(i + 12, x12);
    PowerStep(i + 16, XtimeBits4(x12));
  }

  /** The fifteen powers of `Power(17)`, the non-zero elements of the subfield of order 16. */
  lemma PowersOf17()
    ensures Power(17) == 0x98 && Power(34) == 0x4e && Power(51) == 0x0a && Power(68) == 0x99
    ensures Power(85) == 0xd6 && Power(102) == 0x44 && Power(119) == 0x93 && Power(136) == 0x4f
    ensures Power(153) == 0x92 && Power(170) == 0xd7 && Power(187) == 0xdc && Power(204) == 0xdd
    ensures Power(221) == 0x45 && Power(238) == 0x0b && Power(255) == 1
  {
    PowerStep17(0, 1, 0x98);
    PowerStep17(17, 0x98, 0x4e);
    PowerStep17(34, 0x4e, 0x0a);
    PowerStep17(51, 0x0a, 0x99);
    PowerStep17(68, 0x99, 0xd6);
    PowerStep17(85, 0xd6, 0x44);
    PowerStep17(102, 0x44, 0x93);
    PowerStep17(119, 0x93, 0x4f);
    PowerStep17(136, 0x4f, 0x92);
    PowerStep17(153, 0x92, 0xd7);
    PowerStep17(170, 0xd7, 0xdc);
    PowerStep17(187, 0xdc, 0xdd);
    PowerStep17(204, 0xdd, 0x45);
    PowerStep17(221, 0x45, 0x0b);
    PowerStep17(238, 0x0b, 1);
  }

  lemma {:induction false} PowerTimes(d: nat, m: nat, e: nat)
    requires Power(d) == 1 && e == d * m
    ensures Power(e) == 1
    decreases m
  {
    if m > 0 {
      assert e - d == d * (m - 1);
      PowerTimes(d, m - 1, e - d);
      PowerPlusPeriod(e - d, d, e);
    }
  }

  lemma PowerPlusPeriod(i: nat, d: nat, e: nat)
    requires Power(d) == 1 && e == i + d
    ensures Power(e) == Power(i)
  {
    PowerAdd(i, d);
    MulOne(Power(i));
  }

  function InverseMod17(r: nat): nat
    requires 0 < r < 17
  {
    [1, 9, 6, 13, 7, 3, 5, 15, 2, 12, 14, 10, 4, 11, 8, 16][r - 1]
  }

  lemma InverseMod17Correct(r: nat)
    requires 0 < r < 17
    ensures r * InverseMod17(r) % 17 == 1
  {
  }

  lemma BezoutArithmetic(q: nat, r: nat, k: nat, u: nat)
    requires r * k == 17 * u + 1
    ensures (17 * q + r) * (15 * k) == 15 + 255 * (u + q * k)
  {
    calc {
      (17 * q + r) * (15 * k);
      15 * ((17 * q + r) * k);
      15 * (17 * (q * k) + r * k);
    }
  }

  /** Some multiple of `d` is 15 more than a multiple of 255, unless 17 divides `d`. */
  lemma BezoutStep(d: nat) returns (m: nat, t: nat)
    requires d % 17 != 0
    ensures d * m == 15 + 255 * t
  {
    var r, q := d % 17, d / 17;
    var k := InverseMod17(r);
    InverseMod17Correct(r);
    var u := r * k / 17;
    BezoutArithmetic(q, r, k, u);
    m, t := 15 * k, u + q * k;
  }

  lemma PeriodOutsideSubfield(d: nat, small: nat, period: nat)
    requires small == 15 && period == 255
    requires Power(d) == 1 && d % 17 != 0 && Power(period) == 1
    ensures Power(small) == 1
  {
    var m, t := BezoutStep(d);
    var e, u := d * m, period * t;
    PowerTimes(d, m, e);
    PowerTimes(period, t, u);
    PowerPlusPeriod(small, u, e);
  }

  lemma NotOneLow(m: nat)
    requires 0 < m <= 7
    ensures Power(17 * m) != 1
  {
    PowersOf17();
    if m <= 4 {
      assert m == 1 || m == 2 || m == 3 || m == 4;
    } else {
      assert m == 5 || m == 6 || m == 7;
    }
  }

  lemma NotOneHigh(m: nat)
    requires 7 < m < 15
    ensures Power(17 * m) != 1
  {
    PowersOf17();
    if m <= 11 {
      assert m == 8 || m == 9 || m == 10 || m == 11;
    } else {
      assert m == 12 || m == 13 || m == 14;
    }
  }

  lemma NotOneInSubfield(m: nat)
    requires 0 < m < 15
    ensures Power(17 * m) != 1
  {
    if m <= 7 {
      NotOneLow(m);
    } else {
      NotOneHigh(m);
    }
  }

  /** No power below 255 returns to one: the generator has order exactly 255 = 15 * 17. */
  lemma OrderIs255(d: nat)
    requires 0 < d < 255
    ensures Power(d) != 1
  {
    if d % 17 == 0 {
      NotOneInSubfield(d / 17);
    } else if Power(d) == 1 {
      PowersOf17();
      PeriodOutsideSubfield(d, 15, 255);
    }
  }

  lemma PowerDistinct(i: nat, j: nat)
    requires i < j < 255
    ensures Power(i) != Power(j)
  {
    if Power(i) == Power(j) {
      PowerCancel(i, j);
      OrderIs255(j - i);
    }
  }

  // ----- every non-zero byte is a power

  function Orbit(n: nat): (o: set<byte>) {
    if n == 0 then {} else Orbit(n - 1) + {Power(n - 1)}
  }

  lemma {:induction false} OrbitIndex(n: nat, x: byte) returns (i: nat)
    requires x in Orbit(n)
    ensures i < n && Power(i) == x
  {
    if x in Orbit(n - 1) {
      i := OrbitIndex(n - 1, x);
    } else {
      i := n - 1;
    }
  }

  lemma {:induction false} OrbitSize(n: nat)
    requires n <= 255
    ensures |Orbit(n)| == n
  {
    if n > 0 {
      OrbitSize(n - 1);
      if Power(n - 1) in Orbit(n - 1) {
        var i := OrbitIndex(n - 1, Power(n - 1));
        PowerDistinct(i, n - 1);
      }
    }
  }

  function NonZero(n: nat): (o: set<byte>)
    requires n <= 255
    ensures |o| == n && forall x: byte :: x in o <==> 0 < x <= n
  {
    if n == 0 then {} else NonZero(n - 1) + {n}
  }

  lemma SubsetOfSameSize<T>(a: set<T>, b: set<T>)
    requires a <= b && |a| == |b|
    ensures a == b
  {
    if x :| x in b && x !in a {
      assert a + {x} <= b;
      SetSize(a + {x}, b);
    }
  }

  /** The discrete logarithm: the one exponent below 255 that yields `a`. */
  ghost function Log(a: byte): (i: nat)
    requires a != 0
    ensures i < 255 && Power(i) == a
  {
    LogExists(a);
    var i :| 0 <= i < 255 && Power(i) == a;
    i
  }

  lemma LogExists(a: byte)
    requires a != 0
    ensures exists i :: 0 <= i < 255 && Power(i) == a
  {
    forall x | x in Orbit(255) ensures x in NonZero(255) {
      var i := OrbitIndex(255, x);
      PowerNonZero(i);
    }
    OrbitSize(255);
    SubsetOfSameSize(Orbit(255), NonZero(255));
    var i := OrbitIndex(255, a);
  }

  lemma LogOfPower(i: nat)
    requires i < 255
    ensures Power(i) != 0 && Log(Power(i)) == i
  {
    PowerNonZero(i);
    var k := Log(Power(i));
    if k < i {
      PowerDistinct(k, i);
    } else if i < k {
      PowerDistinct(i, k);
    }
  }

  // ----- the field laws

  lemma MulComm(a: byte, b: byte)
    ensures Mul(a, b) == Mul(b, a)
  {
    MulZero(a);
    MulZero(b);
    if a != 0 && b != 0 {
      PowerAdd(Log(a), Log(b));
      PowerAdd(Log(b), Log(a));
    }
  }

  lemma OneTimes(a: byte)
    ensures Mul(1, a) == a
  {
    MulComm(1, a);
    MulOne(a);
  }

  lemma MulAddLeft(a: byte, b: byte, c: byte)
    ensures 0 <= Xor(a, b) < 256
    ensures Mul(Xor(a, b), c) == Xor(Mul(a, c), Mul(b, c))
  {
    MulAdd(c, a, b);
    MulComm(c, a);
    MulComm(c, b);
    MulComm(c, Xor(a, b));
  }

  lemma MulXtimeLeft(a: byte, b: byte)
    ensures Mul(Xtime(a), b) == Xtime(Mul(a, b))
  {
    MulXtime(b, a);
    MulComm(b, a);
    MulComm(b, Xtime(a));
  }

  lemma {:induction false} MulAssoc(a: byte, b: byte, c: byte)
    ensures Mul(Mul(a, b), c) == Mul(a, Mul(b, c))
    decreases a
  {
    MulZero(c);
    if a > 0 {
      var y := Mul(a / 2, b);
      MulAddLeft(Select(a, b), Xtime(y), c);
      MulXtimeLeft(y, c);
      MulAssoc(a / 2, b, c);
    }
  }

  ghost function Inv(a: byte): byte
    requires a != 0
  {
    Power(255 - Log(a))
  }

  lemma MulInv(a: byte)
    requires a != 0
    ensures Inv(a) != 0 && Mul(a, Inv(a)) == 1 && Mul(Inv(a), a) == 1
  {
    PowersOf17();
    PowerNonZero(255 - Log(a));
    PowerAdd(Log(a), 255 - Log(a));
    MulComm(a, Inv(a));
  }

  lemma MulCancel(a: byte, b: byte)
    requires a != 0
    ensures Mul(Inv(a), Mul(a, b)) == b
  {
    MulInv(a);
    MulAssoc(Inv(a), a, b);
    MulComm(1, b);
    MulOne(b);
  }

  // ----- solving a group's equations for its missing members

  /** One missing member: the weighted share gives it back by division. */
  lemma SolveOne(g: byte, d: byte)
    requires g != 0
    ensures Mul(Inv(g), Mul(g, d)) == d
  {
    MulCancel(g, d);
  }

  lemma XorDropCommon(a: nat, b: nat, c: nat)
    ensures Xor(Xor(a, b), Xor(a, c)) == Xor(b, c)
  {
    XorSwap(a, b, a, c);
    XorSelf(a);
  }

  /** Two missing members: whatever `da` and `db` satisfy the two equations, the formula
      `db = (q + ga p) / (ga + gb)`, `da = p + db` returns them, so there is no other
      solution. */
  lemma SolveTwo(ga: byte, gb: byte, da: byte, db: byte, p: byte, q: byte)
    requires ga != gb
    requires p == Xor(da, db) && q == Xor(Mul(ga, da), Mul(gb, db))
    ensures 0 < Xor(ga, gb) < 256 && 0 <= Xor(q, Mul(ga, p)) < 256
    ensures Mul(Inv(Xor(ga, gb)), Xor(q, Mul(ga, p))) == db
    ensures Xor(p, db) == da
  {
    XorCancel(ga, gb);
    XorCancel(da, db);
    XorByte(ga, gb);
    XorByte(q, Mul(ga, p));
    MulAdd(ga, da, db);
    XorDropCommon(Mul(ga, da), Mul(gb, db), Mul(ga, db));
    MulAddLeft(gb, ga, db);
    XorComm(ga, gb);
    MulCancel(Xor(ga, gb), db);
  }

  /** Undoing a division. */
  lemma MulBack(a: byte, b: byte)
    requires a != 0
    ensures Mul(a, Mul(Inv(a), b)) == b
  {
    MulInv(a);
    MulAssoc(a, Inv(a), b);
    OneTimes(b);
  }

  lemma WeightedSum(ga: byte, gb: byte, p: byte, db: byte)
    ensures 0 <= Xor(p, db) < 256 && 0 <= Xor(ga, gb) < 256
    ensures Xor(Mul(ga, Xor(p, db)), Mul(gb, db)) == Xor(Mul(ga, p), Mul(Xor(ga, gb), db))
  {
    XorByte(p, db);
    MulAdd(ga, p, db);
    MulAddLeft(ga, gb, db);
    XorAssoc(Mul(ga, p), Mul(ga, db), Mul(gb, db));
  }

  /** And for every pair of shares the formula's members satisfy both equations: the solution
      exists. */
  lemma SolveTwoExists(ga: byte, gb: byte, p: byte, q: byte, da: byte, db: byte)
    requires ga != gb && 0 < Xor(ga, gb) < 256 && 0 <= Xor(q, Mul(ga, p)) < 256
    requires db == Mul(Inv(Xor(ga, gb)), Xor(q, Mul(ga, p))) && da == Xor(p, db)
    ensures Xor(da, db) == p && Xor(Mul(ga, da), Mul(gb, db)) == q
  {
    XorCancel(p, db);
    WeightedSum(ga, gb, p, db);
    MulBack(Xor(ga, gb), Xor(q, Mul(ga, p)));
    XorComm(q, Mul(ga, p));
    XorCancel(Mul(ga, p), q);
  }

  /** The divisor is a non-zero byte. */
  lemma DivisorNonZero(ga: byte, gb: byte, p: byte, q: byte)
    requires ga != gb
    ensures 0 < Xor(ga, gb) < 256 && 0 <= Xor(q, Mul(ga, p)) < 256
  {
    XorCancel(ga, gb);
    XorByte(ga, gb);
    XorByte(q, Mul(ga, p));
  }
}
