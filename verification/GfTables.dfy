/** The lookup tables of the source and the in-place loops that use them, each proved to
    compute the reference arithmetic of `Gf`. */
module GfTables {
  import opened Bytes
  import opened Gf

  /** The static exponent, logarithm and product tables. */
  datatype Tables = Tables(exp: bytes, log: bytes, mul: bytes) {
    ghost predicate Valid() {
      && |exp| == 512 && |log| == 256 && |mul| == 65536
      && ExpLogValid(exp, log)
      && forall k :: 0 <= k < 65536 ==> mul[k] == Mul(k / 256, k % 256)
    }
  }

  ghost predicate ExpLogValid(exp: bytes, log: bytes)
    requires |exp| == 512 && |log| == 256
  {
    && (forall i :: 0 <= i < 512 ==> exp[i] == Power(i % 255))
    && (forall x: byte :: x != 0 ==> log[x] == Log(x))
  }

  ghost predicate IsOrbit(p: bytes) {
    && |p| == 255 && p[0] == 1
    && (forall k :: 0 <= k < 254 ==> p[k + 1] == Xtime(p[k]))
    && (forall k, l :: 0 <= k < l < 255 ==> p[k] != p[l])
    && forall k :: 0 <= k < 255 ==> p[k] != 0
  }

  ghost function Powers(n: nat): (p: bytes)
    ensures |p| == n
  {
    seq(n, i requires i >= 0 => Power(i))
  }

  lemma PowersAreOrbit()
    ensures IsOrbit(Powers(255))
  {
    forall k, l | 0 <= k < l < 255 ensures Powers(255)[k] != Powers(255)[l] {
      PowerDistinct(k, l);
    }
    forall k | 0 <= k < 255 ensures Powers(255)[k] != 0 {
      PowerNonZero(k);
    }
  }

  /** The doubling loop: each step's value, and the step at which each value is found. */
  method FillTables(exp: array<byte>, log: array<byte>, ghost p: bytes)
    requires exp != log && exp.Length == 512 && log.Length == 256
    requires IsOrbit(p)
    modifies exp, log
    ensures forall k :: 0 <= k < 255 ==> exp[k] == p[k]
    ensures forall k :: 0 <= k < 255 ==> log[p[k]] == k
    ensures log[0] == old(log[0])
  {
    var x, i := 1, 0;
    while i < 255
      invariant 0 <= i <= 255 && 0 <= x < 256 && (i < 255 ==> x == p[i])
      invariant forall k :: 0 <= k < i ==> exp[k] == p[k]
      invariant forall k :: 0 <= k < i ==> log[p[k]] == k
      invariant log[0] == old(log[0])
    {
      ghost var y := Xtime(x);
      exp[i] := x;
      log[x] := i;
      x := 2 * x;
      if x >= 256 {
        x := Xor(x, 0x11d);
      }
      assert x == y;
      i := i + 1;
    }
  }

  method DoubleExp(exp: array<byte>)
    requires exp.Length == 512
    modifies exp
    ensures forall k :: 0 <= k < 512 ==> exp[k] == old(exp[k % 255])
  {
    var j := 255;
    while j < 512
      invariant 255 <= j <= 512
      invariant forall k :: 0 <= k < j ==> exp[k] == old(exp[k % 255])
    {
      exp[j] := exp[j - 255];
      j := j + 1;
    }
  }

  lemma LogFromOrbit(log: bytes)
    requires |log| == 256
    requires forall k :: 0 <= k < 255 ==> log[Powers(255)[k]] == k
    ensures forall x: byte :: x != 0 ==> log[x] == Log(x)
  {
    forall x: byte | x != 0 ensures log[x] == Log(x) {
      assert Powers(255)[Log(x)] == x;
    }
  }

  method BuildTables() returns (exp: array<byte>, log: array<byte>)
    ensures fresh(exp) && fresh(log) && exp.Length == 512 && log.Length == 256
    ensures ExpLogValid(exp[..], log[..])
  {
    exp := new byte[512](_ => 0);
    log := new byte[256](_ => 0);
    PowersAreOrbit();
    FillTables(exp, log, Powers(255));
    DoubleExp(exp);
    LogFromOrbit(log[..]);
  }

  /** Exponents may be reduced modulo the order. */
  lemma PowerMod(i: nat)
    ensures Power(i % 255) == Power(i)
  {
    PowersOf17();
    PowerReduce(i, 255, i / 255, i % 255);
  }

  lemma PowerReduce(i: nat, n: nat, q: nat, r: nat)
    requires Power(n) == 1 && i == n * q + r
    ensures Power(i) == Power(r)
  {
    PowerTimes(n, q, n * q);
    PowerPlusPeriod(r, n * q, i);
  }

  function MulSlow(exp: bytes, log: bytes, a: byte, b: byte): (r: byte)
    requires |exp| == 512 && |log| == 256 && ExpLogValid(exp, log)
    ensures r == Mul(a, b)
  {
    MulZero(a);
    MulZero(b);
    if a == 0 || b == 0 then 0
    else
      PowerMod(Log(a) + Log(b));
      PowerAdd(Log(a), Log(b));
      exp[log[a] as int + log[b] as int]
  }

  function Pow2Table(t: Tables, i: nat): (r: byte)
    requires t.Valid()
    ensures r == Power(i)
  {
    PowerMod(i);
    t.exp[i % 255]
  }

  function InvTable(t: Tables, a: byte): (r: byte)
    requires t.Valid() && a != 0
    ensures r == Inv(a)
  {
    PowerMod(255 - Log(a));
    t.exp[255 - t.log[a]]
  }

  /** The first `n` entries are products, the others still zero. */
  ghost predicate Filled(t: bytes, n: nat)
    requires |t| == 65536
  {
    && (forall k :: 0 <= k < n && k < |t| ==> t[k] == Mul(k / 256, k % 256))
    && forall k :: n <= k < |t| ==> t[k] == 0
  }

  lemma FilledNext(t: bytes, t': bytes, c: nat, x: nat)
    requires |t| == 65536 && 0 < c < 256 && 0 < x < 256 && Filled(t, 256 * c + x)
    requires t' == t[256 * c + x := Mul(c, x)]
    ensures Filled(t', 256 * c + x + 1)
  {
    RowIndex(c, x);
  }

  lemma RowIndex(c: nat, x: nat)
    requires x < 256
    ensures (256 * c + x) / 256 == c && (256 * c + x) % 256 == x
  {
  }

  /** A row starts with a zero. */
  lemma FilledZero(t: bytes, c: nat)
    requires |t| == 65536 && 0 < c < 256 && Filled(t, 256 * c)
    ensures Filled(t, 256 * c + 1)
  {
    RowIndex(c, 0);
    MulZero(c);
  }

  /** One row: the entry for zero is already there. */
  method MulRow(exp: bytes, log: bytes, t: array<byte>, c: nat)
    requires |exp| == 512 && |log| == 256 && ExpLogValid(exp, log)
    requires t.Length == 65536 && 0 < c < 256 && Filled(t[..], 256 * c)
    modifies t
    ensures Filled(t[..], 256 * (c + 1))
  {
    FilledZero(t[..], c);
    var x := 1;
    while x < 256
      invariant 1 <= x <= 256 && Filled(t[..], 256 * c + x)
    {
      ghost var before := t[..];
      t[256 * c + x] := MulSlow(exp, log, c, x);
      assert t[..] == before[256 * c + x := Mul(c, x)];
      FilledNext(before, t[..], c, x);
      x := x + 1;
    }
  }

  /** The 64 KiB product table, one row per coefficient. */
  method MulTable(exp: bytes, log: bytes) returns (t: array<byte>)
    requires |exp| == 512 && |log| == 256 && ExpLogValid(exp, log)
    ensures fresh(t) && t.Length == 65536
    ensures forall k :: 0 <= k < 65536 ==> t[k] == Mul(k / 256, k % 256)
  {
    t := new byte[65536](_ => 0);
    forall k | 0 <= k < 256 ensures Mul(k / 256, k % 256) == 0 {
      MulZero(k % 256);
    }
    var c := 1;
    while c < 256
      invariant 1 <= c <= 256 && Filled(t[..], 256 * c)
    {
      MulRow(exp, log, t, c);
      c := c + 1;
    }
  }

  /** All tables, as the static initialisers leave them. */
  method InitTables() returns (t: Tables)
    ensures t.Valid()
  {
    var exp, log := BuildTables();
    var mul := MulTable(exp[..], log[..]);
    t := Tables(exp[..], log[..], mul[..]);
  }

  // ----- byte-vector operations

  /** `dst[i] ^= coef * src[i]`. */
  function Accumulated(dst: bytes, src: bytes, coef: byte): (r: bytes)
    requires |src| <= |dst|
    ensures |r| == |dst|
  {
    seq(|dst|, i requires 0 <= i < |dst| =>
      if i < |src| then Add(dst[i], Mul(coef, src[i])) else dst[i])
  }

  function Scaled(dst: bytes, coef: byte): (r: bytes)
    ensures |r| == |dst|
  {
    seq(|dst|, i requires 0 <= i < |dst| => Mul(coef, dst[i]))
  }

  /** One lookup in the product table. */
  function Product(t: Tables, coef: byte, x: byte): (r: byte)
    requires t.Valid()
    ensures r == Mul(coef, x)
  {
    t.mul[coef as int * 256 + x as int]
  }

  method MulAcc(t: Tables, dst: array<byte>, src: bytes, coef: byte)
    requires t.Valid() && |src| <= dst.Length
    modifies dst
    ensures dst[..] == Accumulated(old(dst[..]), src, coef)
  {
    if coef == 0 {
      forall i | 0 <= i < |src| ensures Mul(0, src[i]) == 0 {
        MulZero(src[i]);
      }
      return;
    }
    var i := 0;
    while i < |src|
      invariant 0 <= i <= |src|
      invariant forall k :: 0 <= k < i ==> dst[k] == Accumulated(old(dst[..]), src, coef)[k]
      invariant forall k :: i <= k < dst.Length ==> dst[k] == old(dst[k])
    {
      dst[i] := Add(dst[i], Product(t, coef, src[i]));
      i := i + 1;
    }
  }

  method Scale(t: Tables, dst: array<byte>, coef: byte)
    requires t.Valid()
    modifies dst
    ensures dst[..] == Scaled(old(dst[..]), coef)
  {
    var i := 0;
    while i < dst.Length
      invariant 0 <= i <= dst.Length
      invariant forall k :: 0 <= k < i ==> dst[k] == Mul(coef, old(dst[k]))
      invariant forall k :: i <= k < dst.Length ==> dst[k] == old(dst[k])
    {
      dst[i] := Product(t, coef, dst[i]);
      i := i + 1;
    }
  }

  /** Plain exclusive-or is accumulation with coefficient one. */
  method XorInto(dst: array<byte>, src: bytes)
    requires |src| <= dst.Length
    modifies dst
    ensures dst[..] == Accumulated(old(dst[..]), src, 1)
  {
    var i := 0;
    while i < |src|
      invariant 0 <= i <= |src|
      invariant forall k :: 0 <= k < i ==> dst[k] == Accumulated(old(dst[..]), src, 1)[k]
      invariant forall k :: i <= k < dst.Length ==> dst[k] == old(dst[k])
    {
      OneTimes(src[i]);
      dst[i] := Add(dst[i], src[i]);
      i := i + 1;
    }
  }
}
