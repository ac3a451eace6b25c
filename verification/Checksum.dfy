/** The Internet checksum of RFC 1071: the one's complement of the one's complement sum of
    16-bit big-endian words. */
module Checksum {
  import opened Bytes

  const WORD: nat := 65536
  const ONES: nat := 65535

  /** A byte's share of the sum: high half of its word at even offsets, low half at odd. */
  function Weighed(i: nat, b: byte): nat {
    if i % 2 == 0 then 256 * b else b
  }

  /** The sum of the first `n` bytes' words; an odd last byte is padded with a zero. */
  function Sum(b: bytes, n: nat): nat
    requires n <= |b|
  {
    if n == 0 then 0 else Sum(b, n - 1) + Weighed(n - 1, b[n - 1])
  }

  /** Carries added back in until 16 bits are left. */
  function Folded(s: nat): (r: nat)
    ensures r < WORD
    decreases s
  {
    if s < WORD then s else Folded(s % WORD + s / WORD)
  }

  function Internet(b: bytes): (c: nat)
    ensures c < WORD
  {
    ONES - Folded(Sum(b, |b|))
  }

  /** A receiver accepts data with its checksum in place when the whole sums to all ones. */
  predicate Verifies(b: bytes) {
    Internet(b) == 0
  }

  /** Folding keeps the value modulo 65535 and whether it is zero. */
  lemma {:induction false} FoldedMod(s: nat)
    ensures Folded(s) % ONES == s % ONES && (Folded(s) == 0 <==> s == 0)
    decreases s
  {
    if s >= WORD {
      FoldedMod(s % WORD + s / WORD);
      FoldOnce(s, s / WORD, s % WORD);
    }
  }

  lemma FoldOnce(s: nat, q: nat, r: nat)
    requires s == q * WORD + r
    ensures s % ONES == (r + q) % ONES
  {
    assert s == q * ONES + (r + q);
    Shift(r + q, q);
  }

  lemma {:induction false} Shift(x: nat, k: nat)
    ensures (k * ONES + x) % ONES == x % ONES
  {
    if k > 0 {
      Shift(x, k - 1);
      assert k * ONES + x == ((k - 1) * ONES + x) + ONES;
    }
  }

  /** The exact condition for acceptance. */
  lemma VerifiesIff(b: bytes)
    ensures Verifies(b) <==> Sum(b, |b|) > 0 && Sum(b, |b|) % ONES == 0
  {
    FoldedMod(Sum(b, |b|));
  }

  lemma {:induction false} SumUpdate(b: bytes, n: nat, i: nat, v: byte)
    requires n <= |b| && i < |b|
    ensures Sum(b[i := v], n) == Sum(b, n) + if i < n then Weighed(i, v) - Weighed(i, b[i]) else 0
  {
    if n > 0 {
      SumUpdate(b, n - 1, i, v);
    }
  }

  lemma {:induction false} SumBounded(b: bytes, n: nat)
    requires n <= |b|
    ensures Sum(b, n) <= 65280 * n
  {
    if n > 0 {
      SumBounded(b, n - 1);
    }
  }

  /** For the largest packet with its pseudo-header a 32-bit accumulator never overflows. */
  lemma SumFits(b: bytes)
    requires |b| <= 65535 + 40
    ensures Sum(b, |b|) < 0x1_0000_0000
  {
    SumBounded(b, |b|);
  }

  /** A 16-bit value stored big-endian. */
  function Put(b: bytes, k: nat, v: nat): (r: bytes)
    requires k + 1 < |b| && v < WORD
    ensures |r| == |b|
  {
    b[k := v / 256][k + 1 := v % 256]
  }

  function Get(b: bytes, k: nat): (v: nat)
    requires k + 1 < |b|
    ensures v < WORD
  {
    Word(b[k], b[k + 1])
  }

  lemma SumPut(b: bytes, k: nat, v: nat)
    requires k + 1 < |b| && v < WORD && k % 2 == 0 && b[k] == 0 && b[k + 1] == 0
    ensures Sum(Put(b, k, v), |b|) == Sum(b, |b|) + v
  {
    SumUpdate(b, |b|, k, v / 256);
    SumUpdate(b[k := v / 256], |b|, k + 1, v % 256);
  }

  /** Computing the checksum over a zeroed field and storing it there makes the whole verify. */
  lemma StoredVerifies(b: bytes, k: nat)
    requires k + 1 < |b| && k % 2 == 0 && b[k] == 0 && b[k + 1] == 0
    ensures Verifies(Put(b, k, Internet(b)))
  {
    var s := Sum(b, |b|);
    SumPut(b, k, Internet(b));
    FoldedMod(s);
    Complement(s, Folded(s));
    VerifiesIff(Put(b, k, Internet(b)));
  }

  lemma PutTwice(b: bytes, k: nat, v: nat, w: nat)
    requires k + 1 < |b| && v < WORD && w < WORD
    ensures Put(Put(b, k, v), k, w) == Put(b, k, w)
  {
  }

  /** Whatever the field held before. */
  lemma SealVerifies(b: bytes, k: nat)
    requires k + 1 < |b| && k % 2 == 0
    ensures Verifies(Put(b, k, Internet(Put(b, k, 0))))
  {
    StoredVerifies(Put(b, k, 0), k);
    PutTwice(b, k, 0, Internet(Put(b, k, 0)));
  }

  lemma Complement(s: nat, f: nat)
    requires f < WORD && f % ONES == s % ONES && (f == 0 <==> s == 0)
    ensures s + (ONES - f) > 0 && (s + (ONES - f)) % ONES == 0
  {
    var q := s / ONES;
    var r := s % ONES;
    assert s == q * ONES + r;
    if f == ONES {
      Shift(0, q);
    } else {
      Shift(ONES, q);
    }
  }

  lemma SumPair(b: bytes, i: nat)
    requires i + 2 <= |b| && i % 2 == 0
    ensures Sum(b, i + 2) == Sum(b, i) + Word(b[i], b[i + 1])
  {
    assert Sum(b, i + 1) == Sum(b, i) + Weighed(i, b[i]);
  }

  lemma SumOdd(b: bytes)
    requires |b| % 2 == 1
    ensures Sum(b, |b|) == Sum(b, |b| - 1) + Word(b[|b| - 1], 0)
  {
  }

  /** The checksum loop: words, then an odd last byte, then the carries. */
  method Compute(b: bytes) returns (c: nat)
    ensures c == Internet(b)
  {
    var sum: nat, i: nat := 0, 0;
    while i + 1 < |b|
      invariant i <= |b| && i % 2 == 0 && sum == Sum(b, i)
    {
      SumPair(b, i);
      sum := sum + Word(b[i], b[i + 1]);
      i := i + 2;
    }
    if i < |b| {
      SumOdd(b);
      sum := sum + Word(b[i], 0);
    }
    var s: nat := sum;
    while s >= WORD
      invariant Folded(s) == Folded(sum)
    {
      s := s % WORD + s / WORD;
    }
    c := ONES - s;
  }
}
