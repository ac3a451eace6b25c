/** The wire form of a parity share: member count, sequence numbers, lengths, parity length,
    parity. Numbers are big-endian. */
module FecCodec {
  import opened Bytes
  import opened Common
  import opened FecGroup

  const SEQ_BYTES: nat := 8
  const LEN_BYTES: nat := 2

  datatype Result<+T> = Ok(value: T) | Err

  function Limit(w: nat): (p: nat)
    ensures p > 0
  {
    if w == 0 then 1 else 256 * Limit(w - 1)
  }

  /** The low `w` bytes of `n`. */
  function Be(n: nat, w: nat): (r: bytes)
    ensures |r| == w
    decreases w
  {
    if w == 0 then [] else Be(n / 256, w - 1) + [n % 256]
  }

  function FromBe(b: bytes): nat {
    if b == [] then 0 else 256 * FromBe(b[..|b| - 1]) + b[|b| - 1]
  }

  lemma {:induction false} FromBeOfBe(n: nat, w: nat)
    requires n < Limit(w)
    ensures FromBe(Be(n, w)) == n
    decreases w
  {
    if w > 0 {
      FromBeOfBe(n / 256, w - 1);
      assert Be(n, w)[..w - 1] == Be(n / 256, w - 1);
    }
  }

  lemma {:induction false} BeOfFromBe(b: bytes)
    ensures Be(FromBe(b), |b|) == b && FromBe(b) < Limit(|b|)
  {
    if b != [] {
      BeOfFromBe(b[..|b| - 1]);
    }
  }

  // ----- sequences of fixed-width numbers

  /** The bytes taken by `count` numbers of width `w`. */
  function Span(count: nat, w: nat): nat {
    if count == 0 then 0 else w + Span(count - 1, w)
  }

  function Pack(xs: seq<nat>, w: nat): (r: bytes)
    ensures |r| == Span(|xs|, w)
  {
    if xs == [] then [] else Be(xs[0], w) + Pack(xs[1..], w)
  }

  /** `count` numbers of width `w` from the front of `buf`. */
  function Unpack(buf: bytes, count: nat, w: nat): (r: seq<nat>)
    requires Span(count, w) <= |buf|
    ensures |r| == count
    decreases count
  {
    if count == 0 then [] else [FromBe(buf[..w])] + Unpack(buf[w..], count - 1, w)
  }

  lemma Front(a: bytes, b: bytes)
    ensures (a + b)[..|a|] == a && (a + b)[|a|..] == b
  {
  }

  lemma {:induction false} UnpackOfPack(xs: seq<nat>, post: bytes, w: nat)
    requires forall i :: 0 <= i < |xs| ==> xs[i] < Limit(w)
    ensures Unpack(Pack(xs, w) + post, |xs|, w) == xs
    decreases |xs|
  {
    if xs != [] {
      var first, rest := Be(xs[0], w), Pack(xs[1..], w);
      Associative(first, rest, post);
      Front(first, rest + post);
      FromBeOfBe(xs[0], w);
      UnpackOfPack(xs[1..], post, w);
    }
  }

  lemma {:induction false} PackOfUnpack(buf: bytes, count: nat, w: nat)
    requires Span(count, w) <= |buf|
    ensures Pack(Unpack(buf, count, w), w) == buf[..Span(count, w)]
    ensures forall i :: 0 <= i < count ==> Unpack(buf, count, w)[i] < Limit(w)
    decreases count
  {
    if count > 0 {
      var rest := buf[w..];
      PackOfUnpack(rest, count - 1, w);
      BeOfFromBe(buf[..w]);
      var xs := Unpack(buf, count, w);
      assert xs[1..] == Unpack(rest, count - 1, w);
      assert buf[..w] + rest[..Span(count - 1, w)] == buf[..Span(count, w)];
    }
  }

  lemma LenLimit()
    ensures Limit(LEN_BYTES) == 65536
  {
  }

  // ----- shares

  /** The fields in order. */
  function Fields(n: byte, seqs: bytes, lens: bytes, width: bytes, rest: bytes): bytes {
    [n] + (seqs + (lens + (width + rest)))
  }

  /** The encoding of `p`, followed by `trailing`. */
  function EncodeWith(p: ParityData, trailing: bytes): bytes {
    Fields(|p.seqs| % 256, Pack(p.seqs, SEQ_BYTES), Pack(p.lens, LEN_BYTES), Be(|p.parity| % 65536, LEN_BYTES), p.parity + trailing)
  }

  lemma EncodeFields(p: ParityData, trailing: bytes)
    requires |p.seqs| <= 255 && |p.parity| < 65536
    ensures EncodeWith(p, trailing)
         == Fields(|p.seqs|, Pack(p.seqs, SEQ_BYTES), Pack(p.lens, LEN_BYTES), Be(|p.parity|, LEN_BYTES), p.parity + trailing)
  {
    assert |p.seqs| % 256 == |p.seqs|;
    assert |p.parity| % 65536 == |p.parity|;
  }

  function Encode(p: ParityData): bytes {
    EncodeWith(p, [])
  }

  /** Decoding, field by field: each field is cut off the front once it is known to be there. */
  function Decode(buf: bytes): (r: Result<WireParity>) {
    if buf == [] then Err else DecodeSeqs(buf[0], buf[1..])
  }

  function DecodeSeqs(n: byte, buf: bytes): (r: Result<WireParity>) {
    if |buf| < Span(n, SEQ_BYTES) + Span(n, LEN_BYTES) + LEN_BYTES then Err
    else DecodeLens(Unpack(buf, n, SEQ_BYTES), buf[Span(n, SEQ_BYTES)..])
  }

  function DecodeLens(seqs: seq<nat>, buf: bytes): (r: Result<WireParity>)
    requires |seqs| <= 255 && |buf| >= Span(|seqs|, LEN_BYTES) + LEN_BYTES
  {
    DecodeParity(seqs, Unpack(buf, |seqs|, LEN_BYTES), buf[Span(|seqs|, LEN_BYTES)..])
  }

  function DecodeParity(seqs: seq<nat>, lens: seq<nat>, buf: bytes): (r: Result<WireParity>)
    requires |seqs| <= 255 && |buf| >= LEN_BYTES
  {
    var n := FromBe(buf[..LEN_BYTES]);
    if |buf| < LEN_BYTES + n then Err else Ok(Parity(seqs, lens, buf[LEN_BYTES..LEN_BYTES + n]))
  }

  /** What the field widths can carry. */
  ghost predicate Encodable(p: ParityData) {
    && |p.seqs| == |p.lens| <= 255
    && |p.parity| < 65536
    && (forall i :: 0 <= i < |p.seqs| ==> p.seqs[i] < Limit(SEQ_BYTES))
    && (forall i :: 0 <= i < |p.lens| ==> p.lens[i] < Limit(LEN_BYTES))
  }

  lemma DecodeParityOf(p: ParityData, trailing: bytes, width: bytes)
    requires |p.seqs| <= 255 && |width| == LEN_BYTES && FromBe(width) == |p.parity|
    ensures DecodeParity(p.seqs, p.lens, width + (p.parity + trailing)) == Ok(p)
  {
    Front(width, p.parity + trailing);
    Front(p.parity, trailing);
    var buf := width + (p.parity + trailing);
    assert buf[LEN_BYTES..LEN_BYTES + |p.parity|] == buf[LEN_BYTES..][..|p.parity|];
  }

  lemma DecodeLensOf(p: ParityData, tail: bytes)
    requires Encodable(p) && |tail| >= LEN_BYTES
    ensures DecodeLens(p.seqs, Pack(p.lens, LEN_BYTES) + tail) == DecodeParity(p.seqs, p.lens, tail)
  {
    Front(Pack(p.lens, LEN_BYTES), tail);
    UnpackOfPack(p.lens, tail, LEN_BYTES);
  }

  lemma DecodeSeqsOf(p: ParityData, tail: bytes)
    requires Encodable(p) && |tail| >= Span(|p.lens|, LEN_BYTES) + LEN_BYTES
    ensures DecodeSeqs(|p.seqs|, Pack(p.seqs, SEQ_BYTES) + tail) == DecodeLens(p.seqs, tail)
  {
    Front(Pack(p.seqs, SEQ_BYTES), tail);
    UnpackOfPack(p.seqs, tail, SEQ_BYTES);
  }

  lemma DecodeCount(n: byte, body: bytes)
    ensures Decode([n] + body) == DecodeSeqs(n, body)
  {
    Front([n], body);
  }

  lemma DecodeBody(p: ParityData, trailing: bytes, width: bytes)
    requires Encodable(p) && |width| == LEN_BYTES && FromBe(width) == |p.parity|
    ensures DecodeSeqs(|p.seqs|, Pack(p.seqs, SEQ_BYTES) + (Pack(p.lens, LEN_BYTES) + (width + (p.parity + trailing)))) == Ok(p)
  {
    var b3 := width + (p.parity + trailing);
    DecodeSeqsOf(p, Pack(p.lens, LEN_BYTES) + b3);
    DecodeLensOf(p, b3);
    DecodeParityOf(p, trailing, width);
  }

  /** Every share that fits the field widths survives the wire, whatever follows it. */
  lemma RoundTrip(p: ParityData, trailing: bytes)
    requires Encodable(p)
    ensures Decode(EncodeWith(p, trailing)) == Ok(p)
  {
    EncodeFields(p, trailing);
    LenLimit();
    FromBeOfBe(|p.parity|, LEN_BYTES);
    DecodeBody(p, trailing, Be(|p.parity|, LEN_BYTES));
    DecodeCount(|p.seqs|, Pack(p.seqs, SEQ_BYTES) + (Pack(p.lens, LEN_BYTES) + (Be(|p.parity|, LEN_BYTES) + (p.parity + trailing))));
  }

  // ----- decoding never invents anything

  lemma Split(buf: bytes, k: nat)
    requires k <= |buf|
    ensures buf[..k] + buf[k..] == buf
  {
  }

  lemma ParityExact(seqs: seq<nat>, lens: seq<nat>, buf: bytes) returns (t: bytes)
    requires |seqs| <= 255 && |buf| >= LEN_BYTES && DecodeParity(seqs, lens, buf).Ok?
    ensures var p := DecodeParity(seqs, lens, buf).value;
            && p.seqs == seqs && p.lens == lens && |p.parity| < 65536
            && buf == Be(|p.parity|, LEN_BYTES) + (p.parity + t)
  {
    var n := FromBe(buf[..LEN_BYTES]);
    LenLimit();
    BeOfFromBe(buf[..LEN_BYTES]);
    Split(buf, LEN_BYTES);
    Split(buf[LEN_BYTES..], n);
    assert buf[LEN_BYTES..][..n] == buf[LEN_BYTES..LEN_BYTES + n];
    t := buf[LEN_BYTES..][n..];
  }

  lemma FieldExact(buf: bytes, count: nat, w: nat)
    requires Span(count, w) <= |buf|
    ensures buf == Pack(Unpack(buf, count, w), w) + buf[Span(count, w)..]
    ensures forall i :: 0 <= i < count ==> Unpack(buf, count, w)[i] < Limit(w)
  {
    PackOfUnpack(buf, count, w);
    Split(buf, Span(count, w));
  }

  lemma LensExact(seqs: seq<nat>, buf: bytes) returns (t: bytes)
    requires |seqs| <= 255 && |buf| >= Span(|seqs|, LEN_BYTES) + LEN_BYTES && DecodeLens(seqs, buf).Ok?
    ensures var p := DecodeLens(seqs, buf).value;
            && p.seqs == seqs && |p.lens| == |seqs| && |p.parity| < 65536
            && (forall i :: 0 <= i < |p.lens| ==> p.lens[i] < Limit(LEN_BYTES))
            && buf == Pack(p.lens, LEN_BYTES) + (Be(|p.parity|, LEN_BYTES) + (p.parity + t))
  {
    FieldExact(buf, |seqs|, LEN_BYTES);
    t := ParityExact(seqs, Unpack(buf, |seqs|, LEN_BYTES), buf[Span(|seqs|, LEN_BYTES)..]);
  }

  lemma SeqsExact(n: byte, buf: bytes) returns (t: bytes)
    requires DecodeSeqs(n, buf).Ok?
    ensures var p := DecodeSeqs(n, buf).value;
            && Encodable(p) && |p.seqs| == n
            && buf == Pack(p.seqs, SEQ_BYTES) + (Pack(p.lens, LEN_BYTES) + (Be(|p.parity|, LEN_BYTES) + (p.parity + t)))
  {
    FieldExact(buf, n, SEQ_BYTES);
    t := LensExact(Unpack(buf, n, SEQ_BYTES), buf[Span(n, SEQ_BYTES)..]);
  }

  /** What is accepted is an encoding of the result, plus trailing bytes. */
  lemma DecodeExact(buf: bytes) returns (trailing: bytes)
    requires Decode(buf).Ok?
    ensures Encodable(Decode(buf).value) && buf == EncodeWith(Decode(buf).value, trailing)
  {
    trailing := SeqsExact(buf[0], buf[1..]);
    Split(buf, 1);
    EncodeFields(Decode(buf).value, trailing);
  }

  // ----- the encoding and decoding loops

  lemma {:induction false} PackLast(xs: seq<nat>, x: nat, w: nat)
    ensures Pack(xs + [x], w) == Pack(xs, w) + Be(x, w)
    decreases |xs|
  {
    if xs == [] {
      assert [] + [x] == [x] && [x][1..] == [] && Be(x, w) + [] == [] + Be(x, w);
    } else {
      assert (xs + [x])[1..] == xs[1..] + [x];
      PackLast(xs[1..], x, w);
      Associative(Be(xs[0], w), Pack(xs[1..], w), Be(x, w));
    }
  }

  /** Append numbers one by one. */
  method AppendAll(start: bytes, xs: seq<nat>, w: nat) returns (out: bytes)
    ensures out == start + Pack(xs, w)
  {
    out := start;
    assert start + [] == start;
    for i := 0 to |xs|
      invariant out == start + Pack(xs[..i], w)
    {
      assert xs[..i + 1] == xs[..i] + [xs[i]];
      PackLast(xs[..i], xs[i], w);
      Associative(start, Pack(xs[..i], w), Be(xs[i], w));
      out := out + Be(xs[i], w);
    }
    assert xs[..|xs|] == xs;
  }

  method EncodeParity(p: ParityData) returns (out: bytes)
    ensures out == Encode(p)
  {
    var n, width := |p.seqs| % 256, Be(|p.parity| % 65536, LEN_BYTES);
    out := AppendAll([n], p.seqs, SEQ_BYTES);
    out := AppendAll(out, p.lens, LEN_BYTES);
    out := out + width + p.parity;
    FieldsJoin(n, Pack(p.seqs, SEQ_BYTES), Pack(p.lens, LEN_BYTES), width, p.parity);
  }

  lemma FieldsJoin(n: byte, seqs: bytes, lens: bytes, width: bytes, parity: bytes)
    ensures [n] + seqs + lens + width + parity == Fields(n, seqs, lens, width, parity + [])
  {
    assert parity + [] == parity;
    Associative([n] + seqs + lens, width, parity);
    Associative([n] + seqs, lens, width + parity);
    Associative([n], seqs, lens + (width + parity));
  }

  lemma RestOfRest(buf: bytes, at: nat, w: nat)
    requires at + w <= |buf|
    ensures buf[at..][..w] == buf[at..at + w] && buf[at..][w..] == buf[at + w..]
  {
  }

  /** Read numbers one by one, each at its own offset. */
  method ReadAll(buf: bytes, count: nat, w: nat) returns (xs: seq<nat>)
    requires Span(count, w) <= |buf|
    ensures xs == Unpack(buf, count, w)
  {
    xs := [];
    var at := 0;
    assert buf[0..] == buf;
    for i := 0 to count
      invariant 0 <= at <= |buf| && Span(count - i, w) <= |buf[at..]|
      invariant xs + Unpack(buf[at..], count - i, w) == Unpack(buf, count, w)
    {
      RestOfRest(buf, at, w);
      xs := xs + [FromBe(buf[at..at + w])];
      at := at + w;
    }
  }

  method DecodeShare(buf: bytes) returns (r: Result<WireParity>)
    ensures r == Decode(buf)
  {
    if buf == [] {
      return Err;
    }
    var n := buf[0];
    var seqsLen, lensLen := Span(n, SEQ_BYTES), Span(n, LEN_BYTES);
    var body := buf[1..];
    if |body| < seqsLen + lensLen + LEN_BYTES {
      return Err;
    }
    var seqs := ReadAll(body, n, SEQ_BYTES);
    var lens := ReadAll(body[seqsLen..], n, LEN_BYTES);
    var tail := body[seqsLen..][lensLen..];
    var parityLen := FromBe(tail[..LEN_BYTES]);
    if |tail| < LEN_BYTES + parityLen {
      return Err;
    }
    r := Ok(Parity(seqs, lens, tail[LEN_BYTES..LEN_BYTES + parityLen]));
  }
}
