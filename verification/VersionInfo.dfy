/** The version frame's wire format: fixed 36 bytes, extended over time only at the end, so
    that a shorter frame of an older peer still decodes. */
module VersionInfo {
  import opened Bytes

  const VERSION_LEN: nat := 16
  const NAME_LEN: nat := 16
  const NAME_START: nat := VERSION_LEN + 2
  const LIVE_START: nat := NAME_START + NAME_LEN
  const LEN: nat := LIVE_START + 2

  datatype Payload = Payload(version: bytes, tunnelMtu: nat, primaryName: bytes, liveMtu: nat)

  predicate Encodable(v: Payload) {
    |v.version| == VERSION_LEN && |v.primaryName| == NAME_LEN && v.tunnelMtu < 65536 && v.liveMtu < 65536
  }

  function Zeros(n: nat): (z: bytes)
    ensures |z| == n && forall i :: 0 <= i < n ==> z[i] == 0
  {
    seq(n, _ => 0)
  }

  function Encode(v: Payload): (r: bytes)
    requires Encodable(v)
    ensures |r| == LEN
  {
    v.version + U16(v.tunnelMtu) + v.primaryName + U16(v.liveMtu)
  }

  /** The link name's bytes that are there, padded with zeros. */
  function NameOf(b: bytes): (n: bytes)
    ensures |n| == NAME_LEN
  {
    if |b| >= LIVE_START then b[NAME_START..LIVE_START]
    else if |b| > NAME_START then b[NAME_START..] + Zeros(LIVE_START - |b|)
    else Zeros(NAME_LEN)
  }

  function Decode(b: bytes): (r: Option<Payload>)
    ensures r.Some? <==> |b| >= VERSION_LEN
    ensures r.Some? ==> Encodable(r.value)
  {
    if |b| < VERSION_LEN then None
    else
      Some(Payload(b[..VERSION_LEN],
                   if |b| >= NAME_START then Word(b[VERSION_LEN], b[VERSION_LEN + 1]) else 0,
                   NameOf(b),
                   if |b| >= LEN then Word(b[LIVE_START], b[LIVE_START + 1]) else 0))
  }

  /** The bytes of a frame that are used: a lone half of a 16-bit field is not. */
  ghost function Used(n: nat): nat
    requires n >= VERSION_LEN
  {
    if n >= LEN then LEN
    else if n == LEN - 1 then LIVE_START
    else if n == NAME_START - 1 then VERSION_LEN
    else n
  }

  lemma NameBytes(b: bytes, r: bytes, i: nat)
    requires |b| >= VERSION_LEN && |r| == LEN && NAME_START <= i < LIVE_START && r[NAME_START..LIVE_START] == NameOf(b)
    ensures r[i] == if i < |b| then b[i] else 0
  {
    assert r[i] == r[NAME_START..LIVE_START][i - NAME_START];
  }

  lemma EncodeParts(v: Payload)
    requires Encodable(v)
    ensures var r := Encode(v);
            && r[..VERSION_LEN] == v.version && r[NAME_START..LIVE_START] == v.primaryName
            && r[VERSION_LEN] == v.tunnelMtu / 256 && r[VERSION_LEN + 1] == v.tunnelMtu % 256
            && r[LIVE_START] == v.liveMtu / 256 && r[LIVE_START + 1] == v.liveMtu % 256
  {
  }

  lemma SplitWord(high: byte, low: byte)
    ensures Word(high, low) / 256 == high && Word(high, low) % 256 == low
  {
  }

  /** The numbers of a decoded frame, byte by byte. */
  lemma DecodedWords(b: bytes, v: Payload)
    requires |b| >= VERSION_LEN && v == Decode(b).value
    ensures v.tunnelMtu / 256 == (if |b| >= NAME_START then b[VERSION_LEN] else 0)
    ensures v.tunnelMtu % 256 == (if |b| >= NAME_START then b[VERSION_LEN + 1] else 0)
    ensures v.liveMtu / 256 == (if |b| >= LEN then b[LIVE_START] else 0)
    ensures v.liveMtu % 256 == (if |b| >= LEN then b[LIVE_START + 1] else 0)
  {
    if |b| >= NAME_START { SplitWord(b[VERSION_LEN], b[VERSION_LEN + 1]); }
    if |b| >= LEN { SplitWord(b[LIVE_START], b[LIVE_START + 1]); }
  }

  /** Decoding is exact on every frame long enough: it encodes back to the bytes used, zeros
      elsewhere. */
  lemma DecodeExact(b: bytes)
    requires |b| >= VERSION_LEN
    ensures Encode(Decode(b).value) == b[..Used(|b|)] + Zeros(LEN - Used(|b|))
  {
    var v := Decode(b).value;
    var r, e := Encode(v), b[..Used(|b|)] + Zeros(LEN - Used(|b|));
    EncodeParts(v);
    DecodedWords(b, v);
    forall i | 0 <= i < LEN ensures r[i] == e[i] {
      if i < VERSION_LEN {
        assert r[i] == r[..VERSION_LEN][i];
      } else if NAME_START <= i < LIVE_START {
        NameBytes(b, r, i);
      }
    }
  }

  lemma WordJoin(v: nat)
    requires v < 65536
    ensures Word(v / 256, v % 256) == v
  {
  }

  /** Round trip, whatever a newer peer appends. */
  lemma RoundTrip(v: Payload, more: bytes)
    requires Encodable(v)
    ensures Decode(Encode(v) + more) == Some(v)
  {
    EncodeParts(v);
    WordJoin(v.tunnelMtu);
    WordJoin(v.liveMtu);
    var r := Encode(v);
    assert (r + more)[..VERSION_LEN] == r[..VERSION_LEN];
    assert (r + more)[NAME_START..LIVE_START] == r[NAME_START..LIVE_START];
  }

  /** How much of the link name a frame of `n` bytes holds. */
  ghost function NameHeld(n: nat): nat {
    if n <= NAME_START then 0 else if n >= LIVE_START then NAME_LEN else n - NAME_START
  }

  lemma ShortName(v: Payload, n: nat)
    requires Encodable(v) && VERSION_LEN <= n <= LEN
    ensures var k := NameHeld(n); NameOf(Encode(v)[..n]) == v.primaryName[..k] + Zeros(NAME_LEN - k)
  {
    EncodeParts(v);
    var r, k := Encode(v), NameHeld(n);
    forall i | 0 <= i < k ensures r[NAME_START + i] == v.primaryName[i] {
      assert r[NAME_START..LIVE_START][i] == v.primaryName[i];
    }
  }

  /** A frame cut short keeps the version and as much of the link name as it holds, padded with
      zeros; a number that is cut off reads as unknown. */
  lemma ShortFrame(v: Payload, n: nat)
    requires Encodable(v) && VERSION_LEN <= n <= LEN
    ensures var d, k := Decode(Encode(v)[..n]), NameHeld(n);
            && d.Some? && d.value.version == v.version
            && d.value.primaryName == v.primaryName[..k] + Zeros(NAME_LEN - k)
            && d.value.tunnelMtu == (if n >= NAME_START then v.tunnelMtu else 0)
            && d.value.liveMtu == (if n >= LEN then v.liveMtu else 0)
  {
    EncodeParts(v);
    ShortName(v, n);
    WordJoin(v.tunnelMtu);
    WordJoin(v.liveMtu);
    assert Encode(v)[..n][..VERSION_LEN] == Encode(v)[..VERSION_LEN];
  }

  // ----- the buffers filled in place

  method EncodeInto(v: Payload) returns (out: array<byte>)
    requires Encodable(v)
    ensures fresh(out) && out[..] == Encode(v)
  {
    out := new byte[LEN](_ => 0);
    CopyInto(out, 0, v.version);
    CopyInto(out, VERSION_LEN, U16(v.tunnelMtu));
    CopyInto(out, NAME_START, v.primaryName);
    CopyInto(out, LIVE_START, U16(v.liveMtu));
  }

  method CopyInto(out: array<byte>, at: nat, from: bytes)
    requires at + |from| <= out.Length
    modifies out
    ensures out[..] == old(out[..at]) + from + old(out[at + |from|..])
  {
    for i := 0 to |from|
      invariant out[..at + i] == old(out[..at]) + from[..i] && out[at + i..] == old(out[at + i..])
    {
      out[at + i] := from[i];
    }
  }
}
