/** The clamp on packets built from their fields: exactly the TCP packets with SYN set whose MSS
    option exceeds the MTU less both headers change, and they become the same build with the
    smaller option and a fresh checksum. */
module MssPackets {
  import opened Bytes
  import opened Checksum
  import opened Mss

  // ----- packets from fields

  datatype Flags = Flags(cwr: bool, ece: bool, urg: bool, ack: bool, psh: bool, rst: bool, syn: bool, fin: bool)

  /** A TCP segment. `before` are the options in front of the MSS option, `after` is whatever
      stands behind it in the header. */
  datatype Segment = Segment(
    ports: bytes, numbers: bytes, reserved: nat, flags: Flags, window: bytes, checksum: nat, urgent: bytes,
    before: seq<Opt>, mss: Option<nat>, after: bytes, payload: bytes)

  /** An IP header. `mid` are the bytes between the first one and the protocol. */
  datatype Ip =
    | V4(mid: bytes, protocol: byte, sum: bytes, src: bytes, dst: bytes, options: bytes)
    | V6(trafficClass: nat, mid: bytes, protocol: byte, hops: byte, src: bytes, dst: bytes)

  function Bit(b: bool): nat {
    if b then 1 else 0
  }

  ghost function FlagByte(f: Flags): byte {
    128 * Bit(f.cwr) + 64 * Bit(f.ece) + 32 * Bit(f.urg) + 16 * Bit(f.ack)
    + 8 * Bit(f.psh) + 4 * Bit(f.rst) + 2 * Bit(f.syn) + Bit(f.fin)
  }

  ghost function MssBytes(mss: Option<nat>): bytes
    requires mss.Some? ==> mss.value < WORD
  {
    if mss.Some? then [2, 4, mss.value / 256, mss.value % 256] else []
  }

  /** The length of the TCP header. */
  ghost function HeaderLen(s: Segment): nat
    requires AllOk(s.before)
  {
    20 + |EncodedAll(s.before)| + (if s.mss.Some? then 4 else 0) + |s.after|
  }

  /** Header lengths are whole words and at most 60; without an MSS option the list ends. */
  ghost predicate SegmentOk(s: Segment) {
    && |s.ports| == 4 && |s.numbers| == 8 && s.reserved < 16 && |s.window| == |s.urgent| == 2 && s.checksum < WORD
    && AllOk(s.before) && (s.mss.Some? ==> s.mss.value < WORD)
    && (s.mss.None? && s.after != [] ==> s.after[0] == 0)
    && HeaderLen(s) % 4 == 0 && HeaderLen(s) <= 60
  }

  ghost predicate IpOk(ip: Ip) {
    match ip
    case V4(mid, _, sum, src, dst, options) =>
      |mid| == 8 && |sum| == 2 && |src| == |dst| == 4 && |options| % 4 == 0 && |options| <= 40
    case V6(trafficClass, mid, _, _, src, dst) => trafficClass < 16 && |mid| == 5 && |src| == |dst| == 16
  }

  type Tcp = s: Segment | SegmentOk(s)
    ghost witness Segment([0, 0, 0, 0], [0, 0, 0, 0, 0, 0, 0, 0], 0, Flags(false, false, false, false, false, false, false, false),
                          [0, 0], 0, [0, 0], [], None, [], [])

  type Net = ip: Ip | IpOk(ip)
    ghost witness V4([0, 0, 0, 0, 0, 0, 0, 0], 0, [0, 0], [0, 0, 0, 0], [0, 0, 0, 0], [])

  /** The bytes in front of the addresses. */
  ghost function IpFront(ip: Net): (r: bytes)
    ensures |r| == if ip.V4? then 12 else 8
    ensures r[0] / 16 == if ip.V4? then 4 else 6
    ensures r[if ip.V4? then 9 else 6] == ip.protocol
    ensures ip.V4? ==> r[0] % 16 * 4 == 20 + |ip.options|
  {
    match ip
    case V4(mid, protocol, sum, _, _, options) => [64 + (20 + |options|) / 4] + mid + [protocol] + sum
    case V6(trafficClass, mid, protocol, hops, _, _) => [96 + trafficClass] + mid + [protocol, hops]
  }

  ghost function IpBytes(ip: Net): bytes
  {
    IpFront(ip) + ip.src + ip.dst + if ip.V4? then ip.options else []
  }

  /** The fixed header up to the checksum. */
  ghost function Front(s: Tcp): (r: bytes)
    ensures |r| == 16 && r[12] == HeaderLen(s) / 4 * 16 + s.reserved && r[13] == FlagByte(s.flags)
  {
    s.ports + s.numbers + [HeaderLen(s) / 4 * 16 + s.reserved, FlagByte(s.flags)] + s.window
  }

  ghost function SegmentBytes(s: Tcp): bytes
  {
    Front(s) + ([s.checksum / 256, s.checksum % 256] + (s.urgent + (EncodedAll(s.before) + (MssBytes(s.mss) + (s.after + s.payload)))))
  }

  ghost function Build(ip: Net, s: Tcp): bytes
  {
    IpBytes(ip) + SegmentBytes(s)
  }

  /** The pseudo-header for a segment of `n` bytes. */
  ghost function Pseudo(ip: Net, n: nat): bytes {
    if ip.V4? then ip.src + ip.dst + [0, 6, n / 256 % 256, n % 256]
    else ip.src + ip.dst + [n / 16_777_216 % 256, n / 65_536 % 256, n / 256 % 256, n % 256, 0, 0, 0, 6]
  }

  ghost function WithSum(s: Tcp, sum: nat): Tcp
    requires sum < WORD
  {
    s.(checksum := sum)
  }

  ghost function WithMss(s: Tcp, mss: nat): Tcp
    requires s.mss.Some? && mss < WORD
  {
    s.(mss := Some(mss))
  }

  /** The segment with the checksum of RFC 1071 over pseudo-header and segment. */
  ghost function Sealed(ip: Net, s: Tcp): (r: Tcp)
  {
    WithSum(s, Internet(Pseudo(ip, |SegmentBytes(s)|) + SegmentBytes(WithSum(s, 0))))
  }

  /** TCP, SYN set, and an MSS option above what the MTU leaves. */
  ghost predicate TooBig(ip: Net, s: Tcp, mtu: nat)
  {
    var room := mtu - |IpBytes(ip)| - HeaderLen(s);
    ip.protocol == 6 && s.flags.syn && s.mss.Some? && 0 < room < s.mss.value
  }

  // ----- bytes in nested concatenations

  lemma SliceOf(a: bytes, b: bytes, c: bytes, p: bytes)
    requires p == a + (b + c)
    ensures p[|a|..|a| + |b|] == b
  {
  }

  lemma PutFirst(a: bytes, x: byte, y: byte, b: bytes, v: nat)
    requires v < WORD
    ensures Put(a + ([x, y] + b), |a|, v) == a + ([v / 256, v % 256] + b)
  {
  }

  // ----- what the parser sees

  lemma Addresses(a: bytes, src: bytes, dst: bytes, c: bytes, p: bytes)
    requires p == a + src + dst + c
    ensures p[|a|..|a| + |src|] == src && p[|a| + |src|..|a| + |src| + |dst|] == dst
  {
    Associative3(a, src, dst, c);
    SliceOf(a, src, dst + c, p);
    SliceOf(a + src, dst, c, p);
  }

  lemma Associative3(a: bytes, b: bytes, c: bytes, d: bytes)
    ensures a + b + c + d == a + (b + (c + d)) && a + b + c + d == (a + b) + (c + d)
  {
  }

  lemma IpSeen(ip: Net, rest: bytes, p: bytes, h: nat)
    requires |rest| >= 20 && p == IpBytes(ip) + rest && h == |IpBytes(ip)|
    ensures IpHeader(p) == if ip.protocol == 6 then Some(h) else None
  {
    var f := IpFront(ip);
    assert forall i :: 0 <= i < |f| ==> p[i] == f[i];
  }

  lemma PseudoSeen(ip: Net, rest: bytes, p: bytes)
    requires p == IpBytes(ip) + rest && IpHeader(p) == Some(|IpBytes(ip)|)
    ensures PseudoHeader(p, |IpBytes(ip)|) == Pseudo(ip, |rest|)
  {
    var f, options := IpFront(ip), if ip.V4? then ip.options else [];
    assert p[0] == f[0];
    assert p == f + ip.src + ip.dst + (options + rest);
    Addresses(f, ip.src, ip.dst, options + rest, p);
  }

  /** The flag byte's second bit is SYN. */
  lemma SynBit(f: Flags)
    ensures FlagByte(f) / 2 % 2 == 1 <==> f.syn
  {
    var high := 32 * Bit(f.cwr) + 16 * Bit(f.ece) + 8 * Bit(f.urg) + 4 * Bit(f.ack) + 2 * Bit(f.psh) + Bit(f.rst);
    assert FlagByte(f) == 4 * high + 2 * Bit(f.syn) + Bit(f.fin);
  }

  lemma FrontSeen(ip: bytes, s: Tcp, rest: bytes, p: bytes)
    requires p == ip + (Front(s) + rest) && |rest| >= 4
    ensures TcpHeader(p, |ip|) == Some(HeaderLen(s)) && (IsSyn(p, |ip|) <==> s.flags.syn)
  {
    var f := Front(s);
    assert p[|ip| + 12] == f[12] && p[|ip| + 13] == f[13];
    SynBit(s.flags);
  }

  lemma Parts(head: bytes, enc: bytes, tail: bytes, p: bytes, at: nat)
    requires p == head + (enc + tail) && at == |head| + |enc|
    ensures p[|head|..at] == enc && forall i :: 0 <= i < |tail| ==> p[at + i] == tail[i]
  {
    SliceOf(head, enc, tail, p);
  }

  /** From `start` to `at` the options `before`, and then the MSS option, or the end of the list. */
  ghost predicate OptionsAre(p: bytes, start: nat, end: nat, at: nat, before: seq<Opt>, mss: Option<nat>) {
    && at <= end <= |p| && Leads(p, start, at, before)
    && (if mss.Some? then MssAt(p, at, end) && Get(p, at + 2) == mss.value else at == end || p[at] == 0)
  }

  /** The walk finds the MSS option, or none. */
  lemma WalkSeen(p: bytes, start: nat, end: nat, at: nat, before: seq<Opt>, mss: Option<nat>)
    requires OptionsAre(p, start, end, at, before, mss)
    ensures MssOption(p, start, end) == if mss.Some? then Some(at) else None
  {
    SkipsAll(p, start, at, end, before, if mss.Some? then Some(at) else None);
  }

  /** The bytes in front of the options. */
  ghost function Head(ip: bytes, s: Tcp): (r: bytes)
    ensures |r| == |ip| + 20
  {
    ip + (Front(s) + ([s.checksum / 256, s.checksum % 256] + s.urgent))
  }

  lemma Regroup(ip: bytes, f: bytes, c: bytes, u: bytes, r: bytes)
    ensures ip + (f + (c + (u + r))) == (ip + (f + (c + u))) + r
  {
    assert c + (u + r) == (c + u) + r;
    assert f + ((c + u) + r) == (f + (c + u)) + r;
  }

  lemma AtOptions(ip: bytes, s: Tcp)
    ensures ip + SegmentBytes(s) == Head(ip, s) + (EncodedAll(s.before) + (MssBytes(s.mss) + (s.after + s.payload)))
  {
    Regroup(ip, Front(s), [s.checksum / 256, s.checksum % 256], s.urgent, EncodedAll(s.before) + (MssBytes(s.mss) + (s.after + s.payload)));
  }

  lemma TailOf(s: Tcp, tail: bytes)
    requires tail == MssBytes(s.mss) + (s.after + s.payload)
    ensures s.mss.Some? ==> |tail| >= 4 && tail[0] == 2 && tail[1] == 4 && Word(tail[2], tail[3]) == s.mss.value
    ensures s.mss.None? && s.after != [] ==> tail[0] == 0
  {
    if s.mss.None? {
      assert tail == s.after + s.payload;
    }
  }

  lemma OptionSeen(ip: bytes, s: Tcp, p: bytes, at: nat, h: nat, len: nat)
    requires p == ip + SegmentBytes(s) && at == |ip| + 20 + |EncodedAll(s.before)| && h == |ip| && len == HeaderLen(s)
    ensures OptionsAre(p, h + 20, h + len, at, s.before, s.mss)
  {
    var tail := MssBytes(s.mss) + (s.after + s.payload);
    AtOptions(ip, s);
    TailOf(s, tail);
    Parts(Head(ip, s), EncodedAll(s.before), tail, p, at);
    if s.mss.Some? {
      assert p[at + 0] == tail[0] && p[at + 1] == tail[1] && p[at + 2] == tail[2] && p[at + 3] == tail[3];
    } else if s.after != [] {
      assert p[at + 0] == tail[0];
    }
  }

  // ----- what the clamp writes

  lemma PutMss(head: bytes, enc: bytes, m: nat, rest: bytes, v: nat)
    requires m < WORD && v < WORD
    ensures var was, at := MssBytes(Some(m)), |head| + |enc| + 2;
            && at + 1 < |head + (enc + (was + rest))|
            && Put(head + (enc + (was + rest)), at, v) == head + (enc + (MssBytes(Some(v)) + rest))
  {
    var a := head + (enc + [2, 4]);
    assert forall w: nat :: w < WORD ==> head + (enc + (MssBytes(Some(w)) + rest)) == a + ([w / 256, w % 256] + rest);
    PutFirst(a, m / 256, m % 256, rest, v);
  }

  lemma SameHead(ip: bytes, s: Tcp, v: nat)
    requires s.mss.Some? && v < WORD
    ensures Head(ip, WithMss(s, v)) == Head(ip, s)
  {
  }

  lemma WritesMss(ip: bytes, s: Tcp, v: nat, at: nat)
    requires s.mss.Some? && v < WORD && at == |ip| + 20 + |EncodedAll(s.before)|
    ensures at + 3 < |ip + SegmentBytes(s)|
    ensures Put(ip + SegmentBytes(s), at + 2, v) == ip + SegmentBytes(WithMss(s, v))
  {
    SameHead(ip, s, v);
    AtOptions(ip, s);
    AtOptions(ip, WithMss(s, v));
    PutMss(Head(ip, s), EncodedAll(s.before), s.mss.value, s.after + s.payload, v);
  }

  lemma PutSum(ip: bytes, f: bytes, c: nat, rest: bytes, v: nat)
    requires c < WORD && v < WORD
    ensures |ip| + |f| + 1 < |ip + (f + ([c / 256, c % 256] + rest))|
    ensures Put(ip + (f + ([c / 256, c % 256] + rest)), |ip| + |f|, v) == ip + (f + ([v / 256, v % 256] + rest))
  {
    assert forall w: nat :: w < WORD ==> ip + (f + ([w / 256, w % 256] + rest)) == (ip + f) + ([w / 256, w % 256] + rest);
    PutFirst(ip + f, c / 256, c % 256, rest, v);
  }

  lemma WritesSum(ip: bytes, s: Tcp, v: nat)
    requires v < WORD
    ensures |ip| + 17 < |ip + SegmentBytes(s)|
    ensures Put(ip + SegmentBytes(s), |ip| + 16, v) == ip + SegmentBytes(WithSum(s, v))
  {
    PutSum(ip, Front(s), s.checksum, s.urgent + (EncodedAll(s.before) + (MssBytes(s.mss) + (s.after + s.payload))), v);
  }

  // ----- the theorem

  /** The clamp's decision from what the parser reads: both header lengths, SYN, and the options. */
  lemma SiteParsed(p: bytes, tcp: bool, ip: nat, len: nat, syn: bool, before: seq<Opt>, mss: Option<nat>, at: nat,
                   mtu: nat, want: Option<Site>)
    requires 20 <= ip && 20 <= len && ip + len <= |p| && mtu < WORD
    requires want == if tcp && syn && mss.Some? && 0 < mtu - ip - len < mss.value
        then Some(Site(ip, len, at, mtu - ip - len)) else None
    requires IpHeader(p) == (if tcp then Some(ip) else None) && TcpHeader(p, ip) == Some(len) && (IsSyn(p, ip) <==> syn)
    requires OptionsAre(p, ip + 20, ip + len, at, before, mss)
    ensures SiteOf(p, mtu) == want
  {
    if tcp {
      WalkSeen(p, ip + 20, ip + len, at, before, mss);
      SiteFromParsed(p, ip, len, syn, mss, at, mtu, if mss.Some? then Some(at) else None, want);
    }
  }

  lemma SiteFromParsed(p: bytes, ip: nat, len: nat, syn: bool, mss: Option<nat>, at: nat, mtu: nat,
                       found: Option<nat>, want: Option<Site>)
    requires 20 <= ip && 20 <= len && ip + len <= |p| && mtu < WORD && (mss.Some? ==> at + 3 < |p| && Get(p, at + 2) == mss.value)
    requires want == if syn && mss.Some? && 0 < mtu - ip - len < mss.value
        then Some(Site(ip, len, at, mtu - ip - len)) else None
    requires TcpHeader(p, ip) == Some(len) && (IsSyn(p, ip) <==> syn) && found == if mss.Some? then Some(at) else None
    ensures MssOption(p, ip + 20, ip + len) == found ==> SiteFrom(p, ip, mtu) == want
  {
  }

  lemma SegmentSeen(ip: bytes, s: Tcp, p: bytes, h: nat, len: nat)
    requires p == ip + SegmentBytes(s) && h == |ip| && len == HeaderLen(s)
    ensures h + len <= |p| && TcpHeader(p, h) == Some(len) && (IsSyn(p, h) <==> s.flags.syn)
  {
    var rest := [s.checksum / 256, s.checksum % 256] + (s.urgent + (EncodedAll(s.before) + (MssBytes(s.mss) + (s.after + s.payload))));
    assert SegmentBytes(s) == Front(s) + rest;
    FrontSeen(ip, s, rest, p);
  }

  lemma Wanted(ip: Net, s: Tcp, mtu: nat, x: Site, want: Option<Site>)
    requires x.ip == |IpBytes(ip)| && x.tcp == HeaderLen(s) && (TooBig(ip, s, mtu) ==> x.mss == mtu - x.ip - x.tcp)
    requires want == if TooBig(ip, s, mtu) then Some(x) else None
    ensures want == if ip.protocol == 6 && s.flags.syn && s.mss.Some? && 0 < mtu - x.ip - x.tcp < s.mss.value
                    then Some(Site(x.ip, x.tcp, x.at, mtu - x.ip - x.tcp)) else None
  {
  }

  lemma SiteSeen(ip: Net, b: bytes, s: Tcp, p: bytes, mtu: nat, x: Site, want: Option<Site>)
    requires b == IpBytes(ip) && p == b + SegmentBytes(s) && mtu < WORD
    requires x.ip == |b| && x.tcp == HeaderLen(s) && x.at == |b| + 20 + |EncodedAll(s.before)|
    requires TooBig(ip, s, mtu) ==> x.mss == mtu - |b| - HeaderLen(s)
    requires want == if TooBig(ip, s, mtu) then Some(x) else None
    ensures SiteOf(p, mtu) == want
  {
    SegmentSeen(b, s, p, x.ip, x.tcp);
    IpSeen(ip, SegmentBytes(s), p, x.ip);
    OptionSeen(b, s, p, x.at, x.ip, x.tcp);
    Wanted(ip, s, mtu, x, want);
    SiteParsed(p, ip.protocol == 6, x.ip, x.tcp, s.flags.syn, s.before, s.mss, x.at, mtu, want);
  }

  lemma CoveredSeen(ip: Net, b: bytes, seg: bytes, z: bytes)
    requires b == IpBytes(ip) && z == b + seg && IpHeader(z) == Some(|b|)
    ensures Covered(z, |b|) == Pseudo(ip, |seg|) + seg
  {
    PseudoSeen(ip, seg, z);
    assert z[|b|..] == seg;
  }

  lemma SumLength(s: Tcp, v: nat)
    requires v < WORD
    ensures |SegmentBytes(WithSum(s, v))| == |SegmentBytes(s)| >= 20
  {
  }

  lemma ZeroedSeen(ip: Net, b: bytes, s: Tcp, zero: bytes)
    requires b == IpBytes(ip) && ip.protocol == 6 && zero == SegmentBytes(WithSum(s, 0))
    ensures |zero| == |SegmentBytes(s)| && IpHeader(b + zero) == Some(|b|)
        && Covered(b + zero, |b|) == Pseudo(ip, |zero|) + zero
  {
    SumLength(s, 0);
    IpSeen(ip, zero, b + zero, |b|);
    CoveredSeen(ip, b, zero, b + zero);
  }

  lemma ResummedSeen(ip: Net, b: bytes, s: Tcp, q: bytes)
    requires b == IpBytes(ip) && q == b + SegmentBytes(s) && ip.protocol == 6
    ensures IpHeader(q) == Some(|b|) && |b| + 20 <= |q| && Resummed(q, |b|) == b + SegmentBytes(Sealed(ip, s))
  {
    SumLength(s, 0);
    IpSeen(ip, SegmentBytes(s), q, |b|);
    var zero := SegmentBytes(WithSum(s, 0));
    WritesSum(b, s, 0);
    ZeroedSeen(ip, b, s, zero);
    WritesSum(b, s, Internet(Pseudo(ip, |zero|) + zero));
  }

  lemma NoSite(p: bytes, mtu: nat)
    requires mtu < WORD
    ensures SiteOf(p, mtu) == None ==> Clamped(p, mtu) == p
  {
  }

  lemma AtSite(p: bytes, mtu: nat, x: Site)
    requires mtu < WORD && SiteOf(p, mtu) == Some(x)
    ensures Fits(p, x) && IpHeader(p) == Some(x.ip) && IpHeader(Put(p, x.at + 2, x.mss)) == Some(x.ip)
    ensures Clamped(p, mtu) == Resummed(Put(p, x.at + 2, x.mss), x.ip)
  {
    SiteFits(p, mtu, x);
    HeaderKept(p, x.ip, x.at + 2, x.mss);
  }

  lemma Rewritten(ip: Net, b: bytes, s: Tcp, p: bytes, x: Site)
    requires b == IpBytes(ip) && p == b + SegmentBytes(s) && ip.protocol == 6 && s.mss.Some?
    requires x.mss < WORD && x.ip == |b| && x.tcp == HeaderLen(s) && x.at == |b| + 20 + |EncodedAll(s.before)|
    ensures Fits(p, x) && IpHeader(p) == Some(x.ip) && IpHeader(Put(p, x.at + 2, x.mss)) == Some(x.ip)
    ensures Resummed(Put(p, x.at + 2, x.mss), x.ip) == b + SegmentBytes(Sealed(ip, WithMss(s, x.mss)))
  {
    BuildFits(b, s, p, x);
    IpSeen(ip, SegmentBytes(s), p, x.ip);
    WritesMss(b, s, x.mss, x.at);
    ResummedSeen(ip, b, WithMss(s, x.mss), Put(p, x.at + 2, x.mss));
  }

  lemma Clamps(ip: Net, b: bytes, s: Tcp, p: bytes, mtu: nat, mss: nat, x: Site, r: bytes)
    requires b == IpBytes(ip) && p == Build(ip, s) && TooBig(ip, s, mtu) && mtu < WORD && mss == mtu - |b| - HeaderLen(s)
    requires x == Site(|b|, HeaderLen(s), |b| + 20 + |EncodedAll(s.before)|, mss)
        && r == Build(ip, Sealed(ip, WithMss(s, mss)))
    ensures Clamped(p, mtu) == r
  {
    SiteSeen(ip, b, s, p, mtu, x, Some(x));
    Rewritten(ip, b, s, p, x);
    AtSite(p, mtu, x);
  }

  lemma BuildFits(b: bytes, s: Tcp, p: bytes, x: Site)
    requires |b| >= 20 && p == b + SegmentBytes(s) && s.mss.Some? && x.mss < WORD
    requires x.ip == |b| && x.tcp == HeaderLen(s) && x.at == |b| + 20 + |EncodedAll(s.before)|
    ensures Fits(p, x)
  {
  }

  lemma Untouched(ip: Net, b: bytes, s: Tcp, p: bytes, mtu: nat)
    requires b == IpBytes(ip) && p == b + SegmentBytes(s) && !TooBig(ip, s, mtu) && mtu < WORD
    ensures Clamped(p, mtu) == p
  {
    SiteSeen(ip, b, s, p, mtu, Site(|b|, HeaderLen(s), |b| + 20 + |EncodedAll(s.before)|, 0), None);
    NoSite(p, mtu);
  }

  /** On every packet built from fields, IPv4 or IPv6: if it is TCP with SYN set and announces
      more than the MTU less both headers, clamping gives the same build with exactly that MSS
      and a fresh checksum; otherwise it is untouched. */
  lemma ClampsBuild(ip: Net, s: Tcp, p: bytes, mtu: nat, room: int)
    requires p == Build(ip, s) && mtu < 65_536 && room == mtu - |IpBytes(ip)| - HeaderLen(s)
    ensures TooBig(ip, s, mtu) ==> Clamped(p, mtu) == Build(ip, Sealed(ip, WithMss(s, room)))
    ensures !TooBig(ip, s, mtu) ==> Clamped(p, mtu) == p
  {
    var b := IpBytes(ip);
    if TooBig(ip, s, mtu) {
      var x := Site(|b|, HeaderLen(s), |b| + 20 + |EncodedAll(s.before)|, room);
      Clamps(ip, b, s, p, mtu, room, x, Build(ip, Sealed(ip, WithMss(s, room))));
    } else {
      Untouched(ip, b, s, p, mtu);
    }
  }

  /** The fresh checksum is right: the receiver's sum over pseudo-header and segment is all ones. */
  lemma SealedVerifies(ip: Net, s: Tcp)
    ensures Verifies(Pseudo(ip, |SegmentBytes(s)|) + SegmentBytes(Sealed(ip, s)))
  {
    var pseudo, zero := Pseudo(ip, |SegmentBytes(s)|), WithSum(s, 0);
    SealVerifies(pseudo + SegmentBytes(zero), |pseudo| + 16);
    WritesSum(pseudo, zero, 0);
    WritesSum(pseudo, zero, Internet(pseudo + SegmentBytes(zero)));
  }

  // ----- and no other packet is touched

  ghost function Nibble(a: bool, b: bool, c: bool, d: bool): nat {
    8 * Bit(a) + 4 * Bit(b) + 2 * Bit(c) + Bit(d)
  }

  /** The four bits of `n`, highest first. */
  lemma Bits(n: nat) returns (a: bool, b: bool, c: bool, d: bool)
    requires n < 16
    ensures Nibble(a, b, c, d) == n
  {
    a := n >= 8;
    var n1 := n - 8 * Bit(a);
    b := n1 >= 4;
    var n2 := n1 - 4 * Bit(b);
    c := n2 >= 2;
    d := n2 - 2 * Bit(c) >= 1;
  }

  lemma FlagsOf(b: byte) returns (f: Flags)
    ensures FlagByte(f) == b
  {
    var cwr, ece, urg, ack := Bits(b / 16);
    var psh, rst, syn, fin := Bits(b % 16);
    f := Flags(cwr, ece, urg, ack, psh, rst, syn, fin);
    assert FlagByte(f) == 16 * Nibble(cwr, ece, urg, ack) + Nibble(psh, rst, syn, fin);
  }

  lemma IpOf(p: bytes, h: nat) returns (ip: Net)
    requires IpHeader(p) == Some(h)
    ensures ip.protocol == 6 && IpBytes(ip) == p[..h]
  {
    if p[0] / 16 == 4 {
      ip := V4(p[1..9], p[9], p[10..12], p[12..16], p[16..20], p[20..h]);
      assert p[..12] == [p[0]] + p[1..9] + [p[9]] + p[10..12];
      assert p[..h] == p[..12] + p[12..16] + p[16..20] + p[20..h];
    } else {
      ip := V6(p[0] % 16, p[1..6], p[6], p[7], p[8..24], p[24..40]);
      assert p[..8] == [p[0]] + p[1..6] + [p[6], p[7]];
      assert p[..h] == p[..8] + p[8..24] + p[24..40] + [];
    }
  }

  /** The option part of a header, around the MSS option at `at`. */
  lemma OptionsOf(seg: bytes, enc: bytes, at: nat, len: nat)
    requires 20 <= at && at + 4 <= len <= |seg| && seg[20..at] == enc && MssAt(seg, at, len)
    ensures seg[20..] == enc + (MssBytes(Some(Get(seg, at + 2))) + (seg[at + 4..len] + seg[len..]))
  {
    assert seg[at..at + 4] == MssBytes(Some(Get(seg, at + 2)));
    assert seg[20..] == seg[20..at] + (seg[at..at + 4] + (seg[at + 4..len] + seg[len..]));
  }

  lemma FixedOf(seg: bytes, front: bytes)
    requires |seg| >= 20 && front == seg[..16]
    ensures seg == front + ([Get(seg, 16) / 256, Get(seg, 16) % 256] + (seg[18..20] + seg[20..]))
  {
  }

  ghost function SegmentOf(seg: bytes, flags: Flags, os: seq<Opt>, at: nat, len: nat): Segment
    requires 20 <= at && at + 4 <= len <= |seg|
  {
    Segment(seg[..4], seg[4..12], seg[12] % 16, flags, seg[14..16], Get(seg, 16), seg[18..20],
            os, Some(Get(seg, at + 2)), seg[at + 4..len], seg[len..])
  }

  lemma SegmentFits(seg: bytes, flags: Flags, os: seq<Opt>, at: nat, len: nat)
    requires 20 <= at && at + 4 <= len <= |seg| && len <= 60 && len % 4 == 0 && Leads(seg, 20, at, os)
    ensures SegmentOk(SegmentOf(seg, flags, os, at, len)) && HeaderLen(SegmentOf(seg, flags, os, at, len)) == len
  {
  }

  lemma FrontOf(seg: bytes, s: Tcp)
    requires |seg| >= 20 && seg[12] / 16 * 4 == HeaderLen(s) && s.reserved == seg[12] % 16 && FlagByte(s.flags) == seg[13]
    requires s.ports == seg[..4] && s.numbers == seg[4..12] && s.window == seg[14..16]
    ensures Front(s) == seg[..16]
  {
  }

  /** A segment with an MSS option behind well-formed options is a build. */
  lemma SegmentRead(seg: bytes, flags: Flags, os: seq<Opt>, at: nat, len: nat, s: Segment)
    requires 20 <= at && at + 4 <= len <= |seg| && len <= 60 && len % 4 == 0 && seg[12] / 16 * 4 == len
    requires Leads(seg, 20, at, os) && MssAt(seg, at, len) && FlagByte(flags) == seg[13]
        && s == SegmentOf(seg, flags, os, at, len)
    ensures HeaderLen(s) == len && SegmentBytes(s) == seg
  {
    SegmentFits(seg, flags, os, at, len);
    FrontOf(seg, s);
    FixedOf(seg, Front(s));
    OptionsOf(seg, EncodedAll(os), at, len);
  }

  lemma OptionsShift(p: bytes, h: nat, seg: bytes, at: nat, end: nat, os: seq<Opt>)
    requires 20 <= h <= |p| && seg == p[h..] && h + 20 <= at && Leads(p, h + 20, at, os) && MssAt(p, at, end)
    ensures Leads(seg, 20, at - h, os) && MssAt(seg, at - h, end - h) && Get(seg, at - h + 2) == Get(p, at + 2)
  {
    assert seg[20..at - h] == p[h + 20..at];
  }

  lemma SegmentThere(seg: bytes, os: seq<Opt>, at: nat, len: nat) returns (s: Tcp)
    requires 20 <= at && at + 4 <= len <= |seg| && seg[12] / 16 * 4 == len
    requires Leads(seg, 20, at, os) && MssAt(seg, at, len)
    ensures SegmentBytes(s) == seg && HeaderLen(s) == len
    ensures (s.flags.syn <==> seg[13] / 2 % 2 == 1) && s.mss == Some(Get(seg, at + 2))
  {
    var flags := FlagsOf(seg[13]);
    SynBit(flags);
    SegmentRead(seg, flags, os, at, len, SegmentOf(seg, flags, os, at, len));
    s := SegmentOf(seg, flags, os, at, len);
  }

  lemma TouchedSegment(p: bytes, x: Site, seg: bytes) returns (s: Tcp)
    requires Fits(p, x) && seg == p[x.ip..] && TcpHeader(p, x.ip) == Some(x.tcp) && IsSyn(p, x.ip)
    requires HasLead(p, x.ip + 20, x.at) && MssAt(p, x.at, x.ip + x.tcp)
    ensures SegmentBytes(s) == seg && HeaderLen(s) == x.tcp && s.flags.syn && s.mss == Some(Get(p, x.at + 2))
  {
    SegmentFacts(p, x, seg);
    var os :| Leads(p, x.ip + 20, x.at, os);
    OptionsShift(p, x.ip, seg, x.at, x.ip + x.tcp, os);
    s := SegmentThere(seg, os, x.at - x.ip, x.tcp);
  }

  lemma SegmentFacts(p: bytes, x: Site, seg: bytes)
    requires Fits(p, x) && seg == p[x.ip..] && TcpHeader(p, x.ip) == Some(x.tcp) && IsSyn(p, x.ip)
    ensures |seg| >= x.tcp && seg[12] / 16 * 4 == x.tcp && seg[13] / 2 % 2 == 1
  {
    assert seg[12] == p[x.ip + 12] && seg[13] == p[x.ip + 13];
  }

  /** A packet that is clamped at all is such a build. */
  lemma TouchedIsBuild(p: bytes, mtu: nat, x: Site) returns (ip: Net, s: Tcp)
    requires mtu < WORD && Fits(p, x) && IpHeader(p) == Some(x.ip) && TcpHeader(p, x.ip) == Some(x.tcp) && IsSyn(p, x.ip)
    requires 0 < mtu - x.ip - x.tcp < Get(p, x.at + 2) && HasLead(p, x.ip + 20, x.at) && MssAt(p, x.at, x.ip + x.tcp)
    ensures p == Build(ip, s) && TooBig(ip, s, mtu)
  {
    ip := IpOf(p, x.ip);
    s := TouchedSegment(p, x, p[x.ip..]);
    Joined(p, x.ip, IpBytes(ip), SegmentBytes(s));
  }

  lemma Joined(p: bytes, h: nat, a: bytes, b: bytes)
    requires h <= |p| && a == p[..h] && b == p[h..]
    ensures p == a + b
  {
  }

  lemma SiteIsBuild(p: bytes, mtu: nat, x: Site) returns (ip: Net, s: Tcp)
    requires mtu < WORD && SiteOf(p, mtu) == Some(x)
    ensures p == Build(ip, s) && TooBig(ip, s, mtu)
  {
    SiteFits(p, mtu, x);
    FoundIsFirst(p, x.ip + 20, x.ip + x.tcp, x.at);
    ip, s := TouchedIsBuild(p, mtu, x);
  }

  lemma BuildChanges(ip: Net, s: Tcp, p: bytes, mtu: nat)
    requires p == Build(ip, s) && TooBig(ip, s, mtu) && mtu < WORD
    ensures SiteOf(p, mtu).Some?
  {
    var b := IpBytes(ip);
    var x := Site(|b|, HeaderLen(s), |b| + 20 + |EncodedAll(s.before)|, mtu - |b| - HeaderLen(s));
    SiteSeen(ip, b, s, p, mtu, x, Some(x));
  }

  lemma SiteChanges(p: bytes, mtu: nat)
    requires mtu < WORD
    ensures SiteOf(p, mtu).Some? <==> Clamped(p, mtu) != p
  {
    var x := SiteOf(p, mtu);
    if x.Some? {
      SiteFits(p, mtu, x.value);
      ClampedBytes(p, mtu, x.value);
    }
  }

  /** Exactly the packets that announce too much change. */
  lemma ChangesIff(p: bytes, mtu: nat)
    requires mtu < 65_536
    ensures Clamped(p, mtu) != p <==>
            exists ip: Net, s: Tcp :: p == Build(ip, s) && TooBig(ip, s, mtu)
  {
    SiteChanges(p, mtu);
    if SiteOf(p, mtu).Some? {
      var ip, s := SiteIsBuild(p, mtu, SiteOf(p, mtu).value);
    }
    if ip: Net, s: Tcp :| p == Build(ip, s) && TooBig(ip, s, mtu) {
      BuildChanges(ip, s, p, mtu);
    }
  }
}
