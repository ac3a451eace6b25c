/** Clamping the maximum segment size announced in TCP SYN packets: which packets are
    touched, which bytes change, and that the checksum is right afterwards. */
module Mss {
  import opened Bytes
  import opened Checksum

  const OPT_END: byte := 0
  const OPT_NOP: byte := 1
  const OPT_MSS: byte := 2
  const IPV6_HEADER: nat := 40
  const PROTO_TCP: byte := 6

  // ----- which packets

  /** The length of the IP header in front of a TCP segment, for a packet that has one. */
  function IpHeader(p: bytes): (r: Option<nat>)
    ensures r.Some? ==> 20 <= r.value <= |p|
  {
    if p == [] then None
    else if p[0] / 16 == 4 then
      var ihl := p[0] % 16 * 4;
      if |p| < 20 || ihl < 20 || |p| < ihl + 20 || p[9] != PROTO_TCP then None else Some(ihl)
    else if p[0] / 16 == 6 then
      if |p| < IPV6_HEADER || p[6] != PROTO_TCP then None else Some(IPV6_HEADER)
    else None
  }

  function TcpHeader(p: bytes, start: nat): (r: Option<nat>)
    requires start <= |p|
    ensures r.Some? ==> 20 <= r.value && start + 20 <= |p|
  {
    if |p| - start < 20 then None
    else
      var len := p[start + 12] / 16 * 4;
      if len < 20 then None else Some(len)
  }

  predicate IsSyn(p: bytes, start: nat)
    requires start + 20 <= |p|
  {
    p[start + 13] / 2 % 2 == 1
  }

  /** The first MSS option from `i` on, when the options before it are well formed. */
  function MssOption(p: bytes, i: nat, end: nat): (r: Option<nat>)
    requires end <= |p|
    ensures r.Some? ==> i <= r.value && r.value + 4 <= end
    decreases end - i
  {
    if i >= end || p[i] == OPT_END then None
    else if p[i] == OPT_NOP then MssOption(p, i + 1, end)
    else if p[i] == OPT_MSS then (if i + 4 > end || p[i + 1] != 4 then None else Some(i))
    else if i + 1 >= end || p[i + 1] < 2 || i + p[i + 1] > end then None
    else MssOption(p, i + p[i + 1], end)
  }

  /** Where and to what a packet is clamped: header lengths, option, new value. */
  datatype Site = Site(ip: nat, tcp: nat, at: nat, mss: nat)

  function SiteFrom(p: bytes, ip: nat, mtu: nat): (r: Option<Site>)
    requires ip <= |p| && mtu < WORD
  {
    var tcp := TcpHeader(p, ip);
    if tcp.None? || |p| < ip + tcp.value || mtu <= ip + tcp.value || !IsSyn(p, ip) then None
    else
      var at, mss := MssOption(p, ip + 20, ip + tcp.value), mtu - ip - tcp.value;
      if at.None? || Get(p, at.value + 2) <= mss then None else Some(Site(ip, tcp.value, at.value, mss))
  }

  function SiteOf(p: bytes, mtu: nat): Option<Site>
    requires mtu < WORD
  {
    var ip := IpHeader(p);
    if ip.None? then None else SiteFrom(p, ip.value, mtu)
  }

  ghost predicate Fits(p: bytes, s: Site) {
    20 <= s.ip && s.ip + 20 <= s.at && s.at + 4 <= s.ip + s.tcp <= |p| && s.mss < WORD
  }

  lemma SiteFits(p: bytes, mtu: nat, s: Site)
    requires mtu < WORD && SiteOf(p, mtu) == Some(s)
    ensures Fits(p, s) && IpHeader(p) == Some(s.ip) && TcpHeader(p, s.ip) == Some(s.tcp)
    ensures s.mss == mtu - s.ip - s.tcp && s.mss < Get(p, s.at + 2) && IsSyn(p, s.ip)
    ensures MssOption(p, s.ip + 20, s.ip + s.tcp) == Some(s.at)
  {
  }

  // ----- what is summed

  function U32(v: nat): bytes {
    U16(v / 65536) + U16(v)
  }

  function HeaderV4(src: bytes, dst: bytes, len: nat): bytes {
    src + dst + [0, PROTO_TCP] + U16(len)
  }

  function HeaderV6(src: bytes, dst: bytes, len: nat): bytes {
    src + dst + U32(len) + [0, 0, 0, PROTO_TCP]
  }

  /** The pseudo-header of section 3.1 of RFC 793 or section 8.1 of RFC 8200. */
  function PseudoHeader(p: bytes, ip: nat): (h: bytes)
    requires IpHeader(p) == Some(ip)
    ensures |h| % 2 == 0
  {
    if p[0] / 16 == 4 then HeaderV4(p[12..16], p[16..20], |p| - ip) else HeaderV6(p[8..24], p[24..40], |p| - ip)
  }

  /** The segment with its pseudo-header in front, which is what the checksum covers. */
  function Covered(p: bytes, ip: nat): bytes
    requires IpHeader(p) == Some(ip)
  {
    PseudoHeader(p, ip) + p[ip..]
  }

  // ----- clamping

  /** `p` with the segment's checksum computed afresh. */
  function Resummed(p: bytes, ip: nat): (r: bytes)
    requires IpHeader(p) == Some(ip) && ip + 20 <= |p|
    ensures |r| == |p|
  {
    var z := Put(p, ip + 16, 0);
    HeaderKept(p, ip, ip + 16, 0);
    Put(p, ip + 16, Internet(Covered(z, ip)))
  }

  function Clamped(p: bytes, mtu: nat): (r: bytes)
    requires mtu < WORD
    ensures |r| == |p|
  {
    var s := SiteOf(p, mtu);
    if s.None? then p
    else
      SiteFits(p, mtu, s.value);
      HeaderKept(p, s.value.ip, s.value.at + 2, s.value.mss);
      Resummed(Put(p, s.value.at + 2, s.value.mss), s.value.ip)
  }

  /** Storing a word behind the IP header changes neither it nor the pseudo-header. */
  lemma HeaderKept(p: bytes, ip: nat, k: nat, v: nat)
    requires IpHeader(p) == Some(ip) && ip <= k && k + 1 < |p| && v < WORD
    ensures IpHeader(Put(p, k, v)) == Some(ip) && PseudoHeader(Put(p, k, v), ip) == PseudoHeader(p, ip)
  {
    var q := Put(p, k, v);
    assert forall j :: 0 <= j < ip ==> q[j] == p[j];
    if p[0] / 16 == 4 {
      assert q[12..16] == p[12..16] && q[16..20] == p[16..20];
    } else {
      assert q[8..24] == p[8..24] && q[24..40] == p[24..40];
    }
  }

  /** Storing a word behind the IP header stores it in what is summed. */
  lemma CoveredPut(p: bytes, ip: nat, k: nat, v: nat)
    requires IpHeader(p) == Some(ip) && ip <= k && k + 1 < |p| && v < WORD
    ensures IpHeader(Put(p, k, v)) == Some(ip)
    ensures Covered(Put(p, k, v), ip) == Put(Covered(p, ip), |PseudoHeader(p, ip)| + k - ip, v)
  {
    HeaderKept(p, ip, k, v);
    PutBehind(PseudoHeader(p, ip), p, ip, k, v);
  }

  lemma PutBehind(h: bytes, p: bytes, ip: nat, k: nat, v: nat)
    requires ip <= k && k + 1 < |p| && v < WORD
    ensures h + Put(p, k, v)[ip..] == Put(h + p[ip..], |h| + k - ip, v)
  {
  }

  /** A recomputed checksum verifies: RFC 1071 over segment and pseudo-header. */
  lemma ResummedVerifies(p: bytes, ip: nat)
    requires IpHeader(p) == Some(ip) && ip + 20 <= |p|
    ensures IpHeader(Resummed(p, ip)) == Some(ip) && Verifies(Covered(Resummed(p, ip), ip))
  {
    var at, b := |PseudoHeader(p, ip)| + 16, Covered(p, ip);
    SealVerifies(b, at);
    assert Covered(Put(p, ip + 16, 0), ip) == Put(b, at, 0) by { CoveredPut(p, ip, ip + 16, 0); }
    CoveredPut(p, ip, ip + 16, Internet(Put(b, at, 0)));
  }

  /** Walking the options depends on nothing behind the option found but its length byte. */
  lemma {:induction false} OptionStable(p: bytes, q: bytes, i: nat, end: nat, at: nat)
    requires end <= |p| == |q| && MssOption(p, i, end) == Some(at)
    requires forall j :: i <= j < at + 2 ==> q[j] == p[j]
    ensures MssOption(q, i, end) == Some(at)
    decreases end - i
  {
    if p[i] == OPT_NOP {
      OptionStable(p, q, i + 1, end, at);
    } else if p[i] != OPT_MSS {
      OptionStable(p, q, i + p[i + 1], end, at);
    }
  }

  ghost predicate OnlyAt(p: bytes, q: bytes, s: Site) {
    && |q| == |p|
    && forall j :: 0 <= j < |p| && j != s.at + 2 && j != s.at + 3 && j != s.ip + 16 && j != s.ip + 17 ==> q[j] == p[j]
  }

  lemma TwoPuts(p: bytes, s: Site, c: nat)
    requires Fits(p, s) && c < WORD
    ensures var q := Put(Put(p, s.at + 2, s.mss), s.ip + 16, c); OnlyAt(p, q, s) && Get(q, s.at + 2) == s.mss
  {
  }

  lemma ClampedBytes(p: bytes, mtu: nat, s: Site)
    requires mtu < WORD && SiteOf(p, mtu) == Some(s)
    ensures OnlyAt(p, Clamped(p, mtu), s) && s.at + 3 < |p| && Get(Clamped(p, mtu), s.at + 2) == s.mss
  {
    SiteFits(p, mtu, s);
    var q := Put(p, s.at + 2, s.mss);
    HeaderKept(p, s.ip, s.at + 2, s.mss);
    HeaderKept(q, s.ip, s.ip + 16, 0);
    TwoPuts(p, s, Internet(Covered(Put(q, s.ip + 16, 0), s.ip)));
  }

  /** `q` differs from `p` only in the option's value and the checksum, announces what the MTU
      leaves, which is less than before, and verifies. */
  ghost predicate IsClampOf(p: bytes, q: bytes, mtu: nat, s: Site) {
    && Fits(p, s) && OnlyAt(p, q, s)
    && Get(q, s.at + 2) == mtu - s.ip - s.tcp < Get(p, s.at + 2)
    && IpHeader(q) == Some(s.ip) && Verifies(Covered(q, s.ip))
  }

  lemma ClampedVerifies(p: bytes, mtu: nat, s: Site)
    requires mtu < WORD && SiteOf(p, mtu) == Some(s)
    ensures IpHeader(Clamped(p, mtu)) == Some(s.ip) && Verifies(Covered(Clamped(p, mtu), s.ip))
  {
    SiteFits(p, mtu, s);
    HeaderKept(p, s.ip, s.at + 2, s.mss);
    ResummedVerifies(Put(p, s.at + 2, s.mss), s.ip);
  }

  lemma ClampedIsClamp(p: bytes, q: bytes, mtu: nat, s: Site)
    requires mtu < WORD && SiteOf(p, mtu) == Some(s) && q == Clamped(p, mtu)
    ensures IsClampOf(p, q, mtu, s)
  {
    SiteFits(p, mtu, s);
    ClampedBytes(p, mtu, s);
    ClampedVerifies(p, mtu, s);
  }

  /** Minimal and correct: a packet with nothing to clamp is untouched, any other is clamped. */
  lemma ClampCorrect(p: bytes, q: bytes, mtu: nat)
    requires mtu < WORD && q == Clamped(p, mtu)
    ensures var s := SiteOf(p, mtu); if s.None? then q == p else IsClampOf(p, q, mtu, s.value)
  {
    var s := SiteOf(p, mtu);
    if s.Some? {
      ClampedIsClamp(p, q, mtu, s.value);
    }
  }

  /** The clamped packet parses like the original, so it is not clamped again. */
  lemma ClampedFits(p: bytes, q: bytes, mtu: nat, s: Site)
    requires mtu < WORD && SiteOf(p, mtu) == Some(s) && OnlyAt(p, q, s) && Get(q, s.at + 2) == s.mss
    requires IpHeader(q) == Some(s.ip)
    ensures SiteOf(q, mtu) == None
  {
    SiteFits(p, mtu, s);
    OptionStable(p, q, s.ip + 20, s.ip + s.tcp, s.at);
  }

  lemma ClampIdempotent(p: bytes, mtu: nat)
    requires mtu < WORD
    ensures Clamped(Clamped(p, mtu), mtu) == Clamped(p, mtu)
  {
    var s := SiteOf(p, mtu);
    if s.Some? {
      ClampedIsClamp(p, Clamped(p, mtu), mtu, s.value);
      ClampedFits(p, Clamped(p, mtu), mtu, s.value);
    }
  }

  // ----- which option is found

  /** An option in front of the MSS option: padding, or any other kind with its data. */
  datatype Opt = Nop | Other(kind: byte, data: bytes)

  ghost predicate OptOk(o: Opt) {
    o.Other? ==> o.kind > OPT_MSS && |o.data| + 2 < 256
  }

  ghost function Encoded(o: Opt): (r: bytes)
    requires OptOk(o)
    ensures |r| >= 1
  {
    if o.Nop? then [OPT_NOP] else [o.kind, |o.data| + 2] + o.data
  }

  ghost predicate AllOk(os: seq<Opt>) {
    forall k :: 0 <= k < |os| ==> OptOk(os[k])
  }

  ghost function EncodedAll(os: seq<Opt>): bytes
    requires AllOk(os)
  {
    if os == [] then [] else Encoded(os[0]) + EncodedAll(os[1..])
  }

  /** At `at` there is an MSS option of the right length. */
  ghost predicate MssAt(p: bytes, at: nat, end: nat) {
    at + 4 <= end <= |p| && p[at] == OPT_MSS && p[at + 1] == 4
  }

  lemma SkipOption(p: bytes, i: nat, at: nat, end: nat, o: Opt, n: nat, rest: bytes)
    requires OptOk(o) && i <= at <= end <= |p| && p[i..at] == Encoded(o) + rest && n == |Encoded(o)|
    ensures i + n <= at && p[i + n..at] == rest && MssOption(p, i, end) == MssOption(p, i + n, end)
  {
    var e, s := Encoded(o), p[i..at];
    assert |s| == |e| + |rest| && s[|e|..] == rest;
    assert p[i] == s[0] == e[0];
    if o.Other? {
      assert p[i + 1] == s[1] == e[1];
    }
  }

  lemma MssFound(p: bytes, at: nat, end: nat)
    requires MssAt(p, at, end)
    ensures MssOption(p, at, end) == Some(at)
  {
  }

  /** The well-formed options `os` fill the bytes from `i` up to `at`. */
  ghost predicate Leads(p: bytes, i: nat, at: nat, os: seq<Opt>) {
    AllOk(os) && i <= at <= |p| && p[i..at] == EncodedAll(os)
  }

  lemma SkipFirst(p: bytes, i: nat, at: nat, end: nat, os: seq<Opt>, n: nat, r: Option<nat>)
    requires os != [] && Leads(p, i, at, os) && at <= end <= |p| && n == |Encoded(os[0])|
    ensures Leads(p, i + n, at, os[1..]) && (MssOption(p, i + n, end) == r ==> MssOption(p, i, end) == r)
  {
    SkipOption(p, i, at, end, os[0], n, EncodedAll(os[1..]));
  }

  /** Any well-formed options are skipped. */
  lemma {:induction false} SkipsAll(p: bytes, i: nat, at: nat, end: nat, os: seq<Opt>, r: Option<nat>)
    requires Leads(p, i, at, os) && at <= end <= |p| && r == MssOption(p, at, end)
    ensures MssOption(p, i, end) == r
    decreases |os|
  {
    if os == [] {
      LeadsNothing(p, i, at);
    } else {
      SkipFirst(p, i, at, end, os, |Encoded(os[0])|, r);
      SkipsAll(p, i + |Encoded(os[0])|, at, end, os[1..], r);
    }
  }

  lemma LeadsNothing(p: bytes, i: nat, at: nat)
    requires Leads(p, i, at, [])
    ensures i == at
  {
    assert |p[i..at]| == 0;
  }

  /** The MSS option behind well-formed options is found. */
  lemma FindsFirst(p: bytes, i: nat, at: nat, end: nat, os: seq<Opt>)
    requires Leads(p, i, at, os) && MssAt(p, at, end)
    ensures MssOption(p, i, end) == Some(at)
  {
    MssFound(p, at, end);
    SkipsAll(p, i, at, end, os, MssOption(p, at, end));
  }

  ghost predicate HasLead(p: bytes, i: nat, at: nat) {
    exists os :: Leads(p, i, at, os)
  }

  lemma LeadsNone(p: bytes, i: nat)
    requires i <= |p|
    ensures HasLead(p, i, i)
  {
    assert p[i..i] == [];
    assert Leads(p, i, i, []);
  }

  lemma LeadsMore(p: bytes, i: nat, n: nat, at: nat, o: Opt)
    requires OptOk(o) && i + n <= |p| && p[i..i + n] == Encoded(o) && HasLead(p, i + n, at)
    ensures HasLead(p, i, at)
  {
    var os :| Leads(p, i + n, at, os);
    LeadsCons(p, i, n, at, o, os);
  }

  lemma LeadsCons(p: bytes, i: nat, n: nat, at: nat, o: Opt, os: seq<Opt>)
    requires OptOk(o) && i + n <= |p| && p[i..i + n] == Encoded(o) && Leads(p, i + n, at, os)
    ensures Leads(p, i, at, [o] + os)
  {
    EncodedCons(o, os);
    SliceSplit(p, i, i + n, at);
  }

  lemma EncodedCons(o: Opt, os: seq<Opt>)
    requires OptOk(o) && AllOk(os)
    ensures AllOk([o] + os) && EncodedAll([o] + os) == Encoded(o) + EncodedAll(os)
  {
    assert ([o] + os)[1..] == os;
  }

  lemma SliceSplit(p: bytes, i: nat, j: nat, k: nat)
    requires i <= j <= k <= |p|
    ensures p[i..k] == p[i..j] + p[j..k]
  {
  }

  lemma SliceHead(p: bytes, i: nat, n: nat)
    requires 2 <= n && i + n <= |p|
    ensures p[i..i + n] == [p[i], p[i + 1]] + p[i + 2..i + n]
  {
  }

  /** What the walk steps over at `i`. */
  lemma SteppedOver(p: bytes, i: nat, end: nat)
    requires end <= |p| && MssOption(p, i, end).Some? && p[i] != OPT_MSS
    ensures if p[i] == OPT_NOP then MssOption(p, i, end) == MssOption(p, i + 1, end)
            else OPT_MSS < p[i] && i + 1 < end && 2 <= p[i + 1] && i + p[i + 1] <= end
                 && MssOption(p, i, end) == MssOption(p, i + p[i + 1], end)
  {
  }

  lemma LeadsOther(p: bytes, i: nat, n: nat, at: nat)
    requires i + 1 < |p| && 2 <= n == p[i + 1] && i + n <= |p| && OPT_MSS < p[i] && HasLead(p, i + n, at)
    ensures HasLead(p, i, at)
  {
    SliceHead(p, i, n);
    LeadsMore(p, i, n, at, Other(p[i], p[i + 2..i + n]));
  }

  /** And only so: what is found is an MSS option behind well-formed options without one. */
  lemma {:induction false} FoundIsFirst(p: bytes, i: nat, end: nat, at: nat)
    requires end <= |p| && MssOption(p, i, end) == Some(at)
    ensures HasLead(p, i, at) && MssAt(p, at, end)
    decreases end - i
  {
    if p[i] == OPT_MSS {
      LeadsNone(p, i);
    } else {
      SteppedOver(p, i, end);
      if p[i] == OPT_NOP {
        FoundIsFirst(p, i + 1, end, at);
        LeadsMore(p, i, 1, at, Nop);
      } else {
        FoundIsFirst(p, i + p[i + 1], end, at);
        LeadsOther(p, i, p[i + 1], at);
      }
    }
  }
}

/** Clamping in place, as the packet is read off the tunnel device. */
module MssClamp {
  import opened Bytes
  import opened Checksum
  import opened Mss

  method ClampIfTcpSyn(packet: array<byte>, mtu: nat)
    requires mtu < WORD
    modifies packet
    ensures packet[..] == Clamped(old(packet[..]), mtu)
  {
    if packet.Length == 0 {
      return;
    }
    if packet[0] / 16 == 4 {
      ClampIpv4(packet, mtu);
    } else if packet[0] / 16 == 6 {
      ClampIpv6(packet, mtu);
    }
  }

  method ClampIpv4(packet: array<byte>, mtu: nat)
    requires mtu < WORD && packet.Length > 0 && packet[0] / 16 == 4
    modifies packet
    ensures packet[..] == Clamped(old(packet[..]), mtu)
  {
    if packet.Length < 20 {
      return;
    }
    var ihl := packet[0] % 16 * 4;
    if ihl < 20 || packet.Length < ihl + 20 {
      return;
    }
    if packet[9] != PROTO_TCP {
      return;
    }
    var clamped := ClampSegment(packet, ihl, mtu);
    if !clamped {
      return;
    }
    var c := TcpChecksumV4(packet[12..16], packet[16..20], packet[ihl..]);
    Seal(packet, ihl, c);
  }

  method ClampIpv6(packet: array<byte>, mtu: nat)
    requires mtu < WORD && packet.Length > 0 && packet[0] / 16 == 6
    modifies packet
    ensures packet[..] == Clamped(old(packet[..]), mtu)
  {
    if packet.Length < IPV6_HEADER {
      return;
    }
    if packet[6] != PROTO_TCP {
      return;
    }
    var clamped := ClampSegment(packet, IPV6_HEADER, mtu);
    if !clamped {
      return;
    }
    var c := TcpChecksumV6(packet[8..24], packet[24..40], packet[IPV6_HEADER..]);
    Seal(packet, IPV6_HEADER, c);
  }

  /** Rewrites the option of the segment at `ip` if it announces too much. */
  method ClampSegment(packet: array<byte>, ip: nat, mtu: nat) returns (clamped: bool)
    requires ip <= packet.Length && mtu < WORD && IpHeader(packet[..]) == Some(ip)
    modifies packet
    ensures var p, s := old(packet[..]), SiteOf(old(packet[..]), mtu);
            && clamped == s.Some?
            && (!clamped ==> packet[..] == p)
            && (clamped ==> Fits(p, s.value) && packet[..] == Put(p, s.value.at + 2, s.value.mss))
  {
    if packet.Length - ip < 20 {
      return false;
    }
    var tcp := packet[ip + 12] / 16 * 4;
    if tcp < 20 || packet.Length < ip + tcp || mtu <= ip + tcp {
      return false;
    }
    ghost var p := packet[..];
    var at := FindMss(packet, ip, ip + tcp);
    if at.None? || packet[at.value + 2] * 256 + packet[at.value + 3] <= mtu - ip - tcp {
      return false;
    }
    var mss := mtu - ip - tcp;
    SiteFits(p, mtu, Site(ip, tcp, at.value, mss));
    packet[at.value + 2], packet[at.value + 3] := mss / 256, mss % 256;
    return true;
  }

  /** The option walk of a SYN segment. */
  method FindMss(packet: array<byte>, start: nat, end: nat) returns (at: Option<nat>)
    requires start + 20 <= end <= packet.Length
    ensures at == if IsSyn(packet[..], start) then MssOption(packet[..], start + 20, end) else None
  {
    if packet[start + 13] / 2 % 2 == 0 {
      return None;
    }
    var i := start + 20;
    while i < end
      invariant start + 20 <= i <= end
      invariant MssOption(packet[..], i, end) == MssOption(packet[..], start + 20, end)
    {
      if packet[i] == OPT_END {
        return None;
      } else if packet[i] == OPT_NOP {
        i := i + 1;
      } else if packet[i] == OPT_MSS {
        if i + 4 > end || packet[i + 1] != 4 {
          return None;
        }
        return Some(i);
      } else {
        if i + 1 >= end {
          return None;
        }
        var len := packet[i + 1];
        if len < 2 || i + len > end {
          return None;
        }
        i := i + len;
      }
    }
    at := None;
  }

  method TcpChecksumV4(src: bytes, dst: bytes, segment: bytes) returns (c: nat)
    requires |src| == |dst| == 4 && |segment| >= 20
    ensures c == Internet(Put(HeaderV4(src, dst, |segment|) + segment, 28, 0))
  {
    c := Checksum.Compute(Put(HeaderV4(src, dst, |segment|) + segment, 28, 0));
  }

  method TcpChecksumV6(src: bytes, dst: bytes, segment: bytes) returns (c: nat)
    requires |src| == |dst| == 16 && |segment| >= 20
    ensures c == Internet(Put(HeaderV6(src, dst, |segment|) + segment, 56, 0))
  {
    c := Checksum.Compute(Put(HeaderV6(src, dst, |segment|) + segment, 56, 0));
  }

  method Seal(packet: array<byte>, ip: nat, c: nat)
    requires ip + 20 <= packet.Length && c < WORD && IpHeader(packet[..]) == Some(ip)
    requires c == Internet(Put(Covered(packet[..], ip), |PseudoHeader(packet[..], ip)| + 16, 0))
    modifies packet
    ensures packet[..] == Resummed(old(packet[..]), ip)
  {
    ghost var p := packet[..];
    CoveredPut(p, ip, ip + 16, 0);
    assert c == Internet(Covered(Put(p, ip + 16, 0), ip));
    packet[ip + 16], packet[ip + 17] := c / 256, c % 256;
    assert packet[..] == Put(p, ip + 16, c);
  }
}
