/** IPv4 fragments and the clamp: the guards do not look at the fragment fields, and the
    checksum is computed over the fragment alone. */
module MssFragments {
  import opened Bytes
  import opened Checksum
  import opened Mss

  /** More fragments follow, or the packet is not the first one. */
  predicate IsFragment(p: bytes) {
    |p| >= 20 && p[0] / 16 == 4 && (p[6] % 64 != 0 || p[7] != 0)
  }

  lemma {:induction false} OptionSame(p: bytes, q: bytes, i: nat, end: nat)
    requires end <= |p| == |q| && forall j :: i <= j < |p| ==> q[j] == p[j]
    ensures MssOption(q, i, end) == MssOption(p, i, end)
    decreases end - i
  {
    if i < end && p[i] != OPT_END {
      if p[i] == OPT_NOP {
        OptionSame(p, q, i + 1, end);
      } else if p[i] != OPT_MSS && i + 1 < end && p[i + 1] >= 2 && i + p[i + 1] <= end {
        OptionSame(p, q, i + p[i + 1], end);
      }
    }
  }

  lemma SiteSame(p: bytes, q: bytes, ip: nat, mtu: nat)
    requires 20 <= ip <= |p| == |q| && mtu < WORD && forall j :: 20 <= j < |p| ==> q[j] == p[j]
    ensures SiteFrom(q, ip, mtu) == SiteFrom(p, ip, mtu)
  {
    var tcp := TcpHeader(p, ip);
    if tcp.Some? && ip + tcp.value <= |p| {
      OptionSame(p, q, ip + 20, ip + tcp.value);
    }
  }

  /** Whether and where an IPv4 packet is clamped does not depend on its fragment fields: a
      fragment that looks like a SYN is clamped like a whole packet. */
  lemma FragmentsPass(p: bytes, q: bytes, flags: byte, offset: byte, mtu: nat)
    requires |p| >= 20 && p[0] / 16 == 4 && mtu < WORD && q == p[6 := flags][7 := offset]
    ensures SiteOf(q, mtu) == SiteOf(p, mtu) && (IsFragment(q) <==> flags % 64 != 0 || offset != 0)
  {
    assert IpHeader(q) == IpHeader(p);
    if IpHeader(p).Some? {
      SiteSame(p, q, IpHeader(p).value, mtu);
    }
  }

  // ----- the checksum of a datagram whose first fragment was clamped

  lemma {:induction false} SumAppend(a: bytes, b: bytes, n: nat)
    requires |a| % 2 == 0 && n <= |b|
    ensures Sum(a + b, |a| + n) == Sum(a, |a|) + Sum(b, n)
  {
    if n == 0 {
      SumPrefix(a, b, |a|);
    } else {
      SumAppend(a, b, n - 1);
    }
  }

  lemma {:induction false} SumPrefix(a: bytes, b: bytes, n: nat)
    requires n <= |a|
    ensures Sum(a + b, n) == Sum(a, n)
  {
    if n > 0 {
      SumPrefix(a, b, n - 1);
    }
  }

  lemma SumOfTwo(a: bytes, b: bytes)
    requires |a| % 2 == 0
    ensures Sum(a + b, |a + b|) == Sum(a, |a|) + Sum(b, |b|)
  {
    SumAppend(a, b, |b|);
  }

  lemma SumOfWord(v: nat)
    requires v < WORD
    ensures Sum(U16(v), 2) == v
  {
    assert Sum(U16(v), 1) == 256 * (v / 256);
  }

  /** The pseudo-header's sum and the length in it. */
  lemma HeaderSum(src: bytes, dst: bytes, len: nat)
    requires |src| == |dst| == 4 && len < WORD
    ensures |HeaderV4(src, dst, len)| % 2 == 0
    ensures Sum(HeaderV4(src, dst, len), |HeaderV4(src, dst, len)|) == Sum(src + dst + [0, PROTO_TCP], 10) + len
  {
    SumOfTwo(src + dst + [0, PROTO_TCP], U16(len));
    SumOfWord(len);
  }

  /** What the checksum of the reassembled segment covers: the fragment's part, then the rest. */
  function WholeCovered(p: bytes, ip: nat, rest: bytes): bytes
    requires 20 <= ip <= |p|
  {
    HeaderV4(p[12..16], p[16..20], |p| - ip + |rest|) + (p[ip..] + rest)
  }

  lemma WholeSum(p: bytes, ip: nat, rest: bytes)
    requires 20 <= ip <= |p| && (|p| - ip) % 2 == 0 && |p| - ip + |rest| < WORD
    ensures var c := WholeCovered(p, ip, rest);
            Sum(c, |c|) == Sum(p[12..16] + p[16..20] + [0, PROTO_TCP], 10) + (|p| - ip) + |rest|
                           + Sum(p[ip..], |p| - ip) + Sum(rest, |rest|)
  {
    HeaderSum(p[12..16], p[16..20], |p| - ip + |rest|);
    SumOfTwo(HeaderV4(p[12..16], p[16..20], |p| - ip + |rest|), p[ip..] + rest);
    SumOfTwo(p[ip..], rest);
  }

  lemma AddMultiple(s: nat, t: nat)
    requires s % ONES == 0
    ensures (s + t) % ONES == t % ONES
  {
    var k := s / ONES;
    Shift(t, k);
    assert s == k * ONES;
  }

  lemma MoreVerifies(whole: bytes, alone: bytes, more: nat)
    requires Verifies(alone) && Sum(whole, |whole|) == Sum(alone, |alone|) + more
    ensures Verifies(whole) <==> more % ONES == 0
  {
    VerifiesIff(alone);
    VerifiesIff(whole);
    AddMultiple(Sum(alone, |alone|), more);
  }

  lemma AloneIsCovered(p: bytes, ip: nat)
    requires IpHeader(p) == Some(ip) && p[0] / 16 == 4
    ensures WholeCovered(p, ip, []) == Covered(p, ip)
  {
    assert p[ip..] + [] == p[ip..];
  }

  lemma SumMore(p: bytes, ip: nat, rest: bytes, more: nat)
    requires IpHeader(p) == Some(ip) && p[0] / 16 == 4 && (|p| - ip) % 2 == 0 && |p| - ip + |rest| < WORD
    requires more == |rest| + Sum(rest, |rest|)
    ensures var whole, alone := WholeCovered(p, ip, rest), Covered(p, ip);
            Sum(whole, |whole|) == Sum(alone, |alone|) + more
  {
    AloneIsCovered(p, ip);
    WholeSum(p, ip, rest);
    WholeSum(p, ip, []);
  }

  /** A first fragment whose checksum verifies by itself, as a clamped one does: the datagram it
      begins then verifies, too, exactly when the length and the words of the rest add up to a
      multiple of 65535. Fragment payloads have even length, being multiples of eight bytes. */
  lemma FragmentVerifiesIff(p: bytes, ip: nat, rest: bytes, more: nat)
    requires IpHeader(p) == Some(ip) && p[0] / 16 == 4 && (|p| - ip) % 2 == 0 && |p| - ip + |rest| < WORD
    requires Verifies(Covered(p, ip)) && more == |rest| + Sum(rest, |rest|)
    ensures Verifies(WholeCovered(p, ip, rest)) <==> more % ONES == 0
  {
    SumMore(p, ip, rest, more);
    MoreVerifies(WholeCovered(p, ip, rest), Covered(p, ip), more);
  }

  /** So a clamped first fragment leaves the checksum of its datagram right exactly then. */
  lemma ClampedFragment(p: bytes, mtu: nat, s: Site, q: bytes, rest: bytes, more: nat)
    requires mtu < WORD && SiteOf(p, mtu) == Some(s) && q == Clamped(p, mtu) && p[0] / 16 == 4
    requires (|p| - s.ip) % 2 == 0 && |p| - s.ip + |rest| < WORD && more == |rest| + Sum(rest, |rest|)
    ensures 20 <= s.ip <= |q| && (Verifies(WholeCovered(q, s.ip, rest)) <==> more % ONES == 0)
  {
    ClampedIsClamp(p, q, mtu, s);
    ClampOfFragment(p, mtu, s, q, rest, more);
  }

  lemma ClampOfFragment(p: bytes, mtu: nat, s: Site, q: bytes, rest: bytes, more: nat)
    requires p != [] && IsClampOf(p, q, mtu, s) && p[0] / 16 == 4
    requires (|p| - s.ip) % 2 == 0 && |p| - s.ip + |rest| < WORD && more == |rest| + Sum(rest, |rest|)
    ensures 20 <= s.ip <= |q| && (Verifies(WholeCovered(q, s.ip, rest)) <==> more % ONES == 0)
  {
    assert q[0] == p[0];
    FragmentVerifiesIff(q, s.ip, rest, more);
  }

  /** It is wrong, for instance, whenever the rest is eight zero bytes. */
  lemma BrokenFragment(p: bytes, mtu: nat, s: Site, q: bytes, rest: bytes)
    requires mtu < WORD && SiteOf(p, mtu) == Some(s) && q == Clamped(p, mtu) && p[0] / 16 == 4
    requires (|p| - s.ip) % 2 == 0 && |p| - s.ip + |rest| < WORD
    requires |rest| == 8 && forall i :: 0 <= i < |rest| ==> rest[i] == 0
    ensures 20 <= s.ip <= |q| && !Verifies(WholeCovered(q, s.ip, rest))
  {
    SumOfZeros(rest, |rest|);
    ClampedFragment(p, mtu, s, q, rest, 8);
  }

  lemma {:induction false} SumOfZeros(b: bytes, n: nat)
    requires n <= |b| && forall i :: 0 <= i < |b| ==> b[i] == 0
    ensures Sum(b, n) == 0
  {
    if n > 0 {
      SumOfZeros(b, n - 1);
    }
  }
}
