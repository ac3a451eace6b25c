/** Two peers negotiating the tunnel MTU by announcements that may be lost, delayed,
    duplicated or reordered: what they agree on depends only on what each side's links can
    carry now, never on what was negotiated before. */
module MtuPeers {
  import opened Bytes
  import opened Common
  import opened Mtu
  import V = VersionInfo

  /** One peer: its configuration, what it announces, what it uses, what it last heard. */
  datatype Side = Side(cfg: Config, fec: nat, capability: nat, live: nat, heard: Option<nat>)

  datatype Who = A | B

  /** The peers, and the frames sent to each so far. */
  datatype Net = Net(a: Side, b: Side, toA: seq<bytes>, toB: seq<bytes>)

  datatype Act =
    | Tick(detected: seq<Option<nat>>, primary: Option<nat>, resized: bool)
    | Announce(version: bytes, name: bytes)
    | Hear(frame: nat)

  datatype Step = Step(who: Who, act: Act)

  function Other(w: Who): Who {
    if w == A then B else A
  }

  function SideOf(n: Net, w: Who): Side {
    if w == A then n.a else n.b
  }

  function Inbox(n: Net, w: Who): seq<bytes> {
    if w == A then n.toA else n.toB
  }

  function WithSide(n: Net, w: Who, s: Side): Net {
    if w == A then n.(a := s) else n.(b := s)
  }

  function WithFrame(n: Net, w: Who, f: bytes): Net {
    if w == A then n.(toA := n.toA + [f]) else n.(toB := n.toB + [f])
  }

  /** One pass of the monitor; `resized` says whether the device accepts a new MTU. */
  function Ticked(s: Side, detected: seq<Option<nat>>, primary: Option<nat>, resized: bool): Side {
    var local := Effective(s.cfg, detected, s.fec, primary);
    var target := Negotiate(local, s.heard, Floor(s.cfg));
    s.(capability := local, live := if resized then target else s.live)
  }

  function Frame(s: Side, version: bytes, name: bytes): V.Payload {
    V.Payload(version, s.capability, name, s.live)
  }

  function Heard(s: Side, f: bytes): Side {
    var d := V.Decode(f);
    if d.Some? then s.(heard := Some(d.value.tunnelMtu)) else s
  }

  function Next(n: Net, st: Step): Net {
    var s := SideOf(n, st.who);
    match st.act
    case Tick(detected, primary, resized) => WithSide(n, st.who, Ticked(s, detected, primary, resized))
    case Announce(version, name) =>
      if V.Encodable(Frame(s, version, name)) then WithFrame(n, Other(st.who), V.Encode(Frame(s, version, name))) else n
    case Hear(i) =>
      if i < |Inbox(n, st.who)| then WithSide(n, st.who, Heard(s, Inbox(n, st.who)[i])) else n
  }

  // ----- runs

  ghost predicate GoodSide(s: Side) {
    && (s.cfg.mtu.Some? ==> s.cfg.mtu.value <= U16_MAX)
    && Floor(s.cfg) <= s.capability <= U16_MAX && Floor(s.cfg) <= s.live
  }

  ghost predicate GoesAt(ns: seq<Net>, ts: seq<Step>, k: nat)
    requires k < |ts| < |ns|
  {
    ns[k + 1] == Next(ns[k], ts[k])
  }

  ghost predicate IsRun(ns: seq<Net>, ts: seq<Step>) {
    && |ns| == |ts| + 1
    && (forall w :: GoodSide(SideOf(ns[0], w)) && SideOf(ns[0], w).heard.None? && Inbox(ns[0], w) == [])
    && forall k: nat :: k < |ts| ==> GoesAt(ns, ts, k)
  }

  lemma TickGood(s: Side, detected: seq<Option<nat>>, primary: Option<nat>, resized: bool)
    requires GoodSide(s)
    ensures GoodSide(Ticked(s, detected, primary, resized))
  {
    EffectiveBounded(s.cfg, detected, s.fec, primary);
  }

  lemma StepGood(n: Net, st: Step, w: Who)
    requires GoodSide(SideOf(n, w))
    ensures var s, s' := SideOf(n, w), SideOf(Next(n, st), w);
            GoodSide(s') && s'.cfg == s.cfg && s'.fec == s.fec && (st.who != w || !st.act.Tick?
                ==> s'.live == s.live && s'.capability == s.capability)
  {
    if st.act.Tick? && st.who == w {
      TickGood(SideOf(n, w), st.act.detected, st.act.primary, st.act.resized);
    }
  }

  ghost predicate GoodAt(ns: seq<Net>, k: nat, w: Who)
    requires k < |ns|
  {
    GoodSide(SideOf(ns[k], w)) && SideOf(ns[k], w).cfg == SideOf(ns[0], w).cfg
        && SideOf(ns[k], w).fec == SideOf(ns[0], w).fec
  }

  /** In every reachable state both the announced and the used MTU are at least the floor. */
  lemma {:induction false} NeverBelowFloor(ns: seq<Net>, ts: seq<Step>, k: nat, w: Who)
    requires IsRun(ns, ts) && k <= |ts|
    ensures GoodAt(ns, k, w)
    decreases k
  {
    if k > 0 {
      NeverBelowFloor(ns, ts, k - 1, w);
      assert GoesAt(ns, ts, k - 1);
      StepGood(ns[k - 1], ts[k - 1], w);
    }
  }

  // ----- announcements carry capabilities

  /** `v` was the side's own capability at some point up to state `k`. */
  ghost predicate WasCapability(ns: seq<Net>, k: nat, w: Who, v: nat)
    requires k < |ns|
  {
    exists j: nat :: j <= k && CapabilityAt(ns, j, w) == v
  }

  ghost function CapabilityAt(ns: seq<Net>, j: nat, w: Who): nat
    requires j < |ns|
  {
    SideOf(ns[j], w).capability
  }

  ghost predicate FrameOk(ns: seq<Net>, k: nat, w: Who, f: bytes)
    requires k < |ns|
  {
    var d := V.Decode(f);
    d.Some? && WasCapability(ns, k, Other(w), d.value.tunnelMtu)
  }

  ghost predicate HonestAt(ns: seq<Net>, k: nat, w: Who)
    requires k < |ns|
  {
    && (forall i :: 0 <= i < |Inbox(ns[k], w)| ==> FrameOk(ns, k, w, Inbox(ns[k], w)[i]))
    && (SideOf(ns[k], w).heard.Some? ==> WasCapability(ns, k, Other(w), SideOf(ns[k], w).heard.value))
  }

  lemma StillWas(ns: seq<Net>, k: nat, w: Who, v: nat)
    requires k + 1 < |ns| && WasCapability(ns, k, w, v)
    ensures WasCapability(ns, k + 1, w, v)
  {
  }

  lemma AnnouncedFrame(ns: seq<Net>, k: nat, w: Who, version: bytes, name: bytes)
    requires k < |ns| && V.Encodable(Frame(SideOf(ns[k], Other(w)), version, name))
    ensures FrameOk(ns, k, w, V.Encode(Frame(SideOf(ns[k], Other(w)), version, name)))
  {
    var p := Frame(SideOf(ns[k], Other(w)), version, name);
    V.RoundTrip(p, []);
    assert V.Encode(p) + [] == V.Encode(p);
    assert CapabilityAt(ns, k, Other(w)) == p.tunnelMtu;
  }

  /** A step adds at most one frame to an inbox, an announcement of the other side. */
  lemma InboxStep(n: Net, st: Step, w: Who, i: nat)
    requires i < |Inbox(Next(n, st), w)|
    ensures i < |Inbox(n, w)| ==> Inbox(Next(n, st), w)[i] == Inbox(n, w)[i]
    ensures i >= |Inbox(n, w)| ==>
              && st.act.Announce? && st.who == Other(w)
                  && V.Encodable(Frame(SideOf(n, st.who), st.act.version, st.act.name))
              && Inbox(Next(n, st), w)[i] == V.Encode(Frame(SideOf(n, st.who), st.act.version, st.act.name))
  {
  }

  lemma HeardStep(n: Net, st: Step, w: Who)
    ensures var h, h' := SideOf(n, w).heard, SideOf(Next(n, st), w).heard;
            h' == h || exists i :: 0 <= i < |Inbox(n, w)| && V.Decode(Inbox(n, w)[i]).Some?
                                   && h' == Some(V.Decode(Inbox(n, w)[i]).value.tunnelMtu)
  {
  }

  lemma FramesNext(ns: seq<Net>, ts: seq<Step>, k: nat, w: Who, i: nat)
    requires IsRun(ns, ts) && k < |ts| && HonestAt(ns, k, w) && i < |Inbox(ns[k + 1], w)|
    ensures FrameOk(ns, k + 1, w, Inbox(ns[k + 1], w)[i])
  {
    assert GoesAt(ns, ts, k);
    var f := Inbox(ns[k + 1], w)[i];
    InboxStep(ns[k], ts[k], w, i);
    if i < |Inbox(ns[k], w)| {
      assert FrameOk(ns, k, w, Inbox(ns[k], w)[i]);
    } else {
      AnnouncedFrame(ns, k, w, ts[k].act.version, ts[k].act.name);
    }
    StillWas(ns, k, Other(w), V.Decode(f).value.tunnelMtu);
  }

  lemma HonestNext(ns: seq<Net>, ts: seq<Step>, k: nat, w: Who)
    requires IsRun(ns, ts) && k < |ts| && HonestAt(ns, k, w)
    ensures HonestAt(ns, k + 1, w)
  {
    assert GoesAt(ns, ts, k);
    var inbox := Inbox(ns[k + 1], w);
    forall i | 0 <= i < |inbox| ensures FrameOk(ns, k + 1, w, inbox[i]) {
      FramesNext(ns, ts, k, w, i);
    }
    var h' := SideOf(ns[k + 1], w).heard;
    HeardStep(ns[k], ts[k], w);
    if h'.Some? {
      if h' != SideOf(ns[k], w).heard {
        var i :| 0 <= i < |Inbox(ns[k], w)| && V.Decode(Inbox(ns[k], w)[i]).Some?
                 && h' == Some(V.Decode(Inbox(ns[k], w)[i]).value.tunnelMtu);
        assert FrameOk(ns, k, w, Inbox(ns[k], w)[i]);
      }
      StillWas(ns, k, Other(w), h'.value);
    }
  }

  /** No ratchet: what a side has heard is always something the other computed from its own
      links, never a value that was negotiated before. */
  lemma {:induction false} HeardIsCapability(ns: seq<Net>, ts: seq<Step>, k: nat, w: Who)
    requires IsRun(ns, ts) && k <= |ts|
    ensures HonestAt(ns, k, w)
    decreases k
  {
    if k > 0 {
      HeardIsCapability(ns, ts, k - 1, w);
      HonestNext(ns, ts, k - 1, w);
    }
  }

  // ----- convergence

  predicate IsTick(st: Step, w: Who) {
    st.who == w && st.act.Tick?
  }

  /** Step `i` is the side's last tick among the first `k`, and the device took the MTU. */
  ghost predicate LastTick(ts: seq<Step>, k: nat, w: Who, i: nat) {
    i < k <= |ts| && IsTick(ts[i], w) && ts[i].act.resized && forall m :: i < m < k ==> !IsTick(ts[m], w)
  }

  ghost predicate SameSince(ns: seq<Net>, i: nat, k: nat, w: Who)
    requires i < |ns| && k < |ns|
  {
    SideOf(ns[k], w).live == SideOf(ns[i], w).live && SideOf(ns[k], w).capability == SideOf(ns[i], w).capability
  }

  lemma {:induction false} KeptSinceTick(ns: seq<Net>, ts: seq<Step>, k: nat, w: Who, i: nat)
    requires IsRun(ns, ts) && LastTick(ts, k, w, i)
    ensures SameSince(ns, i + 1, k, w)
    decreases k
  {
    if k > i + 1 {
      KeptSinceTick(ns, ts, k - 1, w, i);
      assert GoesAt(ns, ts, k - 1);
      NeverBelowFloor(ns, ts, k - 1, w);
      StepGood(ns[k - 1], ts[k - 1], w);
    }
  }

  /** A side that last ticked knowing `peer` uses the smaller of the two capabilities, but not
      less than its floor. */
  lemma LiveAfterTick(ns: seq<Net>, ts: seq<Step>, k: nat, w: Who, i: nat, peer: nat)
    requires IsRun(ns, ts) && LastTick(ts, k, w, i) && SideOf(ns[i], w).heard == Some(peer) && peer != 0
    ensures var s := SideOf(ns[k], w); s.live == Max(Min(s.capability, peer), Floor(s.cfg))
  {
    assert GoesAt(ns, ts, i);
    KeptSinceTick(ns, ts, k, w, i);
    NeverBelowFloor(ns, ts, i, w);
    NeverBelowFloor(ns, ts, k, w);
  }

  /** A side that last ticked without an announcement, or with an empty one, uses its capability. */
  lemma LiveAlone(ns: seq<Net>, ts: seq<Step>, k: nat, w: Who, i: nat)
    requires IsRun(ns, ts) && LastTick(ts, k, w, i) && (SideOf(ns[i], w).heard.None? || SideOf(ns[i], w).heard == Some(0))
    ensures SideOf(ns[k], w).live == SideOf(ns[k], w).capability
  {
    assert GoesAt(ns, ts, i);
    KeptSinceTick(ns, ts, k, w, i);
    NeverBelowFloor(ns, ts, i, w);
    NeverBelowFloor(ns, ts, k, w);
  }

  /** A side's capability is the best MTU for the readings of its last tick. */
  ghost predicate BestSince(ns: seq<Net>, ts: seq<Step>, k: nat, w: Who, i: nat)
    requires k < |ns| && i < |ts| && ts[i].act.Tick?
  {
    var s := SideOf(ns[k], w);
    IsBest(s.cfg, ts[i].act.detected, s.fec, ts[i].act.primary, s.capability)
  }

  lemma CapabilityIsBest(ns: seq<Net>, ts: seq<Step>, k: nat, w: Who, i: nat)
    requires IsRun(ns, ts) && LastTick(ts, k, w, i)
    ensures BestSince(ns, ts, k, w, i)
  {
    assert GoesAt(ns, ts, i);
    var s := SideOf(ns[i], w);
    KeptSinceTick(ns, ts, k, w, i);
    NeverBelowFloor(ns, ts, i, w);
    NeverBelowFloor(ns, ts, k, w);
    EffectiveIsBest(s.cfg, ts[i].act.detected, s.fec, ts[i].act.primary);
  }

  /** An announcement that is heard next tells the other side the capability of its sender. */
  lemma AnnouncedIsHeard(n: Net, w: Who, version: bytes, name: bytes)
    requires V.Encodable(V.Payload(version, SideOf(n, w).capability, name, SideOf(n, w).live))
    ensures var n' := Next(n, Step(w, Announce(version, name)));
            SideOf(Next(n', Step(Other(w), Hear(|Inbox(n, Other(w))|))), Other(w)).heard == Some(SideOf(n, w).capability)
  {
    var p := Frame(SideOf(n, w), version, name);
    V.RoundTrip(p, []);
    assert V.Encode(p) + [] == V.Encode(p);
  }

  lemma SameFloorOrHigh(m: nat, fa: nat, fb: nat)
    ensures Max(m, fa) == Max(m, fb) <==> fa == fb || m >= Max(fa, fb)
  {
  }

  /** Convergence: once each side's last tick knew the other's present capability, the two
      agree if and only if their floors are equal or the smaller capability reaches both, and
      with equal floors they use exactly the smaller capability, whatever happened before. Each
      capability is the best MTU for the readings of that side's last tick. */
  lemma Converges(ns: seq<Net>, ts: seq<Step>, k: nat, i: nat, j: nat)
    requires IsRun(ns, ts) && LastTick(ts, k, A, i) && LastTick(ts, k, B, j)
    requires SideOf(ns[i], A).heard == Some(ns[k].b.capability) && SideOf(ns[j], B).heard == Some(ns[k].a.capability)
    ensures var a, b, least := ns[k].a, ns[k].b, Min(ns[k].a.capability, ns[k].b.capability);
            && (a.live == b.live <==> Least(a.cfg) == Least(b.cfg) || least >= Max(Least(a.cfg), Least(b.cfg)))
            && (Least(a.cfg) == Least(b.cfg) ==> a.live == b.live == least)
    ensures BestSince(ns, ts, k, A, i) && BestSince(ns, ts, k, B, j)
  {
    var n := ns[k];
    NeverBelowFloor(ns, ts, k, A);
    NeverBelowFloor(ns, ts, k, B);
    LiveAfterTick(ns, ts, k, A, i, n.b.capability);
    LiveAfterTick(ns, ts, k, B, j, n.a.capability);
    SameFloorOrHigh(Min(n.a.capability, n.b.capability), Floor(n.a.cfg), Floor(n.b.cfg));
    CapabilityIsBest(ns, ts, k, A, i);
    CapabilityIsBest(ns, ts, k, B, j);
  }

  /** What they agree on is the largest MTU that fits both sides' links, or the common floor. */
  lemma AgreedIsLargest(ns: seq<Net>, ts: seq<Step>, k: nat, i: nat, j: nat, ra: nat, rb: nat)
    requires IsRun(ns, ts) && LastTick(ts, k, A, i) && LastTick(ts, k, B, j)
    requires SideOf(ns[i], A).heard == Some(ns[k].b.capability) && SideOf(ns[j], B).heard == Some(ns[k].a.capability)
    requires Least(ns[k].a.cfg) == Least(ns[k].b.cfg)
    requires Governs(ts[i].act.detected, ts[i].act.primary, ra) && Governs(ts[j].act.detected, ts[j].act.primary, rb)
    ensures var a, b := ns[k].a, ns[k].b;
            && a.live == b.live
            && (a.live == Least(a.cfg) || (Fits(a.cfg, a.fec, ra, a.live) && Fits(b.cfg, b.fec, rb, a.live)))
            && forall v :: v > a.live ==> !(Fits(a.cfg, a.fec, ra, v) && Fits(b.cfg, b.fec, rb, v))
  {
    Converges(ns, ts, k, i, j);
    var a, b := ns[k].a, ns[k].b;
    assert a.live == Min(a.capability, b.capability);
    forall v | v > a.live ensures !(Fits(a.cfg, a.fec, ra, v) && Fits(b.cfg, b.fec, rb, v)) {
      if v > a.capability {
        assert !Fits(a.cfg, a.fec, ra, v);
      } else {
        assert !Fits(b.cfg, b.fec, rb, v);
      }
    }
  }
}

/** The monitor loop's state and tick, in place. */
module MtuMonitor {
  import opened Bytes
  import opened Common
  import opened Mtu
  import P = MtuPeers

  class ResizeFailureLatch {
    var streak: nat
    var lastFailed: Option<nat>

    ghost function View(): Latch
      reads this
    {
      Latch(streak, lastFailed)
    }

    constructor ()
      ensures View() == NO_FAILURES
    {
      streak, lastFailed := 0, None;
    }

    method RecordFailure(attempted: nat) returns (warn: bool)
      modifies this
      ensures View() == Failed(old(View()), attempted) && warn == Warns(old(View()), attempted)
    {
      warn := streak == 0 || lastFailed != Some(attempted);
      streak := streak + 1;
      lastFailed := Some(attempted);
    }

    method RecordSuccess() returns (suppressed: Option<nat>)
      modifies this
      ensures View() == NO_FAILURES && suppressed == Suppressed(old(View()))
    {
      suppressed := if streak > 0 then Some(SatSub(streak, 1)) else None;
      streak, lastFailed := 0, None;
    }
  }

  class Monitor {
    const cfg: Config
    const fec: nat
    var capability: nat
    var live: nat
    var heard: Option<nat>
    const failures: ResizeFailureLatch

    ghost function View(): P.Side
      reads this
    {
      P.Side(cfg, fec, capability, live, heard)
    }

    constructor (cfg: Config, fec: nat, startup: nat)
      ensures View() == P.Side(cfg, fec, startup, startup, None) && fresh(failures)
    {
      this.cfg, this.fec := cfg, fec;
      capability, live, heard := startup, startup, None;
      failures := new ResizeFailureLatch();
    }

    /** One pass of the loop. `accepts` is the device's answer should a resize be asked for;
        the latch records it only then. */
    method Tick(detected: seq<Option<nat>>, primary: Option<nat>, accepts: bool) returns (attempted: bool)
      modifies this`capability, this`live, failures
      ensures View() == P.Ticked(old(View()), detected, primary, accepts)
          && IsBest(cfg, detected, fec, primary, capability)
      ensures live == if !accepts then old(live)
                      else if heard.None? || heard.value == 0 then capability
                      else Max(Min(capability, heard.value), Least(cfg))
      ensures var target := Negotiate(capability, heard, Floor(cfg));
              && attempted == (old(live) != target)
              && failures.View() == if !attempted then old(failures.View())
                                    else if accepts then NO_FAILURES
                                    else Failed(old(failures.View()), target)
    {
      var local := Effective(cfg, detected, fec, primary);
      EffectiveIsBest(cfg, detected, fec, primary);
      capability := local;
      var recomputed := Negotiate(local, heard, Floor(cfg));
      attempted := live != recomputed;
      if !attempted {
        return;
      }
      if accepts {
        live := recomputed;
        var suppressed := failures.RecordSuccess();
      } else {
        var warn := failures.RecordFailure(recomputed);
      }
    }
  }
}
