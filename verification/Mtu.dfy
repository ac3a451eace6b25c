/** The tunnel MTU: what a side's own links can carry, what two peers make of each other's
    announcements, and how failed resizes are reported. */
module Mtu {
  import opened Bytes
  import opened Common

  const U16_MAX: nat := 65535
  const FALLBACK: nat := 1400
  const FLOOR_IPV4_ONLY: nat := 576
  const FLOOR_DUAL_STACK: nat := 1280
  /** Frame header, WireGuard overhead, inner fake IPv4 header, outer IPv6 and UDP headers. */
  const OUTER_OVERHEAD: nat := 12 + 32 + 20 + 48

  datatype Config = Config(mtu: Option<nat>, dualStack: bool)

  function Floor(cfg: Config): nat {
    if cfg.dualStack then FLOOR_DUAL_STACK else FLOOR_IPV4_ONLY
  }

  /** The smallest reading there is among the first `n`. */
  function Smallest(detected: seq<Option<nat>>, n: nat): Option<nat>
    requires n <= |detected|
  {
    if n == 0 then None
    else
      var s, d := Smallest(detected, n - 1), detected[n - 1];
      if d.None? then s else if s.None? then d else Some(Min(s.value, d.value))
  }

  /** The primary link's reading when there is a primary, the smallest otherwise. */
  function Detected(detected: seq<Option<nat>>, primary: Option<nat>): Option<nat> {
    if primary.Some? then (if primary.value < |detected| then detected[primary.value] else None)
    else Smallest(detected, |detected|)
  }

  function Safe(detected: nat): nat {
    Min(SatSub(detected, OUTER_OVERHEAD), U16_MAX)
  }

  /** Before the room for parity frames is taken out. */
  function PreFec(cfg: Config, detected: nat): nat {
    var safe := Safe(detected);
    if cfg.mtu.Some? && cfg.mtu.value <= safe then cfg.mtu.value else Max(safe, Floor(cfg))
  }

  function Effective(cfg: Config, detected: seq<Option<nat>>, fec: nat, primary: Option<nat>): nat {
    var d := Detected(detected, primary);
    var pre := if d.Some? then PreFec(cfg, d.value) else if cfg.mtu.Some? then cfg.mtu.value else FALLBACK;
    Max(SatSub(pre, fec), Floor(cfg))
  }

  function Negotiate(local: nat, peer: Option<nat>, floor: nat): nat {
    Max(if peer.Some? && peer.value != 0 then Min(local, peer.value) else local, floor)
  }

  lemma {:induction false} SmallestIsLeast(detected: seq<Option<nat>>, n: nat, i: nat)
    requires n <= |detected|
    ensures i < n && detected[i].Some? ==> Smallest(detected, n).Some? && Smallest(detected, n).value <= detected[i].value
  {
    if n > 0 {
      SmallestIsLeast(detected, n - 1, i);
    }
  }

  /** A tunnel packet above the mandatory floor fits, with room for parity and all outer
      headers, every link it may be sent on: the primary, or else each link with a reading. */
  lemma EffectiveFits(cfg: Config, detected: seq<Option<nat>>, fec: nat, primary: Option<nat>, i: nat)
    requires i < |detected| && detected[i].Some? && (primary.Some? ==> primary.value == i)
    ensures var m := Effective(cfg, detected, fec, primary);
            m >= Floor(cfg) && (m > Floor(cfg) ==> m + fec + OUTER_OVERHEAD <= detected[i].value)
  {
    SmallestIsLeast(detected, |detected|, i);
  }

  // ----- the largest that fits

  /** The reading to go by: the primary link's, else the least there is. */
  ghost predicate Governs(detected: seq<Option<nat>>, primary: Option<nat>, reading: nat) {
    if primary.Some? then primary.value < |detected| && detected[primary.value] == Some(reading)
    else Some(reading) in detected && forall i :: 0 <= i < |detected| && detected[i].Some? ==> reading <= detected[i].value
  }

  ghost predicate NoReading(detected: seq<Option<nat>>, primary: Option<nat>) {
    if primary.Some? then primary.value < |detected| ==> detected[primary.value].None?
    else forall i :: 0 <= i < |detected| ==> detected[i].None?
  }

  /** A packet of `v` bytes and the parity room fit the reading with 112 bytes of headers, 16 bits
      and the configured ceiling. */
  ghost predicate Fits(cfg: Config, fec: nat, reading: nat, v: nat) {
    v + fec + 112 <= reading && v + fec <= 65_535 && (cfg.mtu.Some? ==> v + fec <= cfg.mtu.value)
  }

  /** What IPv6, or else IPv4, demands at least. */
  ghost function Least(cfg: Config): nat {
    if cfg.dualStack then 1280 else 576
  }

  /** With a reading, nothing above `m` fits and `m` itself does unless it is the least allowed.
      Without one, the configured MTU or 1400, less the parity room. */
  ghost predicate IsBest(cfg: Config, detected: seq<Option<nat>>, fec: nat, primary: Option<nat>, m: nat) {
    && m >= Least(cfg)
    && (forall r: nat :: Governs(detected, primary, r) ==>
                      (m == Least(cfg) || Fits(cfg, fec, r, m)) && forall v: nat :: v > m ==> !Fits(cfg, fec, r, v))
    && (NoReading(detected, primary) ==>
          var free := (if cfg.mtu.Some? then cfg.mtu.value else 1400) - fec;
          m == if free > Least(cfg) then free else Least(cfg))
  }

  lemma {:induction false} SmallestIsReading(detected: seq<Option<nat>>, n: nat)
    requires n <= |detected|
    ensures Smallest(detected, n).Some? ==> Smallest(detected, n) in detected[..n]
  {
    if n > 0 {
      SmallestIsReading(detected, n - 1);
      assert detected[..n] == detected[..n - 1] + [detected[n - 1]];
    }
  }

  lemma {:induction false} SmallestOfNone(detected: seq<Option<nat>>, n: nat)
    requires n <= |detected| && forall i :: 0 <= i < n ==> detected[i].None?
    ensures Smallest(detected, n).None?
  {
    if n > 0 {
      SmallestOfNone(detected, n - 1);
    }
  }

  lemma DetectedGoverns(detected: seq<Option<nat>>, primary: Option<nat>)
    ensures match Detected(detected, primary)
            case Some(r) => Governs(detected, primary, r) && !NoReading(detected, primary)
            case None => NoReading(detected, primary)
  {
    if primary.None? {
      var n := |detected|;
      assert detected[..n] == detected;
      SmallestIsReading(detected, n);
      forall i: nat | i < n ensures detected[i].Some? ==> Smallest(detected, n).Some? && Smallest(detected, n).value <= detected[i].value {
        SmallestIsLeast(detected, n, i);
      }
    }
  }

  lemma OneGoverns(detected: seq<Option<nat>>, primary: Option<nat>, r: nat, r': nat)
    requires Governs(detected, primary, r) && Governs(detected, primary, r')
    ensures r == r'
  {
  }

  /** The MTU is the best there is, on every configuration and every set of readings. */
  lemma EffectiveIsBest(cfg: Config, detected: seq<Option<nat>>, fec: nat, primary: Option<nat>)
    ensures IsBest(cfg, detected, fec, primary, Effective(cfg, detected, fec, primary))
  {
    DetectedGoverns(detected, primary);
    forall r: nat | Governs(detected, primary, r) ensures Detected(detected, primary) == Some(r) {
      if Detected(detected, primary).Some? {
        OneGoverns(detected, primary, r, Detected(detected, primary).value);
      }
    }
  }

  /** Only one value is the best. */
  lemma BestIsUnique(cfg: Config, detected: seq<Option<nat>>, fec: nat, primary: Option<nat>, m: nat, m': nat)
    requires IsBest(cfg, detected, fec, primary, m) && IsBest(cfg, detected, fec, primary, m')
    ensures m == m'
  {
    DetectedGoverns(detected, primary);
    var d := Detected(detected, primary);
    if d.Some? {
      assert forall v: nat :: v > m ==> !Fits(cfg, fec, d.value, v);
      assert forall v: nat :: v > m' ==> !Fits(cfg, fec, d.value, v);
    }
  }

  /** It never exceeds the configured ceiling either, and it is a 16-bit value. */
  lemma EffectiveBounded(cfg: Config, detected: seq<Option<nat>>, fec: nat, primary: Option<nat>)
    requires cfg.mtu.Some? ==> cfg.mtu.value <= U16_MAX
    ensures var m := Effective(cfg, detected, fec, primary);
            && Floor(cfg) <= m <= U16_MAX
            && (cfg.mtu.Some? ==> m <= Max(cfg.mtu.value, Floor(cfg)))
  {
  }

  // ----- failed resizes

  datatype Latch = Latch(streak: nat, lastFailed: Option<nat>)

  const NO_FAILURES: Latch := Latch(0, None)

  predicate Warns(l: Latch, attempted: nat) {
    l.streak == 0 || l.lastFailed != Some(attempted)
  }

  function Failed(l: Latch, attempted: nat): Latch {
    Latch(l.streak + 1, Some(attempted))
  }

  /** After a streak of failed attempts. */
  function AfterStreak(attempts: seq<nat>): Latch {
    if attempts == [] then NO_FAILURES else Failed(AfterStreak(attempts[..|attempts| - 1]), attempts[|attempts| - 1])
  }

  /** How many failures of the streak were logged. */
  function Logged(attempts: seq<nat>): nat {
    if attempts == [] then 0
    else
      var n := |attempts| - 1;
      Logged(attempts[..n]) + if Warns(AfterStreak(attempts[..n]), attempts[n]) then 1 else 0
  }

  /** What a success afterwards reports as suppressed. */
  function Suppressed(l: Latch): Option<nat> {
    if l.streak > 0 then Some(SatSub(l.streak, 1)) else None
  }

  lemma {:induction false} StreakState(attempts: seq<nat>)
    ensures AfterStreak(attempts).streak == |attempts|
    ensures attempts != [] ==> AfterStreak(attempts).lastFailed == Some(attempts[|attempts| - 1])
  {
    if attempts != [] {
      StreakState(attempts[..|attempts| - 1]);
    }
  }

  ghost predicate OneTarget(attempts: seq<nat>) {
    forall i :: 0 <= i < |attempts| ==> attempts[i] == attempts[0]
  }

  lemma {:induction false} LoggedOnce(attempts: seq<nat>)
    requires attempts != []
    ensures 1 <= Logged(attempts) <= |attempts| && (Logged(attempts) == 1 <==> OneTarget(attempts))
    decreases |attempts|
  {
    var n := |attempts| - 1;
    StreakState(attempts[..n]);
    if n > 0 {
      LoggedOnce(attempts[..n]);
      assert OneTarget(attempts) <==> OneTarget(attempts[..n]) && attempts[n] == attempts[n - 1];
    }
  }

  /** The number reported as suppressed is the number of failures not logged exactly when the
      whole streak had one target; otherwise it is too large. */
  lemma SuppressedCount(attempts: seq<nat>)
    requires attempts != []
    ensures var r := Suppressed(AfterStreak(attempts));
            && r.Some? && r.value >= |attempts| - Logged(attempts)
            && (r.value == |attempts| - Logged(attempts) <==> OneTarget(attempts))
  {
    StreakState(attempts);
    LoggedOnce(attempts);
  }

  /** Two failures at different targets are both logged, and still one is reported. */
  lemma OvercountedSuppression(attempts: seq<nat>)
    requires attempts == [1400, 1380]
    ensures Logged(attempts) == 2 && Suppressed(AfterStreak(attempts)) == Some(1)
  {
    assert attempts[..1] == [1400];
    StreakState([1400]);
    StreakState(attempts);
    assert [1400][..0] == [];
    assert Logged([1400]) == 1;
  }
}
