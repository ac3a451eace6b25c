/** Delivery feedback of one link: the factor that scales its scheduling weight, cut at once
    when the peer receives much less than was offered and raised slowly after a hold-down.
    Times are nanoseconds on a monotone clock, rates are real numbers. */
module Delivery {
  import opened Bytes
  import opened Common

  const SECOND: nat := 1_000_000_000
  const MIN_FACTOR: real := 0.001
  const MIN_OFFERED: real := 0.25
  const BAD_RATIO: real := 0.85
  const SEVERE_RATIO: real := 0.3
  const MIN_SHORTFALL: real := 0.1
  const CUT_MARGIN: real := 0.9
  const SETTLE_WINDOWS: nat := 3
  const HOLD_BASE: nat := 5 * SECOND
  const HOLD_MAX: nat := 60 * SECOND
  const RECOVER_PER_SECOND: real := 0.1
  const CLEAN_WINDOWS_TO_GROW: nat := 2
  const STALE_AFTER: nat := 3 * SECOND
  const RESET_AFTER: nat := 60 * SECOND
  const MIN_WINDOW: nat := 200_000_000

  datatype Phase = Normal | HoldDown | Recovering

  datatype Sample = Sample(offered: real, delivered: real, stamp: nat)

  datatype Tracker = Tracker(
    factor: real, phase: Phase, lastStamp: Option<nat>, lastTick: Option<nat>,
    bad: nat, clean: nat, settle: nat, holdUntil: Option<nat>, hold: nat, healthySince: Option<nat>)

  const START: Tracker := Tracker(1.0, Normal, None, None, 0, 0, 0, None, HOLD_BASE, None)

  // ----- the state machine

  function Seconds(ns: nat): real {
    ns as real / SECOND as real
  }

  function Elapsed(t: Tracker, now: nat): real {
    if t.lastTick.Some? then Seconds(Since(now, t.lastTick.value)) else 0.0
  }

  function HoldOver(t: Tracker, now: nat): Tracker {
    if t.phase == HoldDown && (t.holdUntil.None? || now >= t.holdUntil.value) then t.(phase := Recovering) else t
  }

  predicate IsFresh(t: Tracker, now: nat, sample: Option<Sample>) {
    sample.Some? && t.lastStamp != Some(sample.value.stamp) && Since(now, sample.value.stamp) < STALE_AFTER
  }

  predicate Loaded(s: Sample) {
    s.offered >= MIN_OFFERED
  }

  function Ratio(s: Sample): real {
    if Loaded(s) then Clamp(s.delivered / s.offered, 0.0, 1.0) else 1.0
  }

  predicate IsBad(s: Sample) {
    Loaded(s) && Ratio(s) < BAD_RATIO && s.offered - s.delivered >= MIN_SHORTFALL
  }

  /** A cut scales the factor by the measured ratio and a margin below it. */
  function Reduced(f: real, ratio: real): real {
    Clamp(f * ratio * CUT_MARGIN, MIN_FACTOR, 1.0)
  }

  function Cut(t: Tracker, now: nat, ratio: real): Tracker {
    var hold := if t.phase == Recovering then (if t.hold * 2 <= HOLD_MAX then t.hold * 2 else HOLD_MAX) else t.hold;
    t.(factor := Reduced(t.factor, ratio), phase := HoldDown, hold := hold,
       holdUntil := Some(now + hold), settle := SETTLE_WINDOWS, bad := 0, clean := 0, healthySince := None)
  }

  function Counted(t: Tracker, bad: bool): Tracker {
    if bad then t.(bad := t.bad + 1, clean := 0) else t.(bad := 0, clean := t.clean + 1)
  }

  /** Whether a fresh window is one the link is cut for. */
  predicate Cuts(t: Tracker, s: Sample) {
    t.settle == 0 && IsBad(s) && (t.bad >= 1 || Ratio(s) < SEVERE_RATIO)
  }

  function EvaluateWindow(t: Tracker, now: nat, s: Sample): Tracker {
    if t.settle > 0 then t.(settle := t.settle - 1)
    else if Cuts(t, s) then Cut(Counted(t, true), now, Ratio(s))
    else Counted(t, IsBad(s))
  }

  function Judged(t: Tracker, now: nat, sample: Option<Sample>): Tracker {
    if IsFresh(t, now, sample) then EvaluateWindow(t.(lastStamp := Some(sample.value.stamp)), now, sample.value)
    else if sample.None? then t.(bad := 0)
    else t
  }

  function Raised(f: real, dt: real): real {
    f * (1.0 + RECOVER_PER_SECOND * dt)
  }

  function Grown(t: Tracker, now: nat, idle: bool, dt: real): Tracker {
    if t.phase == Recovering && t.settle == 0 && (idle || t.clean >= CLEAN_WINDOWS_TO_GROW) then
      var f := Raised(t.factor, dt);
      if f >= 1.0 then t.(factor := 1.0, phase := Normal, healthySince := Some(now)) else t.(factor := f)
    else t
  }

  function Settled(t: Tracker, now: nat): Tracker {
    if t.phase == Normal && t.healthySince.Some? && Since(now, t.healthySince.value) >= RESET_AFTER
    then t.(hold := HOLD_BASE) else t
  }

  function Observe(t: Tracker, now: nat, sample: Option<Sample>): Tracker {
    var t1 := HoldOver(t.(lastTick := Some(now)), now);
    var t2 := Judged(t1, now, sample);
    Settled(Grown(t2, now, sample.None?, Elapsed(t, now)), now)
  }

  /** Whether this observation cuts the factor. */
  predicate IsCut(t: Tracker, now: nat, sample: Option<Sample>) {
    IsFresh(t, now, sample) && Cuts(t, sample.value)
  }

  // ----- what every reachable tracker satisfies

  ghost predicate FactorInv(t: Tracker) {
    MIN_FACTOR <= t.factor <= 1.0 && (t.factor == 1.0 <==> t.phase == Normal)
  }

  ghost predicate HoldInv(t: Tracker) {
    HOLD_BASE <= t.hold <= HOLD_MAX && t.settle <= SETTLE_WINDOWS
  }

  /** A recovering link's hold-down had ended by the last observation. */
  ghost predicate TimeInv(t: Tracker) {
    && (t.phase != Normal ==> t.holdUntil.Some?)
    && (t.phase == Recovering ==> t.lastTick.Some? && t.holdUntil.value <= t.lastTick.value)
  }

  ghost predicate Inv(t: Tracker) {
    FactorInv(t) && HoldInv(t) && TimeInv(t)
  }

  ghost predicate Later(t: Tracker, now: nat) {
    t.lastTick.Some? ==> t.lastTick.value <= now
  }

  lemma CutShrinks(f: real, ratio: real)
    requires MIN_FACTOR <= f <= 1.0 && 0.0 <= ratio < BAD_RATIO
    ensures MIN_FACTOR <= Reduced(f, ratio) < 1.0 && Reduced(f, ratio) <= f
  {
    assert f * ratio <= f;
    assert f * ratio * CUT_MARGIN <= f;
    assert f * ratio <= ratio;
  }

  lemma GrowthRaises(f: real, dt: real)
    requires f > 0.0 && dt >= 0.0
    ensures Raised(f, dt) >= f
  {
    assert f * (RECOVER_PER_SECOND * dt) >= 0.0;
  }

  lemma SecondsNonNegative(ns: nat)
    ensures Seconds(ns) >= 0.0
  {
  }

  lemma RatioRange(s: Sample)
    ensures 0.0 <= Ratio(s) <= 1.0
  {
  }

  lemma CutInv(t: Tracker, now: nat, ratio: real)
    requires Inv(t) && 0.0 <= ratio < BAD_RATIO
    ensures Inv(Cut(t, now, ratio)) && Cut(t, now, ratio).factor <= t.factor
  {
    CutShrinks(t.factor, ratio);
  }

  lemma JudgedInv(t: Tracker, now: nat, sample: Option<Sample>)
    requires Inv(t)
    ensures Inv(Judged(t, now, sample)) && Judged(t, now, sample).factor <= t.factor
    ensures IsCut(t, now, sample) ==> Judged(t, now, sample).phase == HoldDown
  {
    if sample.Some? {
      RatioRange(sample.value);
      if IsCut(t, now, sample) {
        CutInv(Counted(t.(lastStamp := Some(sample.value.stamp)), true), now, Ratio(sample.value));
      }
    }
  }

  lemma GrownInv(t: Tracker, now: nat, idle: bool, dt: real)
    requires Inv(t) && dt >= 0.0
    ensures Inv(Grown(t, now, idle, dt)) && Grown(t, now, idle, dt).factor >= t.factor
    ensures t.phase != Recovering ==> Grown(t, now, idle, dt) == t
  {
    GrowthRaises(t.factor, dt);
  }

  /** Every observation keeps the invariant: the factor stays in [0.001, 1] and is 1 exactly
      in phase Normal, the hold stays between 5 and 60 seconds. */
  lemma ObserveInv(t: Tracker, now: nat, sample: Option<Sample>)
    requires Inv(t) && Later(t, now)
    ensures Inv(Observe(t, now, sample))
  {
    var t1 := HoldOver(t.(lastTick := Some(now)), now);
    JudgedInv(t1, now, sample);
    var t2 := Judged(t1, now, sample);
    SecondsNonNegative(if t.lastTick.Some? then Since(now, t.lastTick.value) else 0);
    GrownInv(t2, now, sample.None?, Elapsed(t, now));
  }

  /** The factor rises only once the hold-down is over, and a cut never raises it. */
  lemma RiseAfterHold(t: Tracker, now: nat, sample: Option<Sample>)
    requires Inv(t) && Later(t, now) && Observe(t, now, sample).factor > t.factor
    ensures t.holdUntil.Some? && now >= t.holdUntil.value && !IsCut(t, now, sample)
  {
    var t1 := HoldOver(t.(lastTick := Some(now)), now);
    JudgedInv(t1, now, sample);
    var t2 := Judged(t1, now, sample);
    SecondsNonNegative(if t.lastTick.Some? then Since(now, t.lastTick.value) else 0);
    GrownInv(t2, now, sample.None?, Elapsed(t, now));
    assert t2.phase == Recovering && t1.phase == Recovering;
  }

  // ----- exactly when the factor is cut, and to what

  /** A window not judged before and less than three seconds old. */
  ghost predicate NewWindow(t: Tracker, now: nat, s: Sample) {
    t.lastStamp != Some(s.stamp) && now < s.stamp + 3_000_000_000
  }

  /** At least 0.25 offered, less than 85 % of it and at least 0.1 less delivered. */
  ghost predicate FallsShort(s: Sample) {
    s.offered >= 0.25 && s.delivered < 0.85 * s.offered && s.offered - s.delivered >= 0.1
  }

  /** Outside the settling period, a second bad window in a row, or one below 30 %. */
  ghost predicate MustCut(t: Tracker, now: nat, s: Sample) {
    NewWindow(t, now, s) && t.settle == 0 && FallsShort(s) && (t.bad >= 1 || s.delivered < 0.3 * s.offered)
  }

  lemma Quotient(a: real, b: real, c: real)
    requires b > 0.0
    ensures a / b < c <==> a < c * b
  {
    assert a == a / b * b;
    if a / b < c {
      assert (c - a / b) * b > 0.0;
    }
    if a < c * b {
      assert (c - a / b) * b > 0.0;
    }
  }

  lemma ClampBelow(x: real, y: real, c: real)
    requires 0.0 < c <= 1.0 && y == (if x < 0.0 then 0.0 else if x > 1.0 then 1.0 else x)
    ensures y < c <==> x < c
  {
  }

  lemma RatioBelow(s: Sample, c: real)
    requires s.offered >= 0.25 && 0.0 < c <= 1.0
    ensures Ratio(s) < c <==> s.delivered < c * s.offered
  {
    Quotient(s.delivered, s.offered, c);
    ClampBelow(s.delivered / s.offered, Ratio(s), c);
  }

  lemma CutIff(t: Tracker, now: nat, sample: Option<Sample>)
    ensures IsCut(t, now, sample) <==> sample.Some? && MustCut(t, now, sample.value)
  {
    if sample.Some? && sample.value.offered >= 0.25 {
      RatioBelow(sample.value, 0.85);
      RatioBelow(sample.value, 0.3);
    }
  }

  /** A cut takes the factor times the delivered share times 0.9, not below 0.001, and starts a
      hold-down of at least five seconds, doubled up to a minute if the link was recovering. */
  lemma CutIs(t: Tracker, now: nat, s: Sample, share: real, cut: real)
    requires Inv(t) && MustCut(t, now, s) && cut == t.factor * share * 0.9
    requires share * s.offered == if s.delivered > 0.0 then s.delivered else 0.0
    ensures var t' := Observe(t, now, Some(s));
            && t'.factor == (if cut < 0.001 then 0.001 else cut)
            && t'.phase == HoldDown && t'.holdUntil == Some(now + t'.hold)
            && t'.hold == (if t.phase == Recovering || (t.phase == HoldDown && now >= t.holdUntil.value)
                           then Min(2 * t.hold, 60_000_000_000) else t.hold)
  {
    CutIff(t, now, Some(s));
    RatioBelow(s, 0.85);
    ShareIs(s, share);
    RatioRange(s);
    ReducedIs(t.factor, share, cut);
    CutState(t, now, s);
  }

  lemma ReducedIs(f: real, ratio: real, cut: real)
    requires 0.0 <= f <= 1.0 && 0.0 <= ratio <= 1.0 && cut == f * ratio * 0.9
    ensures Reduced(f, ratio) == if cut < 0.001 then 0.001 else cut
  {
    ProductBelow(f, ratio);
    assert cut <= 1.0;
    assert f * ratio * CUT_MARGIN == cut;
  }

  lemma ProductBelow(f: real, r: real)
    requires 0.0 <= f <= 1.0 && 0.0 <= r <= 1.0
    ensures f * r <= 1.0
  {
    NonNegative(f, 1.0 - r);
    assert f * (1.0 - r) == f - f * r;
  }

  lemma NonNegative(a: real, b: real)
    requires a >= 0.0 && b >= 0.0
    ensures a * b >= 0.0
  {
  }

  lemma CutState(t: Tracker, now: nat, s: Sample)
    requires IsCut(t, now, Some(s))
    ensures Observe(t, now, Some(s)).factor == Reduced(t.factor, Ratio(s))
  {
  }

  lemma ShareIs(s: Sample, share: real)
    requires s.offered >= 0.25 && s.delivered < 0.85 * s.offered
    requires share * s.offered == if s.delivered > 0.0 then s.delivered else 0.0
    ensures Ratio(s) == share
  {
    Quotient(s.delivered, s.offered, 0.85);
    Quotient(s.delivered, s.offered, 0.0);
    assert share == share * s.offered / s.offered;
    assert 0.0 / s.offered == 0.0;
  }

  /** Not cut: a link past its hold-down and its settling period rises by a tenth a second,
      after two clean windows in a row or when nothing was measured; any other keeps its factor. */
  lemma UncutIs(t: Tracker, now: nat, sample: Option<Sample>)
    requires Inv(t) && Later(t, now) && (sample.Some? ==> !MustCut(t, now, sample.value))
    ensures var t', isNew := Observe(t, now, sample), sample.Some? && NewWindow(t, now, sample.value);
            var recovering := t.phase == Recovering || (t.phase == HoldDown && now >= t.holdUntil.value);
            var settled := t.settle == 0 || (isNew && t.settle == 1);
            var clean := if isNew && t.settle == 0 then (if FallsShort(sample.value) then 0 else t.clean + 1)
                else t.clean;
            var dt := if t.lastTick.Some? then (now - t.lastTick.value) as real / 1_000_000_000.0 else 0.0;
            var up := t.factor * (1.0 + 0.1 * dt);
            t'.factor == if recovering && settled && (sample.None? || clean >= 2) then (if up < 1.0 then up
                else 1.0) else t.factor
  {
    CutIff(t, now, sample);
    if sample.Some? && sample.value.offered >= 0.25 {
      RatioBelow(sample.value, 0.85);
    }
  }

  /** The hold goes back to five seconds once the link has been at full factor for a minute, and
      only a cut changes it otherwise. */
  lemma HoldIs(t: Tracker, now: nat, sample: Option<Sample>)
    requires Inv(t) && Later(t, now) && (sample.Some? ==> !MustCut(t, now, sample.value))
    requires t.healthySince.Some? ==> t.healthySince.value <= now
    ensures var t' := Observe(t, now, sample);
            && t'.healthySince == (if t.phase != Normal && t'.phase == Normal then Some(now) else t.healthySince)
            && t'.hold == if t'.phase == Normal && t'.healthySince.Some? && t'.healthySince.value + 60_000_000_000 <= now
                          then 5_000_000_000 else t.hold
  {
    CutIff(t, now, sample);
  }

  // ----- runs

  datatype Event = Event(now: nat, sample: Option<Sample>)

  ghost function RunTo(es: seq<Event>, k: nat): Tracker
    requires k <= |es|
  {
    if k == 0 then START else Observe(RunTo(es, k - 1), es[k - 1].now, es[k - 1].sample)
  }

  ghost predicate Monotone(es: seq<Event>) {
    forall i, j :: 0 <= i <= j < |es| ==> es[i].now <= es[j].now
  }

  ghost predicate CutAt(es: seq<Event>, k: nat)
    requires k < |es|
  {
    IsCut(RunTo(es, k), es[k].now, es[k].sample)
  }

  ghost predicate FreshAt(es: seq<Event>, k: nat)
    requires k < |es|
  {
    IsFresh(RunTo(es, k), es[k].now, es[k].sample)
  }

  lemma {:induction false} RunInv(es: seq<Event>, k: nat)
    requires Monotone(es) && k <= |es|
    ensures Inv(RunTo(es, k))
    ensures k > 0 ==> RunTo(es, k).lastTick == Some(es[k - 1].now)
  {
    if k > 0 {
      RunInv(es, k - 1);
      ObserveInv(RunTo(es, k - 1), es[k - 1].now, es[k - 1].sample);
      TickRecorded(RunTo(es, k - 1), es[k - 1].now, es[k - 1].sample);
    }
  }

  lemma TickRecorded(t: Tracker, now: nat, sample: Option<Sample>)
    ensures Observe(t, now, sample).lastTick == Some(now)
  {
  }

  /** How many fresh windows arrived in the steps from `i` up to but not including `j`. */
  ghost function FreshCount(es: seq<Event>, i: nat, j: nat): nat
    requires i <= j <= |es|
    decreases j - i
  {
    if i == j then 0 else FreshCount(es, i, j - 1) + (if FreshAt(es, j - 1) then 1 else 0)
  }

  /** Only a fresh window uses up the settling period, and only a cut restarts it. */
  lemma SettleStep(t: Tracker, now: nat, sample: Option<Sample>)
    requires t.settle <= SETTLE_WINDOWS
    ensures Observe(t, now, sample).settle + (if IsFresh(t, now, sample) then 1 else 0) >= t.settle
    ensures IsCut(t, now, sample) ==> t.settle == 0 && Observe(t, now, sample).settle == SETTLE_WINDOWS
    ensures Observe(t, now, sample).settle <= SETTLE_WINDOWS
  {
  }

  lemma {:induction false} SettleRun(es: seq<Event>, i: nat, j: nat)
    requires Monotone(es) && i < j <= |es| && CutAt(es, i)
    ensures RunTo(es, j).settle + FreshCount(es, i + 1, j) >= SETTLE_WINDOWS
    decreases j
  {
    RunInv(es, j - 1);
    SettleStep(RunTo(es, j - 1), es[j - 1].now, es[j - 1].sample);
    if j > i + 1 {
      SettleRun(es, i, j - 1);
    }
  }

  /** Between any two cuts at least three fresh windows arrive that cut nothing. */
  lemma CutsAreSpaced(es: seq<Event>, i: nat, j: nat)
    requires Monotone(es) && i < j < |es| && CutAt(es, i) && CutAt(es, j)
    ensures FreshCount(es, i + 1, j) >= SETTLE_WINDOWS
  {
    SettleRun(es, i, j);
    RunInv(es, j);
    SettleStep(RunTo(es, j), es[j].now, es[j].sample);
  }

  /** The hold-down that a cut at some time started is over, or still in force. */
  ghost predicate Guarded(t: Tracker, now: nat, until: nat, hold: nat) {
    now >= until || (t.phase == HoldDown && t.holdUntil.Some? && t.holdUntil.value >= until && t.hold >= hold)
  }

  lemma GuardedStep(t: Tracker, t': Tracker, before: nat, now: nat, sample: Option<Sample>, until: nat, hold: nat)
    requires Inv(t) && Later(t, now) && before <= now && Guarded(t, before, until, hold) && until <= before + hold
    requires t' == Observe(t, now, sample)
    ensures Guarded(t', now, until, hold)
  {
  }

  lemma CutGuards(t: Tracker, now: nat, sample: Option<Sample>)
    requires Inv(t) && IsCut(t, now, sample)
    ensures var t' := Observe(t, now, sample);
            HOLD_BASE <= t'.hold && t'.holdUntil == Some(now + t'.hold) && t'.phase == HoldDown
  {
  }

  ghost predicate GuardedAt(es: seq<Event>, j: nat, until: nat, hold: nat)
    requires 0 < j <= |es|
  {
    Guarded(RunTo(es, j), es[j - 1].now, until, hold) && until <= es[j - 1].now + hold
  }

  lemma GuardedFirst(es: seq<Event>, i: nat, until: nat, hold: nat)
    requires Monotone(es) && 0 < i <= |es| && CutAt(es, i - 1)
    requires hold == RunTo(es, i).hold && until == es[i - 1].now + hold
    ensures GuardedAt(es, i, until, hold)
  {
    RunInv(es, i - 1);
    CutGuards(RunTo(es, i - 1), es[i - 1].now, es[i - 1].sample);
  }

  lemma GuardedNext(es: seq<Event>, j: nat, until: nat, hold: nat)
    requires Monotone(es) && 1 < j <= |es| && GuardedAt(es, j - 1, until, hold)
    ensures GuardedAt(es, j, until, hold)
  {
    RunInv(es, j - 1);
    GuardedStep(RunTo(es, j - 1), RunTo(es, j), es[j - 2].now, es[j - 1].now, es[j - 1].sample, until, hold);
  }

  lemma {:induction false} GuardedRun(es: seq<Event>, i: nat, j: nat, until: nat, hold: nat)
    requires Monotone(es) && 0 < i <= j <= |es| && GuardedAt(es, i, until, hold)
    ensures GuardedAt(es, j, until, hold)
    decreases j
  {
    if j > i {
      GuardedRun(es, i, j - 1, until, hold);
      GuardedNext(es, j, until, hold);
    }
  }

  ghost predicate RisesAt(es: seq<Event>, j: nat)
    requires j < |es|
  {
    RunTo(es, j + 1).factor > RunTo(es, j).factor
  }

  lemma RiseNeedsRelease(es: seq<Event>, j: nat, until: nat, hold: nat)
    requires Monotone(es) && 0 < j < |es| && GuardedAt(es, j, until, hold) && RisesAt(es, j)
    ensures es[j].now >= until
  {
    RunInv(es, j);
    RiseAfterHold(RunTo(es, j), es[j].now, es[j].sample);
  }

  /** No rise within the hold-down of any earlier cut, which is at least five seconds. */
  lemma NoEarlyRise(es: seq<Event>, i: nat, j: nat, until: nat, hold: nat)
    requires Monotone(es) && 0 < i <= j < |es| && CutAt(es, i - 1) && RisesAt(es, j)
    requires hold == RunTo(es, i).hold && until == es[i - 1].now + hold
    ensures es[j].now >= until
  {
    GuardedFirst(es, i, until, hold);
    GuardedRun(es, i, j, until, hold);
    RiseNeedsRelease(es, j, until, hold);
  }
}
