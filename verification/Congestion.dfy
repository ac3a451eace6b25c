/** Queue congestion of one link: the factor that scales its scheduling weight, dropped at
    once when packets wait too long and raised gradually. Times are nanoseconds on a
    monotone clock; the counters are 64-bit and wrap around. */
module Congestion {
  import opened Bytes
  import opened Common

  const SECOND: nat := 1_000_000_000
  const WRAP: nat := 0x1_0000_0000_0000_0000
  const MIN_FACTOR: real := 0.1
  const QUEUE_FULL_CAP: real := 0.3
  const SEND_FAILED_CAP: real := 0.25
  const RECOVERY_PER_SECOND: real := 0.15
  const HOLD_DOWN: nat := SECOND
  const MIN_WINDOW: nat := 50_000_000

  /** The factor a link with this average queue delay (microseconds) could safely carry:
      straight lines between the anchors 1, 5, 20 and 60 ms, constant outside them. */
  function DelayTarget(us: nat): real {
    var d := us as real;
    if d <= 1000.0 then 1.0
    else if d <= 5000.0 then Line(d, 1000.0, 1.0, 5000.0, 0.8)
    else if d <= 20000.0 then Line(d, 5000.0, 0.8, 20000.0, 0.3)
    else if d <= 60000.0 then Line(d, 20000.0, 0.3, 60000.0, MIN_FACTOR)
    else MIN_FACTOR
  }

  function Line(x: real, x0: real, y0: real, x1: real, y1: real): real
    requires x0 < x1
  {
    y0 + (y1 - y0) * (x - x0) / (x1 - x0)
  }

  function Smaller(x: real, y: real): real {
    if x <= y then x else y
  }

  function NextFactor(current: real, target: real, dt: real, held: bool): real {
    var t := Clamp(target, MIN_FACTOR, 1.0);
    if t < current then t
    else if held then current
    else Smaller(current + RECOVERY_PER_SECOND * dt, t)
  }

  datatype Snapshot = Snapshot(
    delaySum: nat, delaySamples: nat, waitSum: nat, waitSamples: nat, queueFull: nat, sendFailed: nat, stall: nat)

  datatype Tracker = Tracker(
    factor: real, lastUpdate: Option<nat>, lastDrop: Option<nat>, prev: Snapshot, delayRecent: nat, waitRecent: nat)

  const START: Tracker := Tracker(1.0, None, None, Snapshot(0, 0, 0, 0, 0, 0, 0), 0, 0)

  function WrappingSub(a: nat, b: nat): nat {
    (a - b) % WRAP
  }

  function MeanDelta(sum: nat, prevSum: nat, n: nat, prevN: nat): nat {
    if WrappingSub(n, prevN) == 0 then 0 else WrappingSub(sum, prevSum) / WrappingSub(n, prevN)
  }

  function Seconds(ns: nat): real {
    ns as real / SECOND as real
  }

  function RecentDelay(prev: Snapshot, cur: Snapshot): nat {
    var average := MeanDelta(cur.delaySum, prev.delaySum, cur.delaySamples, prev.delaySamples);
    if average >= cur.stall then average else cur.stall
  }

  function Capped(x: real, applies: bool, cap: real): real {
    if applies then Smaller(x, cap) else x
  }

  function Target(prev: Snapshot, cur: Snapshot): real {
    Capped(Capped(DelayTarget(RecentDelay(prev, cur)), cur.queueFull != prev.queueFull, QUEUE_FULL_CAP),
           cur.sendFailed != prev.sendFailed, SEND_FAILED_CAP)
  }

  predicate Held(t: Tracker, now: nat) {
    t.lastDrop.Some? && Since(now, t.lastDrop.value) < HOLD_DOWN
  }

  /** Whether the window since the last update is long enough to be judged. */
  predicate Judges(t: Tracker, now: nat) {
    t.lastUpdate.Some? && Since(now, t.lastUpdate.value) >= MIN_WINDOW
  }

  function Next(t: Tracker, now: nat, cur: Snapshot): real
    requires Judges(t, now)
  {
    NextFactor(t.factor, Target(t.prev, cur), Seconds(Since(now, t.lastUpdate.value)), Held(t, now))
  }

  function Update(t: Tracker, now: nat, cur: Snapshot): Tracker {
    if t.lastUpdate.None? then t.(prev := cur, lastUpdate := Some(now))
    else if !Judges(t, now) then t
    else
      var next := Next(t, now, cur);
      Tracker(next, Some(now), if next < t.factor then Some(now) else t.lastDrop, cur, RecentDelay(t.prev, cur),
              MeanDelta(cur.waitSum, t.prev.waitSum, cur.waitSamples, t.prev.waitSamples))
  }

  // ----- one update

  ghost function Fall(drop: real, fraction: real): real {
    drop * fraction
  }

  lemma LineAt(x: real, x0: real, y0: real, x1: real, y1: real)
    requires x0 < x1
    ensures Line(x, x0, y0, x1, y1) == y0 + Fall(y1 - y0, (x - x0) / (x1 - x0))
  {
  }

  lemma Fractions(a: real, b: real, w: real)
    requires 0.0 <= a <= b <= w && w > 0.0
    ensures 0.0 <= a / w <= b / w <= 1.0
  {
  }

  lemma LineFalls(x: real, x': real, x0: real, y0: real, x1: real, y1: real)
    requires x0 <= x <= x' <= x1 && x0 < x1 && y1 <= y0
    ensures y1 <= Line(x', x0, y0, x1, y1) <= Line(x, x0, y0, x1, y1) <= y0
  {
    LineAt(x, x0, y0, x1, y1);
    LineAt(x', x0, y0, x1, y1);
    Fractions(x - x0, x' - x0, x1 - x0);
    Between(y1 - y0, (x - x0) / (x1 - x0), (x' - x0) / (x1 - x0));
  }

  lemma Between(drop: real, a: real, b: real)
    requires drop <= 0.0 && 0.0 <= a <= b <= 1.0
    ensures drop <= Fall(drop, b) <= Fall(drop, a) <= 0.0
  {
    Downhill(drop, 0.0, a);
    Downhill(drop, a, b);
    Downhill(drop, b, 1.0);
  }

  lemma Downhill(slope: real, a: real, b: real)
    requires slope <= 0.0 && a <= b
    ensures slope * b <= slope * a
  {
    assert slope * (b - a) <= 0.0;
    assert slope * b == slope * a + slope * (b - a);
  }

  lemma TargetAtMost(us: nat)
    ensures MIN_FACTOR <= DelayTarget(us) <= 1.0
    ensures us > 5000 ==> DelayTarget(us) <= 0.8
    ensures us > 20000 ==> DelayTarget(us) <= 0.3
    ensures us <= 5000 ==> DelayTarget(us) >= 0.8
    ensures us <= 20000 ==> DelayTarget(us) >= 0.3
  {
    var d := us as real;
    if 1000.0 < d <= 5000.0 { LineFalls(d, d, 1000.0, 1.0, 5000.0, 0.8); }
    if 5000.0 < d <= 20000.0 { LineFalls(d, d, 5000.0, 0.8, 20000.0, 0.3); }
    if 20000.0 < d <= 60000.0 { LineFalls(d, d, 20000.0, 0.3, 60000.0, MIN_FACTOR); }
  }

  /** More queue delay never earns a larger factor. */
  lemma TargetFalls(a: nat, b: nat)
    requires a <= b
    ensures DelayTarget(b) <= DelayTarget(a)
  {
    var x, y := a as real, b as real;
    TargetAtMost(a);
    TargetAtMost(b);
    if 1000.0 < x && y <= 5000.0 { LineFalls(x, y, 1000.0, 1.0, 5000.0, 0.8); }
    if 5000.0 < x && y <= 20000.0 { LineFalls(x, y, 5000.0, 0.8, 20000.0, 0.3); }
    if 20000.0 < x && y <= 60000.0 { LineFalls(x, y, 20000.0, 0.3, 60000.0, MIN_FACTOR); }
  }

  ghost predicate Inv(t: Tracker) {
    MIN_FACTOR <= t.factor <= 1.0
  }

  lemma NextRange(current: real, target: real, dt: real, held: bool)
    requires MIN_FACTOR <= current <= 1.0 && dt >= 0.0
    ensures MIN_FACTOR <= NextFactor(current, target, dt, held) <= Clamp(target, MIN_FACTOR, 1.0) <= 1.0
    ensures NextFactor(current, target, dt, held) <= current + RECOVERY_PER_SECOND * dt
    ensures held ==> NextFactor(current, target, dt, held) <= current
  {
  }

  /** What a judged window may do: the factor ends at or under what the delay and the loss
      events allow, and it rises by at most 0.15 a second and not at all while held. */
  lemma UpdateBounds(t: Tracker, now: nat, cur: Snapshot)
    requires Inv(t)
    ensures var t' := Update(t, now, cur);
            && Inv(t')
            && (Judges(t, now) ==> t'.factor <= Clamp(Target(t.prev, cur), MIN_FACTOR, 1.0))
            && (t'.factor > t.factor ==> Judges(t, now) && !Held(t, now))
  {
    if Judges(t, now) {
      NextRange(t.factor, Target(t.prev, cur), Seconds(Since(now, t.lastUpdate.value)), Held(t, now));
    }
  }

  // ----- exactly what a judged window does

  /** Four straight pieces, given by the proportion of the way between their ends. */
  lemma DelayTargetIs(us: nat)
    ensures us <= 1000 ==> DelayTarget(us) == 1.0
    ensures 1000 <= us <= 5000 ==> (1.0 - DelayTarget(us)) * 4000.0 == 0.2 * (us - 1000) as real
    ensures 5000 <= us <= 20_000 ==> (0.8 - DelayTarget(us)) * 15_000.0 == 0.5 * (us - 5000) as real
    ensures 20_000 <= us <= 60_000 ==> (0.3 - DelayTarget(us)) * 40_000.0 == 0.2 * (us - 20_000) as real
    ensures 60_000 <= us ==> DelayTarget(us) == 0.1
  {
  }

  /** The mean over a window is the exact one although the counters wrap around. */
  lemma MeanSurvivesWrap(sum: nat, prevSum: nat, n: nat, prevN: nat)
    requires prevSum <= sum < prevSum + 0x1_0000_0000_0000_0000 && prevN <= n < prevN + 0x1_0000_0000_0000_0000
    ensures MeanDelta(sum % 0x1_0000_0000_0000_0000, prevSum % 0x1_0000_0000_0000_0000,
                      n % 0x1_0000_0000_0000_0000, prevN % 0x1_0000_0000_0000_0000)
            == if n == prevN then 0 else (sum - prevSum) / (n - prevN)
  {
    WrappedDifference(sum, prevSum);
    WrappedDifference(n, prevN);
  }

  lemma WrappedDifference(a: nat, b: nat)
    requires b <= a < b + WRAP
    ensures WrappingSub(a % WRAP, b % WRAP) == a - b
  {
    var x := a % WRAP - b % WRAP;
    assert a - b == x || a - b == x + WRAP;
  }

  /** What delay and losses allow: the delay's target, at most 0.3 after a full queue and at most
      0.25 after a failed send. The delay is the window's mean, or the present stall if longer. */
  ghost predicate Allows(prev: Snapshot, cur: Snapshot, target: real) {
    var mean := MeanDelta(cur.delaySum, prev.delaySum, cur.delaySamples, prev.delaySamples);
    var delay := DelayTarget(Max(mean, cur.stall));
    var full, failed := cur.queueFull != prev.queueFull, cur.sendFailed != prev.sendFailed;
    && target <= delay && (full ==> target <= 0.3) && (failed ==> target <= 0.25)
    && (target == delay || (full && target == 0.3) || (failed && target == 0.25))
  }

  lemma TargetAllows(prev: Snapshot, cur: Snapshot)
    ensures Allows(prev, cur, Target(prev, cur)) && 0.1 <= Target(prev, cur) <= 1.0
  {
    TargetAtMost(RecentDelay(prev, cur));
  }

  /** A window of at least 50 ms is judged: down to the target at once; no rise within a second
      of the last drop; otherwise up by 0.15 a second, but not past the target. */
  lemma UpdateIs(t: Tracker, now: nat, cur: Snapshot, target: real)
    requires t.lastUpdate.Some? && t.lastUpdate.value + 50_000_000 <= now && Allows(t.prev, cur, target)
    requires t.lastDrop.Some? ==> t.lastDrop.value <= now
    ensures var t', dt := Update(t, now, cur), (now - t.lastUpdate.value) as real / 1_000_000_000.0;
            && t'.factor == (if target < t.factor then target
                             else if t.lastDrop.Some? && now < t.lastDrop.value + 1_000_000_000 then t.factor
                             else if t.factor + 0.15 * dt < target then t.factor + 0.15 * dt
                             else target)
            && t'.lastUpdate == Some(now) && t'.prev == cur
            && t'.lastDrop == (if target < t.factor then Some(now) else t.lastDrop)
            && t'.delayRecent == Max(MeanDelta(cur.delaySum, t.prev.delaySum, cur.delaySamples, t.prev.delaySamples), cur.stall)
            && t'.waitRecent == MeanDelta(cur.waitSum, t.prev.waitSum, cur.waitSamples, t.prev.waitSamples)
  {
    TargetAllows(t.prev, cur);
    assert Judges(t, now);
  }

  /** The first reading is only the baseline of the next window; a window of less than 50 ms
      changes nothing and goes on. */
  lemma NotJudged(t: Tracker, now: nat, cur: Snapshot)
    requires t.lastUpdate.Some? ==> now < t.lastUpdate.value + 50_000_000
    ensures var t' := Update(t, now, cur);
            && t'.factor == t.factor && t'.lastDrop == t.lastDrop
            && t'.prev == (if t.lastUpdate.None? then cur else t.prev)
            && t'.lastUpdate == (if t.lastUpdate.None? then Some(now) else t.lastUpdate)
  {
  }

  // ----- runs

  datatype Event = Event(now: nat, counters: Snapshot)

  ghost function RunTo(es: seq<Event>, k: nat): Tracker
    requires k <= |es|
  {
    if k == 0 then START else Update(RunTo(es, k - 1), es[k - 1].now, es[k - 1].counters)
  }

  ghost predicate Monotone(es: seq<Event>) {
    forall i, j :: 0 <= i <= j < |es| ==> es[i].now <= es[j].now
  }

  /** In every reachable state the factor lies in [0.1, 1]. */
  lemma {:induction false} RunInv(es: seq<Event>, k: nat)
    requires k <= |es|
    ensures Inv(RunTo(es, k))
  {
    if k > 0 {
      RunInv(es, k - 1);
      UpdateBounds(RunTo(es, k - 1), es[k - 1].now, es[k - 1].counters);
    }
  }

  ghost predicate DropsAt(es: seq<Event>, k: nat)
    requires k < |es|
  {
    RunTo(es, k + 1).factor < RunTo(es, k).factor
  }

  ghost predicate RisesAt(es: seq<Event>, k: nat)
    requires k < |es|
  {
    RunTo(es, k + 1).factor > RunTo(es, k).factor
  }

  ghost predicate DroppedSince(es: seq<Event>, k: nat, t: nat)
    requires k <= |es|
  {
    var drop := RunTo(es, k).lastDrop;
    drop.Some? && drop.value >= t
  }

  lemma {:induction false} DropRemembered(es: seq<Event>, i: nat, k: nat, t: nat)
    requires Monotone(es) && i < k <= |es| && DropsAt(es, i) && t == es[i].now
    ensures DroppedSince(es, k, t)
    decreases k
  {
    if k > i + 1 {
      DropRemembered(es, i, k - 1, t);
    }
  }

  /** After any drop the factor does not rise for a whole second. */
  lemma NoEarlyRise(es: seq<Event>, i: nat, j: nat)
    requires Monotone(es) && i < j < |es| && DropsAt(es, i) && RisesAt(es, j)
    ensures es[j].now >= es[i].now + HOLD_DOWN
  {
    DropRemembered(es, i, j, es[i].now);
    RunInv(es, j);
    UpdateBounds(RunTo(es, j), es[j].now, es[j].counters);
  }

  /** The nanosecond up to which windows have been judged, or the start of the first one. */
  ghost function JudgedTo(t: Tracker, otherwise: nat): nat {
    if t.lastUpdate.Some? then t.lastUpdate.value else otherwise
  }

  ghost predicate RoseAtMost(from: real, to: real, t0: nat, t1: nat) {
    to <= from + RECOVERY_PER_SECOND * (Seconds(t1) - Seconds(t0))
  }

  lemma RoseStep(from: real, mid: real, to: real, t0: nat, t1: nat, t2: nat)
    requires RoseAtMost(from, mid, t0, t1) && t1 <= t2 && to <= mid + RECOVERY_PER_SECOND * Seconds(t2 - t1)
    ensures RoseAtMost(from, to, t0, t2)
  {
    assert Seconds(t2 - t1) == Seconds(t2) - Seconds(t1);
  }

  lemma StepRise(t: Tracker, now: nat, cur: Snapshot)
    requires Inv(t) && JudgedTo(t, now) <= now
    ensures var t' := Update(t, now, cur); JudgedTo(t, now) <= JudgedTo(t', now) <= now
    ensures var t' := Update(t, now, cur);
            t'.factor <= t.factor + RECOVERY_PER_SECOND * Seconds(JudgedTo(t', now) - JudgedTo(t, now))
  {
    if Judges(t, now) {
      NextRange(t.factor, Target(t.prev, cur), Seconds(Since(now, t.lastUpdate.value)), Held(t, now));
    }
  }

  ghost predicate RoseTo(es: seq<Event>, i: nat, j: nat, t0: nat)
    requires i <= j <= |es|
  {
    var a, b := RunTo(es, i), RunTo(es, j);
    b.lastUpdate.Some? && RoseAtMost(a.factor, b.factor, t0, b.lastUpdate.value)
  }

  lemma {:induction false} UpdatedBy(es: seq<Event>, k: nat)
    requires Monotone(es) && 0 < k <= |es|
    ensures RunTo(es, k).lastUpdate.Some? && RunTo(es, k).lastUpdate.value <= es[k - 1].now
  {
    if k > 1 {
      UpdatedBy(es, k - 1);
    }
  }

  /** Gradual recovery over whole runs: between two states the factor gained at most 0.15
      for every second of judged time between them. */
  lemma {:induction false} GradualRecovery(es: seq<Event>, i: nat, j: nat, t0: nat)
    requires Monotone(es) && 0 < i <= j <= |es| && RunTo(es, i).lastUpdate == Some(t0)
    ensures RoseTo(es, i, j, t0)
    decreases j
  {
    if j > i {
      GradualRecovery(es, i, j - 1, t0);
      RoseNext(es, i, j, t0);
    } else {
      assert RECOVERY_PER_SECOND * (Seconds(t0) - Seconds(t0)) == 0.0;
    }
  }

  lemma RoseNext(es: seq<Event>, i: nat, j: nat, t0: nat)
    requires Monotone(es) && 0 < i < j <= |es| && RoseTo(es, i, j - 1, t0)
    ensures RoseTo(es, i, j, t0)
  {
    var t, t', e := RunTo(es, j - 1), RunTo(es, j), es[j - 1];
    UpdatedBy(es, j - 1);
    RunInv(es, j - 1);
    StepRise(t, e.now, e.counters);
    RoseStep(RunTo(es, i).factor, t.factor, t'.factor, t0, t.lastUpdate.value, t'.lastUpdate.value);
  }
}

/** The congestion tracker as the daemon keeps it, in place. */
module CongestionTracking {
  import opened Bytes
  import opened Common
  import opened Congestion
  import C = Congestion

  class CongestionTracker {
    var factor: real
    var lastUpdate: Option<nat>
    var lastDrop: Option<nat>
    var prev: Snapshot
    var delayRecent: nat
    var waitRecent: nat

    ghost function View(): Tracker
      reads this
    {
      Tracker(factor, lastUpdate, lastDrop, prev, delayRecent, waitRecent)
    }

    constructor ()
      ensures View() == START && Inv(View())
    {
      factor, lastUpdate, lastDrop := 1.0, None, None;
      prev, delayRecent, waitRecent := Snapshot(0, 0, 0, 0, 0, 0, 0), 0, 0;
    }

    method Update(now: nat, cur: Snapshot) returns (f: real)
      requires Inv(View())
      modifies this
      ensures View() == C.Update(old(View()), now, cur) && Inv(View()) && f == factor
    {
      UpdateBounds(View(), now, cur);
      if lastUpdate.None? {
        prev, lastUpdate := cur, Some(now);
        return factor;
      }
      var dt := Since(now, lastUpdate.value);
      if dt < MIN_WINDOW {
        return factor;
      }
      var average := MeanDelta(cur.delaySum, prev.delaySum, cur.delaySamples, prev.delaySamples);
      waitRecent := MeanDelta(cur.waitSum, prev.waitSum, cur.waitSamples, prev.waitSamples);
      delayRecent := if average >= cur.stall then average else cur.stall;
      var target := DelayTarget(delayRecent);
      if cur.queueFull != prev.queueFull {
        target := Smaller(target, QUEUE_FULL_CAP);
      }
      if cur.sendFailed != prev.sendFailed {
        target := Smaller(target, SEND_FAILED_CAP);
      }
      var held := lastDrop.Some? && Since(now, lastDrop.value) < HOLD_DOWN;
      var next := NextFactor(factor, target, Seconds(dt), held);
      if next < factor {
        lastDrop := Some(now);
      }
      factor, prev, lastUpdate := next, cur, Some(now);
      f := factor;
    }
  }
}
