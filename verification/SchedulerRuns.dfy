/** Whole runs of the scheduler: byte caps over any second, positive weights in every
    reachable state, and proportional shares between two rebuilds. */
module SchedulerRuns {
  import opened Bytes
  import opened Scheduling
  import opened RateCap
  import C = Congestion
  import D = Delivery
  import P = Primary
  import W = Swrr

  /** `Send` carries the position of the entry that wins, when the packet is scheduled by
      round robin; a primary link takes the packet without competition. */
  datatype Op =
    | Send(len: nat, x: nat)
    | Penalize(link: nat, duration: nat)
    | Refresh(scores: seq<real>, caps: seq<Option<real>>, cfg: P.Config, peer: Option<nat>)
    | Congest(snapshots: seq<C.Snapshot>)
    | Deliver(samples: seq<Option<D.Sample>>)

  datatype Timed = Timed(now: nat, op: Op)

  predicate UsesSwrr(s: Sched) {
    s.choice.primary.None? && s.entries != []
  }

  function Step(s: Sched, t: Timed): Sched {
    match t.op
    case Send(len, x) => if UsesSwrr(s) && x < |s.entries| then AfterPick(s, t.now, len, x) else s
    case Penalize(link, duration) => s.(penalized := Penalized(s.penalized, link, t.now + duration))
    case Refresh(scores, caps, cfg, peer) => Refreshed(s, scores, caps, cfg, peer)
    case Congest(snapshots) => Congested(s, t.now, snapshots)
    case Deliver(samples) => Delivered(s, t.now, samples)
  }

  ghost predicate Ok(s: Sched, t: Timed) {
    t.op.Send? && UsesSwrr(s) ==> WinsPacket(s, t.now, t.op.len, t.op.x)
  }

  /** Step `k` leads from state `k` to the next. */
  ghost predicate GoesAt(ss: seq<Sched>, ts: seq<Timed>, k: nat)
    requires k < |ts| && |ss| == |ts| + 1
  {
    Ok(ss[k], ts[k]) && ss[k + 1] == Step(ss[k], ts[k])
  }

  /** The states `ss` of a scheduler that starts empty and takes the steps `ts`. */
  ghost predicate IsRun(ss: seq<Sched>, ts: seq<Timed>) {
    && |ss| == |ts| + 1 && ss[0] == EMPTY
    && (forall i, j :: 0 <= i <= j < |ts| ==> ts[i].now <= ts[j].now)
    && forall k: nat :: k < |ts| ==> GoesAt(ss, ts, k)
  }

  /** The time of the last of the first `k` steps. */
  ghost function ClockAt(ts: seq<Timed>, k: nat): nat
    requires k <= |ts|
  {
    if k == 0 then 0 else ts[k - 1].now
  }

  // ----- byte caps

  /** What round robin schedules onto `link` in one step. */
  ghost function SentNow(s: Sched, t: Timed, link: nat): seq<Sent> {
    if t.op.Send? && UsesSwrr(s) && t.op.x < |s.entries| && s.entries[t.op.x].link == link
    then [Sent(t.now, t.op.len)] else []
  }

  ghost function LogTo(ss: seq<Sched>, ts: seq<Timed>, k: nat, link: nat): seq<Sent>
    requires k <= |ts| < |ss|
  {
    if k == 0 then [] else LogTo(ss, ts, k - 1, link) + SentNow(ss[k - 1], ts[k - 1], link)
  }

  ghost predicate NoFallback(s: Sched, t: Timed) {
    t.op.Send? && UsesSwrr(s) ==> !AllOverCap(s, t.now, t.op.len)
  }

  /** The configuration gives `link` the cap `cap` at every rebuild. */
  ghost predicate Configured(t: Timed, link: nat, cap: real) {
    t.op.Refresh? ==> link < |t.op.caps| && t.op.caps[link] == Some(cap)
  }

  ghost predicate CapsEntries(es: seq<Entry>, link: nat, cap: real) {
    forall i :: 0 <= i < |es| && es[i].link == link ==> es[i].cap == Some(cap)
  }

  ghost predicate CapInv(s: Sched, log: seq<Sent>, link: nat, cap: real, clock: nat) {
    CapsEntries(s.entries, link, cap) && WindowInv(WindowOf(s.rate, link), log, Budget(cap), clock)
  }

  lemma LaterWindow(w: Option<Window>, log: seq<Sent>, budget: nat, clock: nat, now: nat)
    requires WindowInv(w, log, budget, clock) && clock <= now
    ensures WindowInv(w, log, budget, now)
  {
  }

  /** Rebuilding entries, reweighing and penalties never touch the windows. */
  lemma QuietStep(s: Sched, t: Timed, link: nat, cap: real)
    requires !t.op.Send? && CapsEntries(s.entries, link, cap) && Configured(t, link, cap)
    ensures Step(s, t).rate == s.rate && CapsEntries(Step(s, t).entries, link, cap) && SentNow(s, t, link) == []
  {
  }

  lemma RecordedAt(rate: map<nat, Window>, link: nat, len: nat, other: nat)
    ensures WindowOf(Recorded(rate, link, len), other)
            == if link == other && link in rate then Some(rate[link].(bytes := rate[link].bytes + len))
               else WindowOf(rate, other)
  {
  }

  lemma PickElsewhere(s: Sched, t: Timed, log: seq<Sent>, link: nat, cap: real, clock: nat)
    requires t.op.Send? && UsesSwrr(s) && t.op.x < |s.entries| && s.entries[t.op.x].link != link
    requires CapInv(s, log, link, cap, clock) && clock <= t.now
    ensures WindowInv(WindowOf(Step(s, t).rate, link), log, Budget(cap), t.now)
  {
    var n := |s.entries|;
    RolledAt(s.rate, s.entries, t.now, n, link);
    RecordedAt(RolledRates(s.rate, s.entries, t.now, n), s.entries[t.op.x].link, t.op.len, link);
    RollKeeps(WindowOf(s.rate, link), log, Budget(cap), clock, t.now);
    LaterWindow(WindowOf(s.rate, link), log, Budget(cap), clock, t.now);
  }

  /** The window after a pick of the link itself. */
  lemma PickedWindow(s: Sched, now: nat, len: nat, x: nat, link: nat)
    requires x < |s.entries| && s.entries[x].link == link && s.entries[x].cap.Some?
    ensures var w := Rolled(WindowOf(s.rate, link), now);
            WindowOf(AfterPick(s, now, len, x).rate, link) == Some(w.(bytes := w.bytes + len))
  {
    var n := |s.entries|;
    RolledAt(s.rate, s.entries, now, n, link);
    assert HasCapped(s.entries, n, link);
    RecordedAt(RolledRates(s.rate, s.entries, now, n), link, len, link);
  }

  /** Without the fallback, the winner's packet fits what is left of its budget. */
  lemma PickFits(s: Sched, t: Timed, link: nat, cap: real)
    requires t.op.Send? && UsesSwrr(s) && Ok(s, t) && NoFallback(s, t)
    requires s.entries[t.op.x].link == link && CapsEntries(s.entries, link, cap)
    ensures Rolled(WindowOf(s.rate, link), t.now).bytes + t.op.len <= Budget(cap)
  {
    CompetingUnderCap(s, t.now, t.op.len, t.op.x);
  }

  lemma PickHere(w: Option<Window>, log: seq<Sent>, budget: nat, clock: nat, now: nat, len: nat)
    requires WindowInv(w, log, budget, clock) && clock <= now && Rolled(w, now).bytes + len <= budget
    ensures var w' := Rolled(w, now);
            WindowInv(Some(w'.(bytes := w'.bytes + len)), log + [Sent(now, len)], budget, now)
  {
    RollKeeps(w, log, budget, clock, now);
    RecordKeeps(Rolled(w, now), log, budget, now, len);
  }

  lemma PickKeepsCaps(s: Sched, t: Timed, link: nat, cap: real)
    requires t.op.Send? && CapsEntries(s.entries, link, cap)
    ensures CapsEntries(Step(s, t).entries, link, cap)
  {
  }

  lemma CapHere(s: Sched, s': Sched, t: Timed, log: seq<Sent>, link: nat, cap: real, clock: nat)
    requires CapInv(s, log, link, cap, clock) && clock <= t.now && s' == Step(s, t)
    requires t.op.Send? && UsesSwrr(s) && Ok(s, t) && NoFallback(s, t) && s.entries[t.op.x].link == link
    ensures WindowInv(WindowOf(s'.rate, link), log + [Sent(t.now, t.op.len)], Budget(cap), t.now)
  {
    PickFits(s, t, link, cap);
    PickHere(WindowOf(s.rate, link), log, Budget(cap), clock, t.now, t.op.len);
    PickedWindow(s, t.now, t.op.len, t.op.x, link);
  }

  lemma CapSend(s: Sched, s': Sched, t: Timed, log: seq<Sent>, link: nat, cap: real, clock: nat)
    requires CapInv(s, log, link, cap, clock) && clock <= t.now && s' == Step(s, t)
    requires t.op.Send? && UsesSwrr(s) && Ok(s, t) && NoFallback(s, t)
    ensures WindowInv(WindowOf(s'.rate, link), log + SentNow(s, t, link), Budget(cap), t.now)
  {
    if s.entries[t.op.x].link == link {
      CapHere(s, s', t, log, link, cap, clock);
    } else {
      PickElsewhere(s, t, log, link, cap, clock);
      assert log + [] == log;
    }
  }

  lemma CapQuiet(s: Sched, s': Sched, t: Timed, log: seq<Sent>, link: nat, cap: real, clock: nat)
    requires CapInv(s, log, link, cap, clock) && clock <= t.now && s' == Step(s, t)
    requires !t.op.Send? && Configured(t, link, cap)
    ensures CapInv(s', log + SentNow(s, t, link), link, cap, t.now)
  {
    QuietStep(s, t, link, cap);
    LaterWindow(WindowOf(s.rate, link), log, Budget(cap), clock, t.now);
    assert log + [] == log;
  }

  lemma CapStep(s: Sched, s': Sched, t: Timed, log: seq<Sent>, link: nat, cap: real, clock: nat)
    requires CapInv(s, log, link, cap, clock) && clock <= t.now && s' == Step(s, t)
    requires Ok(s, t) && NoFallback(s, t) && Configured(t, link, cap)
    ensures CapInv(s', log + SentNow(s, t, link), link, cap, t.now)
  {
    if !t.op.Send? {
      CapQuiet(s, s', t, log, link, cap, clock);
    } else if UsesSwrr(s) {
      PickKeepsCaps(s, t, link, cap);
      CapSend(s, s', t, log, link, cap, clock);
    } else {
      LaterWindow(WindowOf(s.rate, link), log, Budget(cap), clock, t.now);
      assert log + [] == log;
    }
  }

  ghost predicate CappedAt(ss: seq<Sched>, ts: seq<Timed>, k: nat, link: nat, cap: real)
    requires k < |ts| < |ss|
  {
    NoFallback(ss[k], ts[k]) && Configured(ts[k], link, cap)
  }

  ghost predicate Capped(ss: seq<Sched>, ts: seq<Timed>, link: nat, cap: real)
    requires |ts| < |ss|
  {
    forall k: nat :: k < |ts| ==> CappedAt(ss, ts, k, link, cap)
  }

  ghost predicate CapInvAt(ss: seq<Sched>, ts: seq<Timed>, k: nat, link: nat, cap: real)
    requires k <= |ts| < |ss|
  {
    CapInv(ss[k], LogTo(ss, ts, k, link), link, cap, ClockAt(ts, k))
  }

  lemma CapNext(ss: seq<Sched>, ts: seq<Timed>, k: nat, link: nat, cap: real)
    requires IsRun(ss, ts) && Capped(ss, ts, link, cap) && 0 < k <= |ts| && CapInvAt(ss, ts, k - 1, link, cap)
    ensures CapInvAt(ss, ts, k, link, cap)
  {
    assert GoesAt(ss, ts, k - 1) && CappedAt(ss, ts, k - 1, link, cap);
    CapStep(ss[k - 1], ss[k], ts[k - 1], LogTo(ss, ts, k - 1, link), link, cap, ClockAt(ts, k - 1));
  }

  lemma CapStart(ss: seq<Sched>, ts: seq<Timed>, link: nat, cap: real)
    requires IsRun(ss, ts)
    ensures CapInvAt(ss, ts, 0, link, cap)
  {
    EmptyLog(Budget(cap));
  }

  lemma {:induction false} CapRun(ss: seq<Sched>, ts: seq<Timed>, k: nat, link: nat, cap: real)
    requires IsRun(ss, ts) && Capped(ss, ts, link, cap) && k <= |ts|
    ensures CapInvAt(ss, ts, k, link, cap)
    decreases k
  {
    if k == 0 {
      CapStart(ss, ts, link, cap);
    } else {
      CapRun(ss, ts, k - 1, link, cap);
      CapNext(ss, ts, k, link, cap);
    }
  }

  lemma EmptyLog(budget: nat)
    ensures WindowInv(None, [], budget, 0)
  {
    forall t: int ensures Doubled([], budget, t) {
    }
  }

  /** Bandwidth cap: in a run that never falls back to links over their cap, round robin
      puts at most twice the budget onto a capped link in any second, through any rebuilds,
      penalties and changes of weight; in bits, at most twice the cap. */
  lemma TwiceBudget(ss: seq<Sched>, ts: seq<Timed>, k: nat, link: nat, cap: real, t: int)
    requires IsRun(ss, ts) && Capped(ss, ts, link, cap) && k <= |ts|
    ensures Between(LogTo(ss, ts, k, link), t, t + 1_000_000_000) <= 2 * Budget(cap)
    ensures (8 * Between(LogTo(ss, ts, k, link), t, t + 1_000_000_000)) as real <= 2.0 * (if cap > 0.0 then cap
        else 0.0) * 1_000_000.0
  {
    CapRun(ss, ts, k, link, cap);
    assert Doubled(LogTo(ss, ts, k, link), Budget(cap), t);
    BudgetInBits(cap, Budget(cap));
    TwiceInBits(Between(LogTo(ss, ts, k, link), t, t + 1_000_000_000), Budget(cap), (if cap > 0.0 then cap
        else 0.0) * 1_000_000.0);
  }

  lemma TwiceInBits(n: nat, budget: nat, bits: real)
    requires n <= 2 * budget && (8 * budget) as real <= bits
    ensures (8 * n) as real <= 2.0 * bits
  {
    assert (8 * n) as real <= (16 * budget) as real == 2.0 * (8 * budget) as real;
  }

  /** A link's window holds what round robin gave the link since the window began. */
  lemma WindowCounts(ss: seq<Sched>, ts: seq<Timed>, k: nat, link: nat, cap: real, now: nat)
    requires IsRun(ss, ts) && Capped(ss, ts, link, cap) && k <= |ts| && ClockAt(ts, k) <= now
    ensures var rate, log := ss[k].rate, LogTo(ss, ts, k, link);
            && (link !in rate ==> log == [])
            && (link in rate && now < rate[link].start + 1_000_000_000
                ==> rate[link].bytes == Between(log, rate[link].start, now + 1))
  {
    CapRun(ss, ts, k, link, cap);
    WindowSum(WindowOf(ss[k].rate, link), LogTo(ss, ts, k, link), Budget(cap), ClockAt(ts, k), now);
  }
}
