/** The weights links compete with: positive and up to date in every reachable state, so
    that the round robin between two rebuilds shares packets in proportion to them. */
module SchedulerWeights {
  import opened Bytes
  import opened Scheduling
  import opened SchedulerRuns
  import C = Congestion
  import D = Delivery
  import W = Swrr
  import X = SwrrExclusion

  ghost predicate TrackersInv(cs: seq<C.Tracker>, ds: seq<D.Tracker>, clock: nat) {
    && (forall t :: t in cs ==> C.Inv(t))
    && forall t :: t in ds ==> D.Inv(t) && D.Later(t, clock)
  }

  /** The effective weight is the base weight scaled by the link's present factors. */
  ghost predicate EntryInv(e: Entry, s: Sched) {
    e.base > 0.0 && e.effective == e.base * LinkFactor(s, e.link) && e.effective > 0.0
  }

  ghost predicate EntriesInv(es: seq<Entry>, s: Sched) {
    forall i :: 0 <= i < |es| ==> EntryInv(es[i], s)
  }

  ghost predicate WeightInv(s: Sched, clock: nat) {
    TrackersInv(s.congestion, s.delivery, clock) && EntriesInv(s.entries, s)
  }

  lemma ProductPositive(a: real, b: real)
    requires a > 0.0 && b > 0.0
    ensures a * b > 0.0
  {
  }

  lemma FactorPositive(s: Sched, link: nat, clock: nat)
    requires TrackersInv(s.congestion, s.delivery, clock)
    ensures LinkFactor(s, link) > 0.0
  {
    if link < |s.congestion| {
      assert C.Inv(s.congestion[link]);
    }
    if link < |s.delivery| {
      RelativeFactor(s.delivery, link);
    }
    ProductPositive(CongestionFactor(s.congestion, link), DeliveryFactor(s.delivery, link));
  }

  lemma ReweighedInv(es: seq<Entry>, s: Sched, clock: nat)
    requires TrackersInv(s.congestion, s.delivery, clock) && forall i :: 0 <= i < |es| ==> es[i].base > 0.0
    ensures EntriesInv(ReweighedAll(es, s), s)
  {
    forall i | 0 <= i < |es| ensures EntryInv(ReweighedAll(es, s)[i], s) {
      FactorPositive(s, es[i].link, clock);
      ProductPositive(es[i].base, LinkFactor(s, es[i].link));
    }
  }

  lemma FreshInv(s: Sched, ups: seq<P.Up>, caps: seq<Option<real>>, clock: nat)
    requires TrackersInv(s.congestion, s.delivery, clock) && forall u :: u in ups ==> u.score > 0.0
    ensures EntriesInv(FreshEntries(ups, caps, s), s)
  {
    forall i | 0 <= i < |ups| ensures EntryInv(FreshEntries(ups, caps, s)[i], s) {
      assert ups[i] in ups;
      FactorPositive(s, ups[i].link, clock);
      ProductPositive(ups[i].score, LinkFactor(s, ups[i].link));
    }
  }

  lemma SameFactors(es: seq<Entry>, s: Sched, s': Sched)
    requires EntriesInv(es, s) && s'.congestion == s.congestion && s'.delivery == s.delivery
    ensures EntriesInv(es, s')
  {
    forall i | 0 <= i < |es| ensures EntryInv(es[i], s') {
      assert EntryInv(es[i], s);
    }
  }

  lemma PickKeeps(s: Sched, now: nat, len: nat, x: nat, i: nat)
    requires x < |s.entries| && i < |s.entries|
    ensures var e := AfterPick(s, now, len, x).entries[i]; e == s.entries[i].(current := e.current)
  {
  }

  lemma PickedEntryInv(s: Sched, now: nat, len: nat, x: nat, i: nat)
    requires EntriesInv(s.entries, s) && x < |s.entries| && i < |s.entries|
    ensures EntryInv(AfterPick(s, now, len, x).entries[i], s)
  {
    PickKeeps(s, now, len, x, i);
    assert EntryInv(s.entries[i], s);
  }

  lemma PickInv(s: Sched, now: nat, len: nat, x: nat, s': Sched)
    requires EntriesInv(s.entries, s) && x < |s.entries| && s' == AfterPick(s, now, len, x)
    ensures EntriesInv(s'.entries, s')
  {
    forall i | 0 <= i < |s'.entries| ensures EntryInv(s'.entries[i], s) {
      PickedEntryInv(s, now, len, x, i);
    }
    SameFactors(s'.entries, s, s');
  }

  lemma RefreshInv(s: Sched, t: Timed, clock: nat, s': Sched)
    requires WeightInv(s, clock) && t.op.Refresh? && s' == Step(s, t)
    ensures EntriesInv(s'.entries, s')
  {
    var ups := Ups(t.op.scores, |t.op.scores|);
    UpsAreLinks(t.op.scores, |t.op.scores|);
    FreshInv(s, ups, t.op.caps, clock);
    SameFactors(s'.entries, s, s');
  }

  lemma LaterTrackers(cs: seq<C.Tracker>, ds: seq<D.Tracker>, clock: nat, now: nat)
    requires TrackersInv(cs, ds, clock) && clock <= now
    ensures TrackersInv(cs, ds, now)
  {
    forall t | t in ds ensures D.Inv(t) && D.Later(t, now) {
      assert D.Later(t, clock);
    }
  }

  lemma UpdatedInv(ts: seq<C.Tracker>, now: nat, snapshots: seq<C.Snapshot>, i: nat)
    requires i < |ts| && C.Inv(ts[i])
    ensures C.Inv(UpdatedAll(ts, now, snapshots)[i])
  {
    if i < |snapshots| {
      C.UpdateBounds(ts[i], now, snapshots[i]);
    }
  }

  lemma ObservedInv(ts: seq<D.Tracker>, now: nat, samples: seq<Option<D.Sample>>, i: nat)
    requires i < |ts| && D.Inv(ts[i]) && D.Later(ts[i], now)
    ensures D.Inv(ObservedAll(ts, now, samples)[i]) && D.Later(ObservedAll(ts, now, samples)[i], now)
  {
    if i < |samples| {
      D.ObserveInv(ts[i], now, samples[i]);
      D.TickRecorded(ts[i], now, samples[i]);
    }
  }

  lemma CongestTrackers(cs: seq<C.Tracker>, ds: seq<D.Tracker>, now: nat, snapshots: seq<C.Snapshot>)
    requires TrackersInv(cs, ds, now)
    ensures TrackersInv(UpdatedAll(Resized(cs, |snapshots|, C.START), now, snapshots), ds, now)
  {
    var ts := Resized(cs, |snapshots|, C.START);
    forall c | c in UpdatedAll(ts, now, snapshots) ensures C.Inv(c) {
      var i: nat :| i < |ts| && UpdatedAll(ts, now, snapshots)[i] == c;
      UpdatedInv(ts, now, snapshots, i);
    }
  }

  lemma DeliverTrackers(cs: seq<C.Tracker>, ds: seq<D.Tracker>, now: nat, samples: seq<Option<D.Sample>>)
    requires TrackersInv(cs, ds, now)
    ensures TrackersInv(cs, ObservedAll(Resized(ds, |samples|, D.START), now, samples), now)
  {
    var ts := Resized(ds, |samples|, D.START);
    forall d | d in ObservedAll(ts, now, samples) ensures D.Inv(d) && D.Later(d, now) {
      var i: nat :| i < |ts| && ObservedAll(ts, now, samples)[i] == d;
      ObservedInv(ts, now, samples, i);
    }
  }

  lemma ReweighInv(s: Sched, s1: Sched, s': Sched, now: nat)
    requires EntriesInv(s.entries, s) && TrackersInv(s1.congestion, s1.delivery, now)
    requires s' == s1.(entries := ReweighedAll(s.entries, s1))
    ensures WeightInv(s', now)
  {
    assert forall i :: 0 <= i < |s.entries| ==> EntryInv(s.entries[i], s);
    ReweighedInv(s.entries, s1, now);
    SameFactors(s'.entries, s1, s');
  }

  lemma CongestInv(s: Sched, t: Timed, s': Sched)
    requires WeightInv(s, t.now) && t.op.Congest? && s' == Step(s, t)
    ensures WeightInv(s', t.now)
  {
    CongestTrackers(s.congestion, s.delivery, t.now, t.op.snapshots);
    var ts := UpdatedAll(Resized(s.congestion, |t.op.snapshots|, C.START), t.now, t.op.snapshots);
    ReweighInv(s, s.(congestion := ts), s', t.now);
  }

  lemma DeliverInv(s: Sched, t: Timed, s': Sched)
    requires WeightInv(s, t.now) && t.op.Deliver? && s' == Step(s, t)
    ensures WeightInv(s', t.now)
  {
    DeliverTrackers(s.congestion, s.delivery, t.now, t.op.samples);
    var ts := ObservedAll(Resized(s.delivery, |t.op.samples|, D.START), t.now, t.op.samples);
    ReweighInv(s, s.(delivery := ts), s', t.now);
  }

  lemma WeightStep(s: Sched, t: Timed, clock: nat, s': Sched)
    requires WeightInv(s, clock) && clock <= t.now && s' == Step(s, t)
    ensures WeightInv(s', t.now)
  {
    LaterTrackers(s.congestion, s.delivery, clock, t.now);
    match t.op
    case Send(len, x) =>
      if UsesSwrr(s) && x < |s.entries| {
        PickInv(s, t.now, len, x, s');
      }
    case Penalize(_, _) => SameFactors(s.entries, s, s');
    case Refresh(_, _, _, _) => RefreshInv(s, t, clock, s');
    case Congest(_) => CongestInv(s, t, s');
    case Deliver(_) => DeliverInv(s, t, s');
  }

  ghost predicate WeightInvAt(ss: seq<Sched>, ts: seq<Timed>, k: nat)
    requires k <= |ts| < |ss|
  {
    WeightInv(ss[k], ClockAt(ts, k))
  }

  lemma WeightNext(ss: seq<Sched>, ts: seq<Timed>, k: nat)
    requires IsRun(ss, ts) && 0 < k <= |ts| && WeightInvAt(ss, ts, k - 1)
    ensures WeightInvAt(ss, ts, k)
  {
    assert GoesAt(ss, ts, k - 1);
    WeightStep(ss[k - 1], ts[k - 1], ClockAt(ts, k - 1), ss[k]);
  }

  /** In every reachable state each entry's effective weight is strictly positive and equals
      its base weight times the link's congestion and delivery factors of that moment. */
  lemma {:induction false} WeightsPositive(ss: seq<Sched>, ts: seq<Timed>, k: nat)
    requires IsRun(ss, ts) && k <= |ts|
    ensures WeightInvAt(ss, ts, k)
  {
    if k > 0 {
      WeightsPositive(ss, ts, k - 1);
      WeightNext(ss, ts, k);
    }
  }

  // ----- proportional shares between two rebuilds

  /** Round robin takes the step. */
  ghost predicate Picks(s: Sched, t: Timed) {
    t.op.Send? && UsesSwrr(s)
  }

  /** Round robin among all entries: nobody excluded by a cap or a penalty. */
  ghost predicate Unrestricted(s: Sched, t: Timed) {
    Picks(s, t) && Competing(s, t.now, t.op.len) == W.All(|s.entries|)
  }

  /** Nothing is picked, and the table stays: a packet for the primary, a penalty, a refresh of
      factors that leaves the weights as they are. */
  ghost predicate Neutral(s: Sched, t: Timed, s': Sched) {
    !Picks(s, t) && PoolOf(s'.entries) == PoolOf(s.entries)
  }

  ghost predicate UnhinderedAt(ss: seq<Sched>, ts: seq<Timed>, k: nat)
    requires k < |ts| < |ss|
  {
    Unrestricted(ss[k], ts[k]) || Neutral(ss[k], ts[k], ss[k + 1])
  }

  /** From step `from` on, for `count` steps, every packet that round robin places is competed
      for without restriction and all other steps leave the table; and the table starts as a
      rebuild leaves it, with all running weights zero. */
  ghost predicate Unhindered(ss: seq<Sched>, ts: seq<Timed>, from: nat, count: nat)
    requires from + count <= |ts| < |ss|
  {
    && ss[from].entries != [] && (forall i :: 0 <= i < |ss[from].entries| ==> ss[from].entries[i].current == 0.0)
    && forall k: nat :: from <= k < from + count ==> UnhinderedAt(ss, ts, k)
  }

  /** The positions picked in these steps, in order. */
  ghost function Winners(ss: seq<Sched>, ts: seq<Timed>, from: nat, count: nat): seq<nat>
    requires from + count <= |ts| < |ss|
  {
    if count == 0 then []
    else
      var k := from + count - 1;
      Winners(ss, ts, from, count - 1) + if Picks(ss[k], ts[k]) then [ts[k].op.x] else []
  }

  lemma PoolAfterPick(s: Sched, now: nat, len: nat, x: nat)
    requires x < |s.entries|
    ensures PoolOf(AfterPick(s, now, len, x).entries) == W.Picked(PoolOf(s.entries), Competing(s, now, len), x)
  {
    var a, b := PoolOf(AfterPick(s, now, len, x).entries), W.Picked(PoolOf(s.entries), Competing(s, now, len), x);
    assert a.weight == b.weight && a.current == b.current;
  }

  lemma UnhinderedPick(ss: seq<Sched>, ts: seq<Timed>, k: nat, p: W.Pool)
    requires IsRun(ss, ts) && k < |ts| && Unrestricted(ss[k], ts[k]) && PoolOf(ss[k].entries) == p
    ensures var n, x := |p.weight|, ts[k].op.x;
            && W.IsWinner(W.Advanced(p, W.All(n)), W.All(n), x)
            && PoolOf(ss[k + 1].entries) == W.Picked(p, W.All(n), x)
  {
    assert GoesAt(ss, ts, k);
    PoolAfterPick(ss[k], ts[k].now, ts[k].op.len, ts[k].op.x);
  }

  ghost function WeightsAt(ss: seq<Sched>, k: nat): seq<real>
    requires k < |ss|
  {
    PoolOf(ss[k].entries).weight
  }

  lemma FreshPool(ss: seq<Sched>, from: nat)
    requires from < |ss| && forall i :: 0 <= i < |ss[from].entries| ==> ss[from].entries[i].current == 0.0
    ensures PoolOf(ss[from].entries) == W.Fresh(WeightsAt(ss, from))
  {
    assert PoolOf(ss[from].entries).current == W.Fresh(WeightsAt(ss, from)).current;
  }

  ghost predicate Tracks(s: Sched, w: seq<real>, xs: seq<nat>) {
    W.IsRun(w, xs) && PoolOf(s.entries) == W.After(w, xs, |xs|)
  }

  lemma RoundRobinNext(ss: seq<Sched>, ts: seq<Timed>, k: nat, w: seq<real>, before: seq<nat>, xs: seq<nat>)
    requires IsRun(ss, ts) && k < |ts| && UnhinderedAt(ss, ts, k) && Tracks(ss[k], w, before)
    requires xs == before + if Picks(ss[k], ts[k]) then [ts[k].op.x] else []
    ensures Tracks(ss[k + 1], w, xs)
  {
    if Picks(ss[k], ts[k]) {
      UnhinderedPick(ss, ts, k, W.After(w, before, |before|));
      W.RunNext(w, before, ts[k].op.x, xs);
    } else {
      assert xs == before;
    }
  }

  /** The scheduler's picks between two rebuilds are a smooth weighted round robin. */
  lemma {:induction false} PicksAreRoundRobin(ss: seq<Sched>, ts: seq<Timed>, from: nat, count: nat, w: seq<real>,
        xs: seq<nat>)
    requires IsRun(ss, ts) && from + count <= |ts| && Unhindered(ss, ts, from, count)
    requires xs == Winners(ss, ts, from, count) && w == WeightsAt(ss, from)
    ensures Tracks(ss[from + count], w, xs)
    decreases count
  {
    if count == 0 {
      FreshPool(ss, from);
    } else {
      var k, before := from + count - 1, Winners(ss, ts, from, count - 1);
      assert UnhinderedAt(ss, ts, k);
      PicksAreRoundRobin(ss, ts, from, count - 1, w, before);
      RoundRobinNext(ss, ts, k, w, before, xs);
    }
  }

  lemma PositiveAt(ss: seq<Sched>, ts: seq<Timed>, from: nat, w: seq<real>)
    requires IsRun(ss, ts) && from <= |ts| && ss[from].entries != [] && w == WeightsAt(ss, from)
    ensures W.PositiveWeights(w)
  {
    WeightsPositive(ss, ts, from);
    forall i | 0 <= i < |w| ensures w[i] > 0.0 {
      assert EntryInv(ss[from].entries[i], ss[from]);
    }
  }

  /** Hence any entry has won fewer than its proportional share plus one, and no less than
      its share minus the number of other entries, at every point until the next rebuild. */
  lemma FairScheduling(ss: seq<Sched>, ts: seq<Timed>, from: nat, count: nat, w: seq<real>, xs: seq<nat>, i: nat)
    requires IsRun(ss, ts) && from + count <= |ts| && Unhindered(ss, ts, from, count)
    requires xs == Winners(ss, ts, from, count) && w == WeightsAt(ss, from) && i < |w|
    ensures W.WithinPicks(|w|, |xs|, w[i], W.Total(W.Fresh(w)), W.Wins(xs, |xs|, i))
  {
    PicksAreRoundRobin(ss, ts, from, count, w, xs);
    PositiveAt(ss, ts, from, w);
    W.FairnessInPicks(w, xs, |xs|, i, W.Total(W.Fresh(w)));
  }

  /** And with whole weights, the picks after a rebuild that make up their total go to each
      entry exactly its weight in times, and the table is then as the rebuild left it. */
  lemma PeriodicScheduling(ss: seq<Sched>, ts: seq<Timed>, from: nat, count: nat, c: seq<nat>, xs: seq<nat>)
    requires IsRun(ss, ts) && from + count <= |ts| && Unhindered(ss, ts, from, count)
    requires xs == Winners(ss, ts, from, count) && WeightsAt(ss, from) == W.Weights(c) && W.PositiveWhole(c)
    requires |xs| == W.WholeSum(c, |c|)
    ensures forall i: nat :: i < |c| ==> W.Wins(xs, |xs|, i) == c[i]
    ensures PoolOf(ss[from + count].entries) == PoolOf(ss[from].entries)
  {
    PicksAreRoundRobin(ss, ts, from, count, W.Weights(c), xs);
    W.Periodicity(c, xs, |xs|);
    FreshPool(ss, from);
  }

  // ----- shares when caps and penalties exclude entries

  ghost predicate SteadyAt(ss: seq<Sched>, ts: seq<Timed>, k: nat)
    requires k < |ts| < |ss|
  {
    Picks(ss[k], ts[k]) || Neutral(ss[k], ts[k], ss[k + 1])
  }

  /** From step `from` on, for `count` steps, the weights stay as they are, whoever may compete
      for each packet; and the table starts as a rebuild leaves it. */
  ghost predicate Steady(ss: seq<Sched>, ts: seq<Timed>, from: nat, count: nat)
    requires from + count <= |ts| < |ss|
  {
    && ss[from].entries != [] && (forall i :: 0 <= i < |ss[from].entries| ==> ss[from].entries[i].current == 0.0)
    && forall k: nat :: from <= k < from + count ==> SteadyAt(ss, ts, k)
  }

  /** Who competed for each of these packets, and who got it. */
  ghost function PicksOf(ss: seq<Sched>, ts: seq<Timed>, from: nat, count: nat): seq<X.Pick>
    requires from + count <= |ts| < |ss|
  {
    if count == 0 then []
    else
      var k := from + count - 1;
      PicksOf(ss, ts, from, count - 1)
      + if Picks(ss[k], ts[k]) then [X.Pick(Competing(ss[k], ts[k].now, ts[k].op.len), ts[k].op.x)] else []
  }

  lemma SteadyPick(ss: seq<Sched>, ts: seq<Timed>, k: nat, p: W.Pool, pick: X.Pick)
    requires IsRun(ss, ts) && k < |ts| && Picks(ss[k], ts[k]) && PoolOf(ss[k].entries) == p
    requires pick == X.Pick(Competing(ss[k], ts[k].now, ts[k].op.len), ts[k].op.x)
    ensures W.IsWinner(W.Advanced(p, pick.eligible), pick.eligible, pick.winner)
    ensures PoolOf(ss[k + 1].entries) == W.Picked(p, pick.eligible, pick.winner)
  {
    assert GoesAt(ss, ts, k);
    PoolAfterPick(ss[k], ts[k].now, ts[k].op.len, ts[k].op.x);
  }

  ghost predicate TracksPicks(s: Sched, w: seq<real>, ps: seq<X.Pick>) {
    X.IsRun(w, ps) && PoolOf(s.entries) == X.Later(w, ps, |ps|)
  }

  lemma SteadyNext(ss: seq<Sched>, ts: seq<Timed>, k: nat, w: seq<real>, before: seq<X.Pick>, pick: X.Pick,
                   ps: seq<X.Pick>)
    requires IsRun(ss, ts) && k < |ts| && Picks(ss[k], ts[k]) && TracksPicks(ss[k], w, before)
    requires pick == X.Pick(Competing(ss[k], ts[k].now, ts[k].op.len), ts[k].op.x) && ps == before + [pick]
    ensures TracksPicks(ss[k + 1], w, ps)
  {
    var p := X.Later(w, before, |before|);
    SteadyPick(ss, ts, k, p, pick);
    assert ps[..|before|] == before && ps[|before|] == pick;
    X.RunNext(w, before, ps, |before|, p);
  }

  lemma {:induction false} SteadyRun(ss: seq<Sched>, ts: seq<Timed>, from: nat, count: nat, w: seq<real>,
                                     ps: seq<X.Pick>)
    requires IsRun(ss, ts) && from + count <= |ts| && Steady(ss, ts, from, count)
    requires ps == PicksOf(ss, ts, from, count) && w == WeightsAt(ss, from)
    ensures TracksPicks(ss[from + count], w, ps)
    decreases count
  {
    if count == 0 {
      FreshPool(ss, from);
    } else {
      var k, before := from + count - 1, PicksOf(ss, ts, from, count - 1);
      assert SteadyAt(ss, ts, k);
      SteadyRun(ss, ts, from, count - 1, w, before);
      if Picks(ss[k], ts[k]) {
        SteadyNext(ss, ts, k, w, before, X.Pick(Competing(ss[k], ts[k].now, ts[k].op.len), ts[k].op.x), ps);
      } else {
        assert ps == before;
      }
    }
  }

  /** Fairness whatever caps and penalties do: at every point until the next rebuild or change
      of weights, what an entry paid for its packets differs from what it earned in the packets
      it could compete for by at most half of (n - 1) times the total weight. */
  lemma FairWithExclusions(ss: seq<Sched>, ts: seq<Timed>, from: nat, count: nat, w: seq<real>, ps: seq<X.Pick>, i: nat)
    requires IsRun(ss, ts) && from + count <= |ts| && Steady(ss, ts, from, count)
    requires ps == PicksOf(ss, ts, from, count) && w == WeightsAt(ss, from) && i < |w|
    ensures var slack := X.Slack(|w|, W.Total(W.Fresh(w)));
            -slack <= X.Earned(w, ps, |ps|, i) - X.Paid(w, ps, |ps|, i) <= slack
  {
    SteadyRun(ss, ts, from, count, w, ps);
    PositiveAt(ss, ts, from, w);
    X.FairnessWithExclusions(w, ps, |ps|, i, W.Total(W.Fresh(w)));
  }
}
