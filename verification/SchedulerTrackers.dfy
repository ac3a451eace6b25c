/** What the scheduler's parts are over whole runs: each link's trackers are the single-link
    machines run on that link's own reports, the primary is the choice run on the refreshes, and
    the weights follow from them. */
module SchedulerTrackers {
  import opened Bytes
  import opened Scheduling
  import opened SchedulerRuns
  import opened SchedulerWeights
  import C = Congestion
  import D = Delivery
  import P = Primary

  // ----- a link's own reports

  ghost function CongestionLog(ts: seq<Timed>, k: nat, link: nat): seq<C.Event>
    requires k <= |ts|
  {
    if k == 0 then []
    else
      var before, t := CongestionLog(ts, k - 1, link), ts[k - 1];
      if t.op.Congest? && link < |t.op.snapshots| then before + [C.Event(t.now, t.op.snapshots[link])] else before
  }

  ghost function DeliveryLog(ts: seq<Timed>, k: nat, link: nat): seq<D.Event>
    requires k <= |ts|
  {
    if k == 0 then []
    else
      var before, t := DeliveryLog(ts, k - 1, link), ts[k - 1];
      if t.op.Deliver? && link < |t.op.samples| then before + [D.Event(t.now, t.op.samples[link])] else before
  }

  lemma {:induction false} LogsGrow(ts: seq<Timed>, k: nat, n: nat, link: nat)
    requires k <= n <= |ts|
    ensures CongestionLog(ts, k, link) <= CongestionLog(ts, n, link)
        && DeliveryLog(ts, k, link) <= DeliveryLog(ts, n, link)
    decreases n
  {
    if k < n {
      LogsGrow(ts, k, n - 1, link);
    }
  }

  /** The congestion machine of a link after its reports among the first `k` steps. */
  ghost function CongestionOf(ts: seq<Timed>, k: nat, link: nat): C.Tracker
    requires k <= |ts|
  {
    LogsGrow(ts, k, |ts|, link);
    C.RunTo(CongestionLog(ts, |ts|, link), |CongestionLog(ts, k, link)|)
  }

  ghost function DeliveryOf(ts: seq<Timed>, k: nat, link: nat): D.Tracker
    requires k <= |ts|
  {
    LogsGrow(ts, k, |ts|, link);
    D.RunTo(DeliveryLog(ts, |ts|, link), |DeliveryLog(ts, k, link)|)
  }

  // ----- the trackers are the machines

  ghost predicate CongestionAt(s: Sched, ts: seq<Timed>, k: nat, link: nat)
    requires k <= |ts|
  {
    if link < |s.congestion| then s.congestion[link] == CongestionOf(ts, k, link) else CongestionLog(ts, k, link) == []
  }

  ghost predicate DeliveryAt(s: Sched, ts: seq<Timed>, k: nat, link: nat)
    requires k <= |ts|
  {
    if link < |s.delivery| then s.delivery[link] == DeliveryOf(ts, k, link) else DeliveryLog(ts, k, link) == []
  }

  /** What a round of congestion reports does to one link's tracker. */
  lemma CongestedAt(s: Sched, now: nat, snapshots: seq<C.Snapshot>, link: nat, cs: seq<C.Tracker>)
    requires cs == Congested(s, now, snapshots).congestion
    ensures link < |cs| <==> link < |s.congestion| || link < |snapshots|
    ensures link < |snapshots| ==> cs[link] == C.Update(if link < |s.congestion| then s.congestion[link]
        else C.START, now, snapshots[link])
    ensures link >= |snapshots| && link < |s.congestion| ==> cs[link] == s.congestion[link]
  {
  }

  lemma DeliveredAt(s: Sched, now: nat, samples: seq<Option<D.Sample>>, link: nat, ds: seq<D.Tracker>)
    requires ds == Delivered(s, now, samples).delivery
    ensures link < |ds| <==> link < |s.delivery| || link < |samples|
    ensures link < |samples| ==> ds[link] == D.Observe(if link < |s.delivery| then s.delivery[link]
        else D.START, now, samples[link])
    ensures link >= |samples| && link < |s.delivery| ==> ds[link] == s.delivery[link]
  {
  }

  lemma CongestionNext(ts: seq<Timed>, k: nat, link: nat, t: C.Tracker)
    requires 0 < k <= |ts| && ts[k - 1].op.Congest? && link < |ts[k - 1].op.snapshots|
        && t == CongestionOf(ts, k - 1, link)
    ensures CongestionOf(ts, k, link) == C.Update(t, ts[k - 1].now, ts[k - 1].op.snapshots[link])
  {
    LogsGrow(ts, k, |ts|, link);
    var full, n := CongestionLog(ts, |ts|, link), |CongestionLog(ts, k - 1, link)|;
    assert full[n] == CongestionLog(ts, k, link)[n] == C.Event(ts[k - 1].now, ts[k - 1].op.snapshots[link]);
  }

  lemma DeliveryNext(ts: seq<Timed>, k: nat, link: nat, t: D.Tracker)
    requires 0 < k <= |ts| && ts[k - 1].op.Deliver? && link < |ts[k - 1].op.samples| && t == DeliveryOf(ts, k - 1, link)
    ensures DeliveryOf(ts, k, link) == D.Observe(t, ts[k - 1].now, ts[k - 1].op.samples[link])
  {
    LogsGrow(ts, k, |ts|, link);
    var full, n := DeliveryLog(ts, |ts|, link), |DeliveryLog(ts, k - 1, link)|;
    assert full[n] == DeliveryLog(ts, k, link)[n] == D.Event(ts[k - 1].now, ts[k - 1].op.samples[link]);
  }

  lemma OthersKeep(s: Sched, t: Timed)
    ensures !t.op.Congest? ==> Step(s, t).congestion == s.congestion
    ensures !t.op.Deliver? ==> Step(s, t).delivery == s.delivery
  {
  }

  lemma CongestionStep(s: Sched, s': Sched, ts: seq<Timed>, k: nat, link: nat, t: Timed)
    requires 0 < k <= |ts| && t == ts[k - 1] && CongestionAt(s, ts, k - 1, link) && s' == Step(s, t)
    ensures CongestionAt(s', ts, k, link)
  {
    OthersKeep(s, t);
    if t.op.Congest? {
      CongestedAt(s, t.now, t.op.snapshots, link, s'.congestion);
      if link < |t.op.snapshots| {
        CongestionNext(ts, k, link, CongestionOf(ts, k - 1, link));
      }
    }
  }

  lemma DeliveryStep(s: Sched, s': Sched, ts: seq<Timed>, k: nat, link: nat, t: Timed)
    requires 0 < k <= |ts| && t == ts[k - 1] && DeliveryAt(s, ts, k - 1, link) && s' == Step(s, t)
    ensures DeliveryAt(s', ts, k, link)
  {
    OthersKeep(s, t);
    if t.op.Deliver? {
      DeliveredAt(s, t.now, t.op.samples, link, s'.delivery);
      if link < |t.op.samples| {
        DeliveryNext(ts, k, link, DeliveryOf(ts, k - 1, link));
      }
    }
  }

  /** In every reachable state a link's two trackers are what the single-link machines make of
      that link's own reports, whatever else happened in between. */
  lemma {:induction false} TrackersAre(ss: seq<Sched>, ts: seq<Timed>, k: nat, link: nat)
    requires IsRun(ss, ts) && k <= |ts|
    ensures CongestionAt(ss[k], ts, k, link) && DeliveryAt(ss[k], ts, k, link)
  {
    if k > 0 {
      TrackersAre(ss, ts, k - 1, link);
      assert GoesAt(ss, ts, k - 1);
      CongestionStep(ss[k - 1], ss[k], ts, k, link, ts[k - 1]);
      DeliveryStep(ss[k - 1], ss[k], ts, k, link, ts[k - 1]);
    }
  }

  // ----- the weights

  ghost predicate Largest(ds: seq<D.Tracker>, m: real) {
    (exists t :: t in ds && t.factor == m) && forall t :: t in ds ==> t.factor <= m
  }

  lemma LargestIsBest(ds: seq<D.Tracker>, m: real)
    requires Largest(ds, m) && forall t :: t in ds ==> D.Inv(t)
    ensures BestFactor(ds, |ds|) == m > 0.0
  {
    var t :| t in ds && t.factor == m;
    var i :| 0 <= i < |ds| && ds[i] == t;
    BestIsLargest(ds, |ds|, i);
    BestInRange(ds);
    var j: nat :| j < |ds| && ds[j].factor == BestFactor(ds, |ds|);
    assert ds[j] in ds;
  }

  lemma DeliveryShare(ds: seq<D.Tracker>, m: real, link: nat)
    requires Largest(ds, m) && (forall t :: t in ds ==> D.Inv(t)) && link < |ds|
    ensures m > 0.0 && DeliveryFactor(ds, link) == ds[link].factor / m
  {
    LargestIsBest(ds, m);
    RelativeFactor(ds, link);
    Divided(DeliveryFactor(ds, link), m, ds[link].factor);
  }

  lemma Divided(x: real, m: real, p: real)
    requires m > 0.0 && x * m == p
    ensures x == p / m
  {
  }

  /** A link's delivery factor as a share of the largest one; 1 before its first report. */
  ghost function Share(s: Sched, ts: seq<Timed>, k: nat, link: nat, m: real): real
    requires k <= |ts| && m > 0.0
  {
    if link < |s.delivery| then DeliveryOf(ts, k, link).factor / m else 1.0
  }

  lemma CongestionFactorIs(ss: seq<Sched>, ts: seq<Timed>, k: nat, link: nat)
    requires IsRun(ss, ts) && k <= |ts|
    ensures CongestionFactor(ss[k].congestion, link) == CongestionOf(ts, k, link).factor
  {
    TrackersAre(ss, ts, k, link);
  }

  lemma DeliveryFactorIs(ss: seq<Sched>, ts: seq<Timed>, k: nat, link: nat, m: real)
    requires IsRun(ss, ts) && k <= |ts| && m > 0.0 && (ss[k].delivery != [] ==> Largest(ss[k].delivery, m))
    ensures DeliveryFactor(ss[k].delivery, link) == Share(ss[k], ts, k, link, m)
  {
    WeightsPositive(ss, ts, k);
    TrackersAre(ss, ts, k, link);
    if link < |ss[k].delivery| {
      DeliveryShare(ss[k].delivery, m, link);
    }
  }

  /** In every reachable state an entry's weight is its score times its congestion factor times
      its delivery factor's share of the largest. */
  lemma WeightIs(ss: seq<Sched>, ts: seq<Timed>, k: nat, i: nat, m: real, e: Entry, c: real, d: real)
    requires IsRun(ss, ts) && k <= |ts| && i < |ss[k].entries| && e == ss[k].entries[i] && m > 0.0
    requires ss[k].delivery != [] ==> Largest(ss[k].delivery, m)
    requires c == CongestionOf(ts, k, e.link).factor && d == Share(ss[k], ts, k, e.link, m)
    ensures e.effective == e.base * (c * d)
  {
    CongestionFactorIs(ss, ts, k, e.link);
    DeliveryFactorIs(ss, ts, k, e.link, m);
    WeightsPositive(ss, ts, k);
    EntryWeight(e, ss[k], i, c, d);
  }

  lemma EntryWeight(e: Entry, s: Sched, i: nat, c: real, d: real)
    requires EntriesInv(s.entries, s) && i < |s.entries| && e == s.entries[i]
    requires c == CongestionFactor(s.congestion, e.link) && d == DeliveryFactor(s.delivery, e.link)
    ensures e.effective == e.base * (c * d)
  {
    assert EntryInv(e, s);
  }

  // ----- rebuilding

  lemma {:induction false} UpsAscend(scores: seq<real>, n: nat)
    requires n <= |scores|
    ensures forall i :: 0 <= i < |Ups(scores, n)| ==> Ups(scores, n)[i].link < n
    ensures forall i, j :: 0 <= i < j < |Ups(scores, n)| ==> Ups(scores, n)[i].link < Ups(scores, n)[j].link
  {
    if n > 0 {
      UpsAscend(scores, n - 1);
    }
  }

  lemma FreshAre(s: Sched, ups: seq<P.Up>, caps: seq<Option<real>>, es: seq<Entry>)
    requires es == FreshEntries(ups, caps, s)
    ensures |es| == |ups| && forall i :: 0 <= i < |es| ==>
              && es[i].link == ups[i].link && es[i].base == ups[i].score && es[i].current == 0.0
              && es[i].cap == if es[i].link < |caps| then caps[es[i].link] else None
  {
  }

  lemma UpAt(scores: seq<real>, ups: seq<P.Up>, i: nat)
    requires ups == Ups(scores, |scores|) && i < |ups|
    ensures ups[i].link < |scores| && ups[i].score == scores[ups[i].link] > 0.0
  {
    UpsAreLinks(scores, |scores|);
    assert ups[i] in ups;
  }

  lemma UpListed(scores: seq<real>, ups: seq<P.Up>, link: nat) returns (i: nat)
    requires ups == Ups(scores, |scores|) && link < |scores| && scores[link] > 0.0
    ensures i < |ups| && ups[i].link == link
  {
    UpsAreLinks(scores, |scores|);
    assert P.Up(link, scores[link]) in ups;
    i :| 0 <= i < |ups| && ups[i] == P.Up(link, scores[link]);
  }

  /** A rebuild makes one entry for each link with a positive score, in link order: that score as
      base weight, no credit, and the configured cap. */
  lemma RebuiltIs(s: Sched, now: nat, scores: seq<real>, caps: seq<Option<real>>, cfg: P.Config, peer: Option<nat>,
                  es: seq<Entry>)
    requires es == Step(s, Timed(now, Refresh(scores, caps, cfg, peer))).entries
    ensures forall i, j :: 0 <= i < j < |es| ==> es[i].link < es[j].link
    ensures forall i :: 0 <= i < |es| ==>
              && es[i].link < |scores| && es[i].base == scores[es[i].link] > 0.0 && es[i].current == 0.0
              && es[i].cap == if es[i].link < |caps| then caps[es[i].link] else None
    ensures forall link :: 0 <= link < |scores| && scores[link] > 0.0 ==> exists i :: 0 <= i < |es| && es[i].link == link
  {
    var ups := Ups(scores, |scores|);
    FreshAre(s, ups, caps, es);
    UpsAscend(scores, |scores|);
    forall i | 0 <= i < |es| ensures es[i].link < |scores| && es[i].base == scores[es[i].link] > 0.0 {
      UpAt(scores, ups, i);
    }
    forall link | 0 <= link < |scores| && scores[link] > 0.0 ensures exists i :: 0 <= i < |es| && es[i].link == link {
      var i := UpListed(scores, ups, link);
      assert es[i].link == link;
    }
  }

  // ----- the primary

  ghost function Refreshes(ts: seq<Timed>, k: nat): seq<P.Input>
    requires k <= |ts|
  {
    if k == 0 then []
    else
      var before, op := Refreshes(ts, k - 1), ts[k - 1].op;
      if op.Refresh? then before + [P.Input(Ups(op.scores, |op.scores|), op.cfg, op.peer)] else before
  }

  lemma {:induction false} RefreshesGrow(ts: seq<Timed>, k: nat, n: nat)
    requires k <= n <= |ts|
    ensures Refreshes(ts, k) <= Refreshes(ts, n)
    decreases n
  {
    if k < n {
      RefreshesGrow(ts, k, n - 1);
    }
  }

  ghost function ChoiceOf(ts: seq<Timed>, k: nat): P.Choice
    requires k <= |ts|
  {
    RefreshesGrow(ts, k, |ts|);
    P.RunTo(P.UNDECIDED, Refreshes(ts, |ts|), |Refreshes(ts, k)|)
  }

  lemma ChoiceNext(ts: seq<Timed>, k: nat, c: P.Choice)
    requires 0 < k <= |ts| && ts[k - 1].op.Refresh? && c == ChoiceOf(ts, k - 1)
    ensures var op := ts[k - 1].op; ChoiceOf(ts, k) == P.Refresh(c, Ups(op.scores, |op.scores|), op.cfg, op.peer)
  {
    RefreshesGrow(ts, k, |ts|);
    var full, n, op := Refreshes(ts, |ts|), |Refreshes(ts, k - 1)|, ts[k - 1].op;
    assert full[n] == Refreshes(ts, k)[n] == P.Input(Ups(op.scores, |op.scores|), op.cfg, op.peer);
  }

  lemma ChoiceStep(s: Sched, t: Timed)
    ensures Step(s, t).choice == if t.op.Refresh?
        then P.Refresh(s.choice, Ups(t.op.scores, |t.op.scores|), t.op.cfg, t.op.peer) else s.choice
  {
  }

  /** In every reachable state the primary is the choice run on the refreshes so far. */
  lemma {:induction false} ChoiceIs(ss: seq<Sched>, ts: seq<Timed>, k: nat)
    requires IsRun(ss, ts) && k <= |ts|
    ensures ss[k].choice == ChoiceOf(ts, k)
  {
    if k > 0 {
      ChoiceIs(ss, ts, k - 1);
      assert GoesAt(ss, ts, k - 1);
      ChoiceStep(ss[k - 1], ts[k - 1]);
      if ts[k - 1].op.Refresh? {
        ChoiceNext(ts, k, ss[k - 1].choice);
      }
    }
  }
}
