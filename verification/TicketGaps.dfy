/** When an opening is submitted, exactly: over whole runs, an event that opens outside the gaps
    gets its ticket, and one inside them does not. */
module TicketGaps {
  import opened Bytes
  import opened Common
  import opened Tickets

  // ----- the last of several marked times

  ghost function LastOf(start: Option<Instant>, times: seq<Instant>, marks: seq<bool>): Option<Instant>
    requires |times| == |marks|
  {
    if times == [] then start
    else
      var n := |times| - 1;
      if marks[n] then Some(times[n]) else LastOf(start, times[..n], marks[..n])
  }

  ghost predicate Ordered(times: seq<Instant>, now: Instant) {
    && (forall i, j :: 0 <= i <= j < |times| ==> times[i] <= times[j])
    && forall i :: 0 <= i < |times| ==> times[i] <= now
  }

  /** Every marked time lies the gap back; without any, the start does. */
  ghost predicate AllBack(start: Option<Instant>, times: seq<Instant>, marks: seq<bool>, now: Instant, gap: nat)
    requires |times| == |marks|
  {
    && (forall i :: 0 <= i < |times| && marks[i] ==> times[i] + gap <= now)
    && ((forall i :: 0 <= i < |times| ==> !marks[i]) && start.Some? && gap > 0 ==> start.value + gap <= now)
  }

  lemma {:induction false} ClearIff(start: Option<Instant>, times: seq<Instant>, marks: seq<bool>, now: Instant,
                                    gap: nat)
    requires |times| == |marks| && Ordered(times, now)
    ensures !Within(LastOf(start, times, marks), now, gap) <==> AllBack(start, times, marks, now, gap)
  {
    if times != [] {
      var n := |times| - 1;
      if marks[n] {
        assert times[n] + gap <= now ==> forall i :: 0 <= i < |times| && marks[i] ==> times[i] + gap <= now;
      } else {
        ClearIff(start, times[..n], marks[..n], now, gap);
        BackPrefix(start, times, marks, n, now, gap);
      }
    }
  }

  lemma BackPrefix(start: Option<Instant>, times: seq<Instant>, marks: seq<bool>, n: nat, now: Instant, gap: nat)
    requires |times| == |marks| == n + 1 && !marks[n]
    ensures AllBack(start, times[..n], marks[..n], now, gap) <==> AllBack(start, times, marks, now, gap)
  {
    assert forall i :: 0 <= i < n ==> times[..n][i] == times[i] && marks[..n][i] == marks[i];
    if forall i :: 0 <= i < n ==> !marks[..n][i] {
      assert forall i :: 0 <= i <= n ==> !marks[i];
    } else {
      var i :| 0 <= i < n && marks[..n][i];
      assert marks[i];
    }
  }

  // ----- what a link remembers

  /** An event that opens, submitted or joined to another link's. */
  ghost predicate OpensCounted(o: Outcome, x: Input) {
    o.Dump? && o.kind == Opened && (o.submit || x.joins)
  }

  ghost predicate Marked(sts: seq<Track>, xs: seq<Input>, s: Settings, k: nat)
    requires k < |xs| < |sts|
  {
    var o := OutcomeAt(sts, xs, s, k);
    OpensCounted(o, xs[k]) || (o.Dump? && o.submit)
  }

  ghost predicate MarkedDegraded(sts: seq<Track>, xs: seq<Input>, s: Settings, k: nat)
    requires k < |xs| < |sts|
  {
    var o := OutcomeAt(sts, xs, s, k);
    OpensCounted(o, xs[k]) && o.info.class_ == Degraded
  }

  ghost function Times(xs: seq<Input>, k: nat): (r: seq<Instant>)
    requires k <= |xs|
    ensures |r| == k && forall i :: 0 <= i < k ==> r[i] == xs[i].now
  {
    seq(k, i requires 0 <= i < k => xs[i].now)
  }

  ghost function Marks(sts: seq<Track>, xs: seq<Input>, s: Settings, k: nat, degraded: bool): (r: seq<bool>)
    requires k <= |xs| < |sts|
    ensures |r| == k && forall i :: 0 <= i < k ==> r[i] == (if degraded then MarkedDegraded(sts, xs, s, i)
        else Marked(sts, xs, s, i))
  {
    seq(k, i requires 0 <= i < k => if degraded then MarkedDegraded(sts, xs, s, i) else Marked(sts, xs, s, i))
  }

  lemma MarkStep(st: Track, x: Input, s: Settings)
    ensures var r := Observe(st, x, s);
            && r.track.lastSubmit == (if OpensCounted(r.outcome, x) || (r.outcome.Dump? && r.outcome.submit)
                then Some(x.now) else st.lastSubmit)
            && r.track.lastDegraded == (if OpensCounted(r.outcome, x) && r.outcome.info.class_ == Degraded
                then Some(x.now) else st.lastDegraded)
  {
  }

  ghost predicate RemembersAt(sts: seq<Track>, xs: seq<Input>, s: Settings, k: nat)
    requires k <= |xs| < |sts|
  {
    && sts[k].lastSubmit == LastOf(sts[0].lastSubmit, Times(xs, k), Marks(sts, xs, s, k, false))
    && sts[k].lastDegraded == LastOf(sts[0].lastDegraded, Times(xs, k), Marks(sts, xs, s, k, true))
  }

  lemma {:induction false} Remembers(sts: seq<Track>, xs: seq<Input>, s: Settings, k: nat)
    requires IsRun(sts, xs, s) && k <= |xs|
    ensures RemembersAt(sts, xs, s, k)
    decreases k
  {
    if k > 0 {
      Remembers(sts, xs, s, k - 1);
      assert GoesAt(sts, xs, s, k - 1);
      MarkStep(sts[k - 1], xs[k - 1], s);
      assert Times(xs, k)[..k - 1] == Times(xs, k - 1);
      assert Marks(sts, xs, s, k, false)[..k - 1] == Marks(sts, xs, s, k - 1, false);
      assert Marks(sts, xs, s, k, true)[..k - 1] == Marks(sts, xs, s, k - 1, true);
    }
  }

  /** All marked steps before `k` lie at least `gap` back. */
  ghost predicate OutsideGap(sts: seq<Track>, xs: seq<Input>, s: Settings, k: nat, degraded: bool,
                             start: Option<Instant>, gap: nat)
    requires k < |xs| < |sts|
  {
    AllBack(start, Times(xs, k), Marks(sts, xs, s, k, degraded), xs[k].now, gap)
  }

  lemma OpeningStep(st: Track, x: Input, s: Settings)
    ensures var o := Observe(st, x, s).outcome;
            o.Dump? && o.kind == Opened ==>
              (o.submit <==> !x.joins && !Within(st.lastSubmit, x.now, 1_800_000_000_000)
                             && (o.info.class_ == Degraded ==> !Within(st.lastDegraded, x.now, s.config.degradedGap)))
  {
  }

  /** In every run: an event that opens is submitted if and only if it does not join another
      link's, every earlier ticket and joined opening lies at least half an hour back and, for a
      degradation, every earlier opening of that class that counted lies the configured gap back.
      Before the first of them, the times the run started with decide. */
  lemma OpeningIff(sts: seq<Track>, xs: seq<Input>, s: Settings, k: nat)
    requires IsRun(sts, xs, s) && k < |xs|
    ensures var o := OutcomeAt(sts, xs, s, k);
            o.Dump? && o.kind == Opened ==>
              (o.submit <==> !xs[k].joins && OutsideGap(sts, xs, s, k, false, sts[0].lastSubmit, 1_800_000_000_000)
                             && (o.info.class_ == Degraded ==> OutsideGap(sts, xs, s, k, true, sts[0].lastDegraded, s.config.degradedGap)))
  {
    Remembers(sts, xs, s, k);
    OpeningStep(sts[k], xs[k], s);
    assert Ordered(Times(xs, k), xs[k].now);
    ClearIff(sts[0].lastSubmit, Times(xs, k), Marks(sts, xs, s, k, false), xs[k].now, 1_800_000_000_000);
    ClearIff(sts[0].lastDegraded, Times(xs, k), Marks(sts, xs, s, k, true), xs[k].now, s.config.degradedGap);
  }
}
