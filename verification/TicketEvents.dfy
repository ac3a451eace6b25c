/** What a link's observations amount to, exactly and over whole runs: which class is active, when
    an event opens, worsens, is reported again and ends, and what its peak and the count of
    suppressed reports are. */
module TicketEvents {
  import opened Bytes
  import opened Common
  import opened Tickets

  // ----- one observation

  ghost predicate IsOut(o: Observation, t: Trigger) {
    o.downFor.Some? && t.outageAfter < o.downFor.value
  }

  ghost predicate Flaps(o: Observation, t: Trigger) {
    0 < t.flapDowns <= o.recentDowns
  }

  /** At least `pct` of a hundred probes were lost; no probes count as no loss. */
  ghost predicate Loses(o: Observation, pct: real) {
    if o.total == 0 then pct <= 0.0 else pct * o.total as real <= 100.0 * o.missed as real
  }

  /** Up, past the warm-up, and enough probes lost. */
  ghost predicate Burns(o: Observation, t: Trigger) {
    && o.downFor.None? && o.windowAge.Some? && t.warmup <= o.windowAge.value
    && t.minProbes <= o.total && t.openMisses <= o.missed && Loses(o, t.openPct)
  }

  ghost predicate Rests(o: Observation, t: Trigger) {
    !IsOut(o, t) && !Flaps(o, t) && (t.minProbes <= o.total ==> !Loses(o, t.closePct))
  }

  lemma Percent(a: real, b: real, pct: real)
    requires b > 0.0
    ensures a / b >= pct <==> a >= pct * b
  {
    assert a == a / b * b;
    if a / b >= pct {
      assert (a / b - pct) * b >= 0.0;
    } else {
      assert (pct - a / b) * b > 0.0;
    }
  }

  lemma LosesIff(o: Observation, pct: real)
    ensures Loss(o) >= pct <==> Loses(o, pct)
  {
    if o.total > 0 {
      Percent(o.missed as real * 100.0, o.total as real, pct);
    }
  }

  lemma ReadsAs(o: Observation, t: Trigger)
    ensures (IsOutage(o, t) <==> IsOut(o, t)) && (IsFlap(o, t) <==> Flaps(o, t))
    ensures (IsHot(o, t) <==> Burns(o, t)) && (IsCalm(o, t) <==> Rests(o, t))
  {
    LosesIff(o, t.openPct);
    LosesIff(o, t.closePct);
  }

  // ----- the active class, from the observations alone

  /** Where the present streak of burning observations began, if the last one burns. */
  ghost function BurnStart(xs: seq<Input>, s: Settings, k: nat): (r: Option<nat>)
    requires k <= |xs|
    ensures r.Some? ==> r.value < k
  {
    if k == 0 || !Burns(xs[k - 1].obs, s.trigger) then None
    else if BurnStart(xs, s, k - 1).Some? then BurnStart(xs, s, k - 1)
    else Some(k - 1)
  }

  /** The class of observation `k`: out, else flapping, else burning for half a minute. */
  ghost function ClassAt(xs: seq<Input>, s: Settings, k: nat): Option<Class>
    requires k < |xs|
  {
    if IsOut(xs[k].obs, s.trigger) then Some(Outage)
    else if Flaps(xs[k].obs, s.trigger) then Some(Flap)
    else
      var i := BurnStart(xs, s, k + 1);
      if i.Some? && xs[i.value].now + 30_000_000_000 <= xs[k].now then Some(Degraded) else None
  }

  lemma HeatStep(st: Track, x: Input, s: Settings)
    ensures Observe(st, x, s).track.hotSince
            == (if !Burns(x.obs, s.trigger) then None else if st.hotSince.Some? then st.hotSince else Some(x.now))
  {
    ReadsAs(x.obs, s.trigger);
  }

  lemma {:induction false} HeatIs(sts: seq<Track>, xs: seq<Input>, s: Settings, k: nat)
    requires IsRun(sts, xs, s) && k <= |xs|
    ensures sts[k].hotSince == var i := BurnStart(xs, s, k); if i.Some? then Some(xs[i.value].now) else None
  {
    if k > 0 {
      HeatIs(sts, xs, s, k - 1);
      assert GoesAt(sts, xs, s, k - 1);
      HeatStep(sts[k - 1], xs[k - 1], s);
    }
  }

  lemma ActiveIs(sts: seq<Track>, xs: seq<Input>, s: Settings, k: nat)
    requires IsRun(sts, xs, s) && k < |xs|
    ensures Active(Heated(sts[k], xs[k], s), xs[k], s) == ClassAt(xs, s, k)
  {
    HeatIs(sts, xs, s, k);
    HeatIs(sts, xs, s, k + 1);
    assert GoesAt(sts, xs, s, k);
    HeatStep(sts[k], xs[k], s);
    ReadsAs(xs[k].obs, s.trigger);
    BurnBefore(xs, s, k);
  }

  lemma BurnBefore(xs: seq<Input>, s: Settings, k: nat)
    requires k < |xs| && forall i, j :: 0 <= i <= j < |xs| ==> xs[i].now <= xs[j].now
    ensures BurnStart(xs, s, k + 1).Some? ==> xs[BurnStart(xs, s, k + 1).value].now <= xs[k].now
  {
  }

  // ----- what an observation does

  /** Where the present streak of resting observations of an open event began. */
  ghost function RestStart(sts: seq<Track>, xs: seq<Input>, s: Settings, k: nat): (r: Option<nat>)
    requires k <= |xs| < |sts|
    ensures r.Some? ==> r.value < k
  {
    if k == 0 || sts[k - 1].event.None? || sts[k].event.None? || !Rests(xs[k - 1].obs, s.trigger) then None
    else if RestStart(sts, xs, s, k - 1).Some? then RestStart(sts, xs, s, k - 1)
    else Some(k - 1)
  }

  lemma RestStep(st: Track, x: Input, s: Settings)
    ensures var st' := Observe(st, x, s).track;
            CalmMark(st') == (if st.event.None? || st'.event.None? || !Rests(x.obs, s.trigger) then None
                              else if CalmMark(st).Some? then CalmMark(st) else Some(x.now))
  {
    ReadsAs(x.obs, s.trigger);
  }

  lemma {:induction false} RestIs(sts: seq<Track>, xs: seq<Input>, s: Settings, k: nat)
    requires IsRun(sts, xs, s) && k <= |xs|
    ensures CalmMark(sts[k]) == var i := RestStart(sts, xs, s, k); if i.Some? then Some(xs[i.value].now) else None
  {
    if k > 0 {
      RestIs(sts, xs, s, k - 1);
      assert GoesAt(sts, xs, s, k - 1);
      RestStep(sts[k - 1], xs[k - 1], s);
    }
  }

  /** No event: one opens exactly when a class is active, and with that class. */
  lemma OpensIff(sts: seq<Track>, xs: seq<Input>, s: Settings, k: nat)
    requires IsRun(sts, xs, s) && k < |xs| && sts[k].event.None?
    ensures var o, c := OutcomeAt(sts, xs, s, k), ClassAt(xs, s, k);
            && (c.None? ==> o == Quiet && sts[k + 1].event.None?)
            && (c.Some? ==> o.Dump? && o.kind == Opened && o.info.class_ == c.value && sts[k + 1].event.Some?
                            && sts[k + 1].event.value.class_ == c.value && sts[k + 1].event.value.openedAt == xs[k].now
                            && sts[k + 1].event.value.lastDump == xs[k].now)
  {
    ActiveIs(sts, xs, s, k);
    assert GoesAt(sts, xs, s, k);
  }

  lemma CalmStep(st: Track, x: Input, s: Settings, since: Instant)
    requires st.event.Some? && Rests(x.obs, s.trigger) && since == (if CalmMark(st).Some? then CalmMark(st).value
        else x.now) <= x.now
    ensures var r := Observe(st, x, s);
            if since + s.trigger.clear <= x.now then r.outcome.Ended? && r.track.event.None?
                && r.outcome.class_ == st.event.value.class_
            else r.outcome == Quiet && r.track.event.Some? && r.track.event.value.class_ == st.event.value.class_
  {
    ReadsAs(x.obs, s.trigger);
  }

  /** An open event and a resting observation: the event ends exactly when all observations since
      the streak began rested and that is at least `clear` ago; otherwise nothing is said. */
  lemma EndsIff(sts: seq<Track>, xs: seq<Input>, s: Settings, k: nat, from: nat)
    requires IsRun(sts, xs, s) && k < |xs| && sts[k].event.Some? && Rests(xs[k].obs, s.trigger)
    requires from == if RestStart(sts, xs, s, k).Some? then RestStart(sts, xs, s, k).value else k
    ensures if xs[from].now + s.trigger.clear <= xs[k].now then OutcomeAt(sts, xs, s, k).Ended? && sts[k + 1].event.None?
            else OutcomeAt(sts, xs, s, k) == Quiet && sts[k + 1].event.Some?
  {
    RestIs(sts, xs, s, k);
    assert GoesAt(sts, xs, s, k);
    CalmStep(sts[k], xs[k], s, xs[from].now);
  }

  lemma TroubleStep(st: Track, x: Input, s: Settings, c: Option<Class>)
    requires st.event.Some? && !Rests(x.obs, s.trigger) && c == Active(Heated(st, x, s), x, s)
        && st.event.value.lastDump <= x.now
    ensures var r, ev := Observe(st, x, s), st.event.value;
            var worse := c.Some? && Rank(c.value) > Rank(ev.class_);
            var again := ev.lastDump + s.config.dumpCooldown <= x.now;
            && r.track.event.Some?
            && r.track.event.value.class_ == (if worse then c.value else ev.class_)
            && r.track.event.value.lastDump == (if worse || again then x.now else ev.lastDump)
            && (if worse then r.outcome.Dump? && r.outcome.kind == Escalated && r.outcome.submit
                else if again then r.outcome.Dump? && r.outcome.kind == Ongoing && !r.outcome.submit
                else r.outcome == Quiet)
  {
    ReadsAs(x.obs, s.trigger);
  }

  lemma {:induction false} DumpsBefore(sts: seq<Track>, xs: seq<Input>, s: Settings, k: nat)
    requires IsRun(sts, xs, s) && k <= |xs|
    ensures sts[k].event.Some? ==> k > 0 && sts[k].event.value.lastDump <= xs[k - 1].now
  {
    if k > 0 {
      DumpsBefore(sts, xs, s, k - 1);
      assert GoesAt(sts, xs, s, k - 1);
      DumpStep(sts[k - 1], xs[k - 1], s);
    }
  }

  lemma DumpStep(st: Track, x: Input, s: Settings)
    ensures var e := Observe(st, x, s).track.event;
            e.Some? ==> e.value.lastDump == x.now || (st.event.Some? && e.value.lastDump == st.event.value.lastDump)
  {
  }

  /** An open event and an observation that does not rest: it escalates, with a ticket, exactly
      when a stronger class is active; else it is reported again exactly when the last report
      lies the cooldown back; else nothing is said. */
  lemma TroubleIff(sts: seq<Track>, xs: seq<Input>, s: Settings, k: nat)
    requires IsRun(sts, xs, s) && k < |xs| && sts[k].event.Some? && !Rests(xs[k].obs, s.trigger)
    ensures var o, ev, c := OutcomeAt(sts, xs, s, k), sts[k].event.value, ClassAt(xs, s, k);
            && sts[k + 1].event.Some?
            && if c.Some? && Rank(c.value) > Rank(ev.class_) then o.Dump? && o.kind == Escalated && o.submit
                && sts[k + 1].event.value.class_ == c.value
               else if ev.lastDump + s.config.dumpCooldown <= xs[k].now then o.Dump? && o.kind == Ongoing && !o.submit
               else o == Quiet
  {
    ActiveIs(sts, xs, s, k);
    DumpsBefore(sts, xs, s, k);
    assert GoesAt(sts, xs, s, k);
    TroubleStep(sts[k], xs[k], s, ClassAt(xs, s, k));
  }

  // ----- the peak

  /** The loss of an observation in percent; an outage counts as all. */
  ghost predicate LossIs(x: Input, s: Settings, pct: real) {
    if IsOut(x.obs, s.trigger) then pct == 100.0
    else if x.obs.total == 0 then pct == 0.0
    else pct * x.obs.total as real == 100.0 * x.obs.missed as real
  }

  lemma PctIs(x: Input, s: Settings)
    ensures LossIs(x, s, Pct(x, s))
  {
    ReadsAs(x.obs, s.trigger);
    if x.obs.total > 0 {
      var a, b := x.obs.missed as real * 100.0, x.obs.total as real;
      assert a / b * b == a;
    }
  }

  /** Since the event that is open in state `k` opened at observation `i`. */
  ghost predicate OpenSince(sts: seq<Track>, i: nat, k: nat) {
    i < k < |sts| && sts[i].event.None? && forall m :: i < m <= k ==> sts[m].event.Some?
  }

  ghost predicate PeakIs(sts: seq<Track>, xs: seq<Input>, s: Settings, i: nat, k: nat)
    requires i < k <= |xs| && k < |sts|
  {
    && sts[k].event.Some?
    && (forall m :: i <= m < k ==> Pct(xs[m], s) <= sts[k].event.value.peak)
    && exists m :: i <= m < k && Pct(xs[m], s) == sts[k].event.value.peak
  }

  lemma PeakStep(st: Track, x: Input, s: Settings)
    ensures var e := Observe(st, x, s).track.event;
            e.Some? ==> e.value.peak == if st.event.None? then Pct(x, s) else Larger(st.event.value.peak, Pct(x, s))
  {
  }

  /** An event's peak is the largest loss observed since it opened. */
  lemma {:induction false} PeakOfEvent(sts: seq<Track>, xs: seq<Input>, s: Settings, i: nat, k: nat)
    requires IsRun(sts, xs, s) && i < k <= |xs| && OpenSince(sts, i, k)
    ensures PeakIs(sts, xs, s, i, k)
    decreases k
  {
    assert GoesAt(sts, xs, s, k - 1);
    PeakStep(sts[k - 1], xs[k - 1], s);
    if k > i + 1 {
      PeakOfEvent(sts, xs, s, i, k - 1);
      var m :| i <= m < k - 1 && Pct(xs[m], s) == sts[k - 1].event.value.peak;
      assert Pct(xs[m], s) <= sts[k].event.value.peak;
      if sts[k].event.value.peak == Pct(xs[k - 1], s) {
        assert i <= k - 1 < k;
      }
    } else {
      assert i <= k - 1 < k && Pct(xs[k - 1], s) == sts[k].event.value.peak;
    }
  }

  // ----- suppressed reports

  /** A degradation that opens without a ticket of its own or of the link it joins. */
  ghost predicate Suppressed(sts: seq<Track>, xs: seq<Input>, s: Settings, k: nat)
    requires k < |xs| < |sts|
  {
    var o := OutcomeAt(sts, xs, s, k);
    o.Dump? && o.kind == Opened && o.info.class_ == Degraded && !o.submit && !xs[k].joins
  }

  ghost predicate Reported(sts: seq<Track>, xs: seq<Input>, s: Settings, k: nat)
    requires k < |xs| < |sts|
  {
    var o := OutcomeAt(sts, xs, s, k);
    o.Dump? && o.kind == Opened && o.info.class_ == Degraded && (o.submit || xs[k].joins)
  }

  /** The degradations suppressed since the last one that was reported. */
  ghost function SuppressedSince(sts: seq<Track>, xs: seq<Input>, s: Settings, k: nat): nat
    requires k <= |xs| < |sts|
  {
    if k == 0 then sts[0].suppressed
    else if Reported(sts, xs, s, k - 1) then 0
    else SuppressedSince(sts, xs, s, k - 1) + if Suppressed(sts, xs, s, k - 1) then 1 else 0
  }

  lemma SuppressedStep(st: Track, x: Input, s: Settings)
    ensures var r := Observe(st, x, s);
            var news := r.outcome.Dump? && r.outcome.kind == Opened && r.outcome.info.class_ == Degraded;
            && r.track.suppressed == (if news && (r.outcome.submit || x.joins) then 0
                else st.suppressed + if news then 1 else 0)
            && (r.outcome.Dump? ==>
                  r.outcome.info.suppressed == if news && (r.outcome.submit || x.joins) then st.suppressed
                      else r.track.suppressed)
  {
  }

  /** The count a ticket carries is that of the degradations suppressed before it. */
  lemma {:induction false} SuppressedIs(sts: seq<Track>, xs: seq<Input>, s: Settings, k: nat)
    requires IsRun(sts, xs, s) && k <= |xs|
    ensures sts[k].suppressed == SuppressedSince(sts, xs, s, k)
    ensures k < |xs| && Reported(sts, xs, s, k)
        ==> OutcomeAt(sts, xs, s, k).info.suppressed == SuppressedSince(sts, xs, s, k)
    decreases k
  {
    if k > 0 {
      SuppressedIs(sts, xs, s, k - 1);
      assert GoesAt(sts, xs, s, k - 1);
      SuppressedStep(sts[k - 1], xs[k - 1], s);
    }
    if k < |xs| {
      SuppressedStep(sts[k], xs[k], s);
    }
  }

  // ----- what a report carries

  /** In an open event's state: the identity, the time and the class it goes by. */
  lemma IdentityStep(st: Track, x: Input, s: Settings)
    ensures var e := Observe(st, x, s).track.event;
            e.Some? ==> e.value.id == (if st.event.None? then x.id else st.event.value.id)
                        && e.value.openedAt == (if st.event.None? then x.now else st.event.value.openedAt)
  {
  }

  /** An event keeps the identity and the time of the observation that opened it. */
  lemma {:induction false} IdentityIs(sts: seq<Track>, xs: seq<Input>, s: Settings, i: nat, k: nat)
    requires IsRun(sts, xs, s) && i < k <= |xs| && OpenSince(sts, i, k)
    ensures sts[k].event.value.id == xs[i].id && sts[k].event.value.openedAt == xs[i].now
    decreases k
  {
    assert GoesAt(sts, xs, s, k - 1);
    IdentityStep(sts[k - 1], xs[k - 1], s);
    if k > i + 1 {
      IdentityIs(sts, xs, s, i, k - 1);
    }
  }

  /** What is said of the event before, as long as one is remembered. */
  ghost predicate TellsPrevious(info: Info, prev: Option<Prev>, now: Instant) {
    if prev.None? then info.previous.None?
    else info.previous == Some(PrevSummary(Since(now, prev.value.endedAt), prev.value.duration, prev.value.peak, prev.value.class_))
  }

  lemma InfoStep(st: Track, x: Input, s: Settings)
    ensures var r := Observe(st, x, s);
            r.outcome.Dump? ==>
              && r.track.event.Some? && TellsPrevious(r.outcome.info, st.prev, x.now)
              && r.outcome.info.id == r.track.event.value.id && r.outcome.info.class_ == r.track.event.value.class_
              && r.outcome.info.age == Since(x.now, r.track.event.value.openedAt)
                  && r.outcome.info.peak == r.track.event.value.peak
  {
  }

  /** A report about an event opened at `i`: the identity given to it then, its present class, its
      age, and its peak. */
  lemma ReportIs(sts: seq<Track>, xs: seq<Input>, s: Settings, i: nat, k: nat)
    requires IsRun(sts, xs, s) && i <= k < |xs| && OpenSince(sts, i, k + 1) && OutcomeAt(sts, xs, s, k).Dump?
    ensures var info := OutcomeAt(sts, xs, s, k).info;
            && info.id == xs[i].id && info.class_ == sts[k + 1].event.value.class_ && info.age == xs[k].now - xs[i].now
            && info.peak == sts[k + 1].event.value.peak && TellsPrevious(info, sts[k].prev, xs[k].now)
  {
    assert GoesAt(sts, xs, s, k);
    IdentityIs(sts, xs, s, i, k + 1);
    InfoStep(sts[k], xs[k], s);
  }

  lemma EndStep(st: Track, x: Input, s: Settings)
    ensures var r := Observe(st, x, s);
            && (r.outcome.Ended? ==>
                  && st.event.Some? && r.outcome.id == st.event.value.id && r.outcome.class_ == st.event.value.class_
                  && r.outcome.duration == Since(x.now, st.event.value.openedAt)
                  && r.outcome.peak == Larger(st.event.value.peak, Pct(x, s)))
            && r.track.prev == if r.outcome.Ended?
                then Some(Prev(x.now, r.outcome.duration, r.outcome.peak, r.outcome.class_)) else st.prev
  {
  }

  /** The end of an event opened at `i` is reported with its identity, class and duration, and is
      what later reports tell as the previous event; nothing else is. */
  lemma EndIs(sts: seq<Track>, xs: seq<Input>, s: Settings, i: nat, k: nat)
    requires IsRun(sts, xs, s) && i < k < |xs| && OpenSince(sts, i, k)
    ensures var o := OutcomeAt(sts, xs, s, k);
            && (o.Ended? ==> o.id == xs[i].id && o.class_ == sts[k].event.value.class_ && o.duration == xs[k].now - xs[i].now
                             && o.peak == Larger(sts[k].event.value.peak, Pct(xs[k], s)))
            && sts[k + 1].prev == if o.Ended? then Some(Prev(xs[k].now, o.duration, o.peak, o.class_)) else sts[k].prev
  {
    assert GoesAt(sts, xs, s, k);
    IdentityIs(sts, xs, s, i, k);
    EndStep(sts[k], xs[k], s);
  }

  /** The saved state is marked stale exactly when a ticket is filed, an opening joins another
      link's, or an event ends; only then do the saved parts change. */
  lemma DirtyIff(st: Track, x: Input, s: Settings)
    ensures var r := Observe(st, x, s);
            && (r.dirty <==> IsTicket(r.outcome) || (r.outcome.Dump? && r.outcome.kind == Opened && x.joins) || r.outcome.Ended?)
            && (!r.dirty ==> r.track.lastSubmit == st.lastSubmit && r.track.lastDegraded == st.lastDegraded && r.track.prev == st.prev)
  {
  }
}
