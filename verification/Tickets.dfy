/** Automatic loss reports: when trouble on a link opens, escalates and ends an event, and
    which of these are submitted as tickets. */
module Tickets {
  import opened Bytes
  import opened Common

  /** A time on the monotone clock, in nanoseconds from its start. The clock is signed: a time
      restored from before the last boot is negative. */
  type Instant = int

  const SECOND: nat := 1_000_000_000
  const CONFIRM: nat := 30 * SECOND
  const RETICKET_GAP: nat := 1800 * SECOND

  datatype Class = Degraded | Flap | Outage

  function Rank(c: Class): nat {
    match c
    case Degraded => 0
    case Flap => 1
    case Outage => 2
  }

  datatype Observation = Observation(downFor: Option<nat>, recentDowns: nat, total: nat, missed: nat, windowAge: Option<nat>)

  datatype Trigger = Trigger(
    minProbes: nat, openMisses: nat, openPct: real, closePct: real, clear: nat, outageAfter: nat, warmup: nat, flapDowns: nat)

  datatype Config = Config(dumpCooldown: nat, join: nat, degradedGap: nat)

  datatype Settings = Settings(trigger: Trigger, config: Config)

  function LossPct(o: Observation): Option<real> {
    if o.total > 0 then Some(o.missed as real * 100.0 / o.total as real) else None
  }

  function Loss(o: Observation): real {
    if LossPct(o).Some? then LossPct(o).value else 0.0
  }

  predicate IsOutage(o: Observation, t: Trigger) {
    o.downFor.Some? && o.downFor.value > t.outageAfter
  }

  predicate IsFlap(o: Observation, t: Trigger) {
    t.flapDowns > 0 && o.recentDowns >= t.flapDowns
  }

  predicate IsHot(o: Observation, t: Trigger) {
    && o.downFor.None? && o.windowAge.Some? && o.windowAge.value >= t.warmup
    && o.total >= t.minProbes && o.missed >= t.openMisses && Loss(o) >= t.openPct
  }

  predicate IsCalm(o: Observation, t: Trigger) {
    !IsOutage(o, t) && !IsFlap(o, t) && !(o.total >= t.minProbes && Loss(o) >= t.closePct)
  }

  // ----- one link's state machine

  datatype Id = Id(link: string, unix: nat)

  datatype Event = Event(id: Id, class_: Class, openedAt: Instant, peak: real, calmSince: Option<Instant>, lastDump: Instant)

  datatype Prev = Prev(endedAt: Instant, duration: nat, peak: real, class_: Class)

  datatype Track = Track(
    event: Option<Event>, hotSince: Option<Instant>, lastSubmit: Option<Instant>, lastDegraded: Option<Instant>,
    suppressed: nat, prev: Option<Prev>)

  const NEW_TRACK: Track := Track(None, None, None, None, 0, None)

  datatype Kind = Opened | Escalated | Ongoing

  datatype PrevSummary = PrevSummary(endedAgo: nat, duration: nat, peak: real, class_: Class)

  datatype Info = Info(id: Id, class_: Class, age: nat, peak: real, suppressed: nat, previous: Option<PrevSummary>)

  datatype Outcome =
    | Quiet
    | Dump(submit: bool, kind: Kind, info: Info)
    | Ended(id: Id, class_: Class, duration: nat, peak: real)

  /** One evaluation of a link; `joins` when another link's event opened recently. */
  datatype Input = Input(now: Instant, id: Id, obs: Observation, joins: bool)

  datatype Result = Result(track: Track, outcome: Outcome, dirty: bool)

  predicate Within(t: Option<Instant>, now: Instant, gap: nat) {
    t.Some? && Since(now, t.value) < gap
  }

  function InfoOf(st: Track, ev: Event, now: Instant): Info {
    Info(ev.id, ev.class_, Since(now, ev.openedAt), ev.peak, st.suppressed,
         if st.prev.None? then None
         else Some(PrevSummary(Since(now, st.prev.value.endedAt), st.prev.value.duration, st.prev.value.peak, st.prev.value.class_)))
  }

  function Heated(st: Track, x: Input, s: Settings): Track {
    if IsHot(x.obs, s.trigger) then (if st.hotSince.Some? then st else st.(hotSince := Some(x.now)))
    else st.(hotSince := None)
  }

  /** The strongest class the observation amounts to, a degradation only once confirmed. */
  function Active(st: Track, x: Input, s: Settings): Option<Class> {
    if IsOutage(x.obs, s.trigger) then Some(Outage)
    else if IsFlap(x.obs, s.trigger) then Some(Flap)
    else if st.hotSince.Some? && Since(x.now, st.hotSince.value) >= CONFIRM then Some(Degraded)
    else None
  }

  function Pct(x: Input, s: Settings): real {
    if IsOutage(x.obs, s.trigger) then 100.0 else Loss(x.obs)
  }

  function Larger(a: real, b: real): real {
    if a >= b then a else b
  }

  function Calmed(st: Track, ev: Event, x: Input, s: Settings): Result {
    var since := if ev.calmSince.Some? then ev.calmSince.value else x.now;
    if Since(x.now, since) >= s.trigger.clear then
      var duration := Since(x.now, ev.openedAt);
      Result(st.(event := None, prev := Some(Prev(x.now, duration, ev.peak, ev.class_))),
             Ended(ev.id, ev.class_, duration, ev.peak), true)
    else Result(st.(event := Some(ev.(calmSince := Some(since)))), Quiet, false)
  }

  function Troubled(st: Track, ev: Event, x: Input, s: Settings): Result {
    var active := Active(st, x, s);
    if active.Some? && Rank(active.value) > Rank(ev.class_) then
      var ev' := ev.(calmSince := None, class_ := active.value, lastDump := x.now);
      var st' := st.(event := Some(ev'), lastSubmit := Some(x.now));
      Result(st', Dump(true, Escalated, InfoOf(st', ev', x.now)), true)
    else if Since(x.now, ev.lastDump) >= s.config.dumpCooldown then
      var ev' := ev.(calmSince := None, lastDump := x.now);
      Result(st.(event := Some(ev')), Dump(false, Ongoing, InfoOf(st, ev', x.now)), false)
    else Result(st.(event := Some(ev.(calmSince := None))), Quiet, false)
  }

  predicate Submits(st: Track, class_: Class, x: Input, s: Settings) {
    && !x.joins && !Within(st.lastSubmit, x.now, RETICKET_GAP)
    && !(class_ == Degraded && Within(st.lastDegraded, x.now, s.config.degradedGap))
  }

  function Ticketed(st: Track, class_: Class, now: Instant): Track {
    if class_ == Degraded then st.(lastSubmit := Some(now), lastDegraded := Some(now), suppressed := 0)
    else st.(lastSubmit := Some(now))
  }

  function Opens(st: Track, class_: Class, x: Input, s: Settings): Result {
    var submit := Submits(st, class_, x, s);
    var st1 := if !submit && !x.joins && class_ == Degraded then st.(suppressed := st.suppressed + 1) else st;
    var st2 := if submit || x.joins then Ticketed(st1, class_, x.now) else st1;
    var ev := Event(x.id, class_, x.now, Pct(x, s), None, x.now);
    Result(st2.(event := Some(ev)),
           Dump(submit, Opened, InfoOf(st2, ev, x.now).(suppressed := st1.suppressed)), submit || x.joins)
  }

  function Observe(st0: Track, x: Input, s: Settings): Result {
    var st := Heated(st0, x, s);
    if st.event.Some? then
      var ev := st.event.value.(peak := Larger(st.event.value.peak, Pct(x, s)));
      if IsCalm(x.obs, s.trigger) then Calmed(st, ev, x, s) else Troubled(st, ev, x, s)
    else
      var active := Active(st, x, s);
      if active.None? then Result(st, Quiet, false) else Opens(st, active.value, x, s)
  }

  // ----- runs

  predicate IsTicket(o: Outcome) {
    o.Dump? && o.submit
  }

  predicate IsOpening(o: Outcome) {
    IsTicket(o) && o.kind == Opened
  }

  ghost predicate GoesAt(sts: seq<Track>, xs: seq<Input>, s: Settings, k: nat)
    requires k < |xs| < |sts|
  {
    sts[k + 1] == Observe(sts[k], xs[k], s).track
  }

  /** The states of one link from a start without an open event, through monotone time. */
  ghost predicate IsRun(sts: seq<Track>, xs: seq<Input>, s: Settings) {
    && |sts| == |xs| + 1 && sts[0].event.None? && sts[0].hotSince.None?
    && (forall i, j :: 0 <= i <= j < |xs| ==> xs[i].now <= xs[j].now)
    && forall k: nat :: k < |xs| ==> GoesAt(sts, xs, s, k)
  }

  ghost function OutcomeAt(sts: seq<Track>, xs: seq<Input>, s: Settings, k: nat): Outcome
    requires k < |xs| < |sts|
  {
    Observe(sts[k], xs[k], s).outcome
  }

  ghost predicate AtLeast(t: Option<Instant>, bound: Instant) {
    t.Some? && t.value >= bound
  }

  /** A ticket is remembered, and nothing but later tickets replaces the memory. */
  lemma SubmitStep(st: Track, x: Input, s: Settings, bound: Instant)
    requires bound <= x.now
    ensures IsTicket(Observe(st, x, s).outcome) ==> AtLeast(Observe(st, x, s).track.lastSubmit, x.now)
    ensures AtLeast(st.lastSubmit, bound) ==> AtLeast(Observe(st, x, s).track.lastSubmit, bound)
  {
  }

  lemma DegradedStep(st: Track, x: Input, s: Settings, bound: Instant)
    requires bound <= x.now
    ensures var r := Observe(st, x, s);
            IsOpening(r.outcome) && r.outcome.info.class_ == Degraded ==> AtLeast(r.track.lastDegraded, x.now)
    ensures AtLeast(st.lastDegraded, bound) ==> AtLeast(Observe(st, x, s).track.lastDegraded, bound)
  {
  }

  lemma OpeningNeedsGap(st: Track, x: Input, s: Settings, bound: Instant)
    requires IsOpening(Observe(st, x, s).outcome)
    ensures AtLeast(st.lastSubmit, bound) && bound <= x.now ==> x.now >= bound + RETICKET_GAP
    ensures AtLeast(st.lastDegraded, bound) && bound <= x.now && Observe(st, x, s).outcome.info.class_ == Degraded ==>
              x.now >= bound + s.config.degradedGap
  {
  }

  ghost predicate SubmittedBy(sts: seq<Track>, k: nat, t: Instant)
    requires k < |sts|
  {
    AtLeast(sts[k].lastSubmit, t)
  }

  ghost predicate DegradedBy(sts: seq<Track>, k: nat, t: Instant)
    requires k < |sts|
  {
    AtLeast(sts[k].lastDegraded, t)
  }

  lemma {:induction false} SubmitRemembered(sts: seq<Track>, xs: seq<Input>, s: Settings, i: nat, k: nat)
    requires IsRun(sts, xs, s) && i < k <= |xs| && IsTicket(OutcomeAt(sts, xs, s, i))
    ensures SubmittedBy(sts, k, xs[i].now)
    decreases k
  {
    assert GoesAt(sts, xs, s, k - 1);
    SubmitStep(sts[k - 1], xs[k - 1], s, xs[i].now);
    if k > i + 1 {
      SubmitRemembered(sts, xs, s, i, k - 1);
    }
  }

  lemma {:induction false} DegradedRemembered(sts: seq<Track>, xs: seq<Input>, s: Settings, i: nat, k: nat)
    requires IsRun(sts, xs, s) && i < k <= |xs|
    requires IsOpening(OutcomeAt(sts, xs, s, i)) && OutcomeAt(sts, xs, s, i).info.class_ == Degraded
    ensures DegradedBy(sts, k, xs[i].now)
    decreases k
  {
    assert GoesAt(sts, xs, s, k - 1);
    DegradedStep(sts[k - 1], xs[k - 1], s, xs[i].now);
    if k > i + 1 {
      DegradedRemembered(sts, xs, s, i, k - 1);
    }
  }

  /** Every submitted opening comes at least half an hour after every earlier ticket. */
  lemma OpeningsAreSpaced(sts: seq<Track>, xs: seq<Input>, s: Settings, i: nat, j: nat)
    requires IsRun(sts, xs, s) && i < j < |xs|
    requires IsTicket(OutcomeAt(sts, xs, s, i)) && IsOpening(OutcomeAt(sts, xs, s, j))
    ensures xs[j].now >= xs[i].now + RETICKET_GAP
  {
    SubmitRemembered(sts, xs, s, i, j);
    OpeningNeedsGap(sts[j], xs[j], s, xs[i].now);
  }

  /** Submitted openings of class Degraded are at least the configured gap apart. */
  lemma DegradedAreSpaced(sts: seq<Track>, xs: seq<Input>, s: Settings, i: nat, j: nat)
    requires IsRun(sts, xs, s) && i < j < |xs|
    requires IsOpening(OutcomeAt(sts, xs, s, i)) && OutcomeAt(sts, xs, s, i).info.class_ == Degraded
    requires IsOpening(OutcomeAt(sts, xs, s, j)) && OutcomeAt(sts, xs, s, j).info.class_ == Degraded
    ensures xs[j].now >= xs[i].now + s.config.degradedGap
  {
    DegradedRemembered(sts, xs, s, i, j);
    OpeningNeedsGap(sts[j], xs[j], s, xs[i].now);
  }

  // ----- tickets of one event

  /** The ranks submitted for the current event, or for the last one when none is open. */
  ghost function Submitted(sts: seq<Track>, xs: seq<Input>, s: Settings, k: nat): seq<nat>
    requires k <= |xs| < |sts|
  {
    if k == 0 then []
    else
      var before, o := Submitted(sts, xs, s, k - 1), OutcomeAt(sts, xs, s, k - 1);
      if o.Dump? && o.kind == Opened then (if o.submit then [Rank(o.info.class_)] else [])
      else if IsTicket(o) then before + [Rank(o.info.class_)]
      else before
  }

  ghost predicate Rising(ranks: seq<nat>, limit: nat) {
    && (forall i, j :: 0 <= i < j < |ranks| ==> ranks[i] < ranks[j])
    && forall i :: 0 <= i < |ranks| ==> ranks[i] < limit
  }

  lemma {:induction false} RisingIsShort(ranks: seq<nat>, limit: nat)
    requires Rising(ranks, limit)
    ensures |ranks| <= limit
  {
    if ranks != [] {
      var n := |ranks| - 1;
      RisingIsShort(ranks[..n], ranks[n]);
    }
  }

  ghost function Ceiling(st: Track): nat {
    if st.event.Some? then Rank(st.event.value.class_) + 1 else 3
  }

  lemma SubmittedStep(st: Track, x: Input, s: Settings, before: seq<nat>)
    requires Rising(before, Ceiling(st))
    ensures var r := Observe(st, x, s);
            && (r.outcome.Dump? ==> r.track.event.Some? && r.outcome.info.class_ == r.track.event.value.class_)
            && (IsTicket(r.outcome) && r.outcome.kind != Opened ==>
              st.event.Some? && Rank(r.outcome.info.class_) > Rank(st.event.value.class_))
            && (!IsTicket(r.outcome) && !(r.outcome.Dump? && r.outcome.kind == Opened) ==>
              Rising(before, Ceiling(r.track)))
  {
  }

  lemma RisingMore(ranks: seq<nat>, limit: nat, rank: nat)
    requires Rising(ranks, limit) && limit <= rank
    ensures Rising(ranks + [rank], rank + 1)
  {
  }

  ghost predicate RisingAt(sts: seq<Track>, xs: seq<Input>, s: Settings, k: nat)
    requires k <= |xs| < |sts|
  {
    Rising(Submitted(sts, xs, s, k), Ceiling(sts[k]))
  }

  lemma RisingNext(sts: seq<Track>, xs: seq<Input>, s: Settings, k: nat)
    requires IsRun(sts, xs, s) && 0 < k <= |xs| && RisingAt(sts, xs, s, k - 1)
    ensures RisingAt(sts, xs, s, k)
  {
    assert GoesAt(sts, xs, s, k - 1);
    var before, o := Submitted(sts, xs, s, k - 1), OutcomeAt(sts, xs, s, k - 1);
    SubmittedStep(sts[k - 1], xs[k - 1], s, before);
    if IsTicket(o) && o.kind != Opened {
      RisingMore(before, Ceiling(sts[k - 1]), Rank(o.info.class_));
    }
  }

  /** An event yields at most three tickets, of strictly rising class. */
  lemma {:induction false} TicketsPerEvent(sts: seq<Track>, xs: seq<Input>, s: Settings, k: nat)
    requires IsRun(sts, xs, s) && k <= |xs|
    ensures RisingAt(sts, xs, s, k) && |Submitted(sts, xs, s, k)| <= 3
    decreases k
  {
    if k > 0 {
      TicketsPerEvent(sts, xs, s, k - 1);
      RisingNext(sts, xs, s, k);
    }
    RisingIsShort(Submitted(sts, xs, s, k), Ceiling(sts[k]));
  }

  // ----- exactly how many

  /** Observation `m` opens an event. */
  ghost predicate OpensAt(sts: seq<Track>, xs: seq<Input>, s: Settings, m: nat)
    requires m < |xs| < |sts|
  {
    sts[m].event.None? && Active(Heated(sts[m], xs[m], s), xs[m], s).Some?
  }

  /** Observation `m` is of a stronger class than the event that is open. */
  ghost predicate WorsensAt(sts: seq<Track>, xs: seq<Input>, s: Settings, m: nat)
    requires m < |xs| < |sts|
  {
    var active := Active(Heated(sts[m], xs[m], s), xs[m], s);
    && sts[m].event.Some? && !IsCalm(xs[m].obs, s.trigger)
    && active.Some? && Rank(active.value) > Rank(sts[m].event.value.class_)
  }

  /** How often the event worsened in the steps from `i` up to but not including `k`. */
  ghost function Worsenings(sts: seq<Track>, xs: seq<Input>, s: Settings, i: nat, k: nat): nat
    requires i <= k <= |xs| < |sts|
    decreases k - i
  {
    if i == k then 0 else Worsenings(sts, xs, s, i, k - 1) + if WorsensAt(sts, xs, s, k - 1) then 1 else 0
  }

  ghost predicate OpeningSubmitted(sts: seq<Track>, xs: seq<Input>, s: Settings, m: nat)
    requires m < |xs| < |sts| && OpensAt(sts, xs, s, m)
  {
    var st := Heated(sts[m], xs[m], s);
    Submits(st, Active(st, xs[m], s).value, xs[m], s)
  }

  /** The outcome of one observation, by cases. */
  lemma OutcomeCases(sts: seq<Track>, xs: seq<Input>, s: Settings, m: nat)
    requires m < |xs| < |sts|
    ensures var o := OutcomeAt(sts, xs, s, m);
            && (o.Dump? && o.kind == Opened <==> OpensAt(sts, xs, s, m))
            && (OpensAt(sts, xs, s, m) ==> o.submit == OpeningSubmitted(sts, xs, s, m))
            && (IsTicket(o) && o.kind != Opened <==> WorsensAt(sts, xs, s, m))
  {
  }

  /** The tickets of an event that opened at `i`: one if its opening was submitted, and one for
      every observation stronger than the event was until then. */
  lemma {:induction false} TicketCount(sts: seq<Track>, xs: seq<Input>, s: Settings, i: nat, k: nat)
    requires IsRun(sts, xs, s) && i < k <= |xs| && OpensAt(sts, xs, s, i)
    requires forall m: nat :: i < m < k ==> !OpensAt(sts, xs, s, m)
    ensures |Submitted(sts, xs, s, k)|
            == (if OpeningSubmitted(sts, xs, s, i) then 1 else 0) + Worsenings(sts, xs, s, i + 1, k)
    decreases k
  {
    OutcomeCases(sts, xs, s, k - 1);
    if k > i + 1 {
      TicketCount(sts, xs, s, i, k - 1);
    }
  }

  /** So "one ticket per event" holds of an event exactly when its opening is submitted and it
      never worsens, or its opening is not submitted and it worsens once. */
  lemma OneTicketIff(sts: seq<Track>, xs: seq<Input>, s: Settings, i: nat, k: nat)
    requires IsRun(sts, xs, s) && i < k <= |xs| && OpensAt(sts, xs, s, i)
    requires forall m: nat :: i < m < k ==> !OpensAt(sts, xs, s, m)
    ensures |Submitted(sts, xs, s, k)| == 1
            <==> Worsenings(sts, xs, s, i + 1, k) == if OpeningSubmitted(sts, xs, s, i) then 0 else 1
  {
    TicketCount(sts, xs, s, i, k);
  }

  /** Degraded for half a minute, then flapping, then out: what such a run looks like. */
  ghost predicate Deteriorates(xs: seq<Input>, s: Settings) {
    && |xs| == 4 && xs[1].now >= xs[0].now + CONFIRM && !xs[1].joins
    && (forall m :: 0 <= m < 2 ==> IsHot(xs[m].obs, s.trigger) && !IsFlap(xs[m].obs, s.trigger))
    && !IsOutage(xs[2].obs, s.trigger) && IsFlap(xs[2].obs, s.trigger) && IsOutage(xs[3].obs, s.trigger)
  }

  lemma DegradedOpens(st0: Track, st1: Track, x0: Input, x1: Input, s: Settings)
    requires st0 == NEW_TRACK && st1 == Observe(st0, x0, s).track && x1.now >= x0.now + CONFIRM && !x1.joins
    requires IsHot(x0.obs, s.trigger) && IsHot(x1.obs, s.trigger) && !IsFlap(x0.obs, s.trigger)
        && !IsFlap(x1.obs, s.trigger)
    ensures Observe(st0, x0, s).outcome == Quiet
    ensures var r := Observe(st1, x1, s); IsOpening(r.outcome) && r.outcome.info.class_ == Degraded
                                          && r.track.event.Some? && r.track.event.value.class_ == Degraded
  {
  }

  lemma Escalates(st: Track, x: Input, s: Settings, class_: Class)
    requires st.event.Some? && Rank(class_) > Rank(st.event.value.class_)
    requires if class_ == Outage then IsOutage(x.obs, s.trigger)
             else class_ == Flap && IsFlap(x.obs, s.trigger) && !IsOutage(x.obs, s.trigger)
    ensures var r := Observe(st, x, s);
            && IsTicket(r.outcome) && r.outcome.kind == Escalated && r.outcome.info.class_ == class_
            && r.track.event.Some? && r.track.event.value.class_ == class_
  {
  }

  /** Every such run of a new link files three tickets for its one event. */
  lemma ThreeTickets(sts: seq<Track>, xs: seq<Input>, s: Settings)
    requires IsRun(sts, xs, s) && sts[0] == NEW_TRACK && Deteriorates(xs, s)
    ensures Submitted(sts, xs, s, 4) == [Rank(Degraded), Rank(Flap), Rank(Outage)]
  {
    assert GoesAt(sts, xs, s, 0) && GoesAt(sts, xs, s, 1) && GoesAt(sts, xs, s, 2) && GoesAt(sts, xs, s, 3);
    DegradedOpens(sts[0], sts[1], xs[0], xs[1], s);
    Escalates(sts[2], xs[2], s, Flap);
    Escalates(sts[3], xs[3], s, Outage);
    assert Submitted(sts, xs, s, 2) == [Rank(Degraded)];
    assert Submitted(sts, xs, s, 3) == [Rank(Degraded), Rank(Flap)];
  }

  lemma RunOfFour(xs: seq<Input>, s: Settings) returns (sts: seq<Track>)
    requires |xs| == 4 && forall i, j :: 0 <= i <= j < |xs| ==> xs[i].now <= xs[j].now
    ensures IsRun(sts, xs, s) && sts[0] == NEW_TRACK
  {
    var a := Observe(NEW_TRACK, xs[0], s).track;
    var b := Observe(a, xs[1], s).track;
    var c := Observe(b, xs[2], s).track;
    sts := [NEW_TRACK, a, b, c, Observe(c, xs[3], s).track];
    forall k: nat | k < 4 ensures GoesAt(sts, xs, s, k) {
    }
  }

  /** And there is one: ten probes of which five were lost, then three downs, then an hour. */
  lemma ThreeTicketsHappen() returns (sts: seq<Track>, xs: seq<Input>, s: Settings)
    ensures IsRun(sts, xs, s) && sts[0] == NEW_TRACK && Deteriorates(xs, s)
  {
    s := Settings(Trigger(1, 1, 10.0, 5.0, 60 * SECOND, 10 * SECOND, 0, 3), Config(60 * SECOND, 0, 0));
    var hot, id := Observation(None, 0, 10, 5, Some(0)), Id("link", 0);
    xs := [Input(0, id, hot, false), Input(CONFIRM, id, hot, false), Input(CONFIRM + 1, id, hot.(recentDowns := 3), false),
           Input(CONFIRM + 2, id, hot.(downFor := Some(3600 * SECOND)), false)];
    sts := RunOfFour(xs, s);
    assert LossPct(hot) == Some(50.0);
  }

  // ----- confirmation before and calm after an event

  /** All observations from `i` up to but not including `k` are hot. */
  ghost predicate HotFrom(xs: seq<Input>, s: Settings, i: nat, k: nat) {
    k <= |xs| && forall m :: i <= m < k ==> IsHot(xs[m].obs, s.trigger)
  }

  ghost predicate CalmFrom(xs: seq<Input>, s: Settings, i: nat, k: nat) {
    k <= |xs| && forall m :: i <= m < k ==> IsCalm(xs[m].obs, s.trigger)
  }

  /** Hot without a break since time `t`. */
  ghost predicate HotSince(xs: seq<Input>, s: Settings, k: nat, t: Instant) {
    k <= |xs| && exists i: nat :: i < k && xs[i].now == t && HotFrom(xs, s, i, k)
  }

  ghost predicate CalmSince(xs: seq<Input>, s: Settings, k: nat, t: Instant) {
    k <= |xs| && exists i: nat :: i < k && xs[i].now == t && CalmFrom(xs, s, i, k)
  }

  lemma HotNext(xs: seq<Input>, s: Settings, k: nat, t: Instant)
    requires k < |xs| && IsHot(xs[k].obs, s.trigger) && (t == xs[k].now || HotSince(xs, s, k, t))
    ensures HotSince(xs, s, k + 1, t)
  {
    if HotSince(xs, s, k, t) {
      var i: nat :| i < k && xs[i].now == t && HotFrom(xs, s, i, k);
      assert HotFrom(xs, s, i, k + 1);
    } else {
      assert HotFrom(xs, s, k, k + 1);
    }
  }

  lemma CalmNext(xs: seq<Input>, s: Settings, k: nat, t: Instant)
    requires k < |xs| && IsCalm(xs[k].obs, s.trigger) && (t == xs[k].now || CalmSince(xs, s, k, t))
    ensures CalmSince(xs, s, k + 1, t)
  {
    if CalmSince(xs, s, k, t) {
      var i: nat :| i < k && xs[i].now == t && CalmFrom(xs, s, i, k);
      assert CalmFrom(xs, s, i, k + 1);
    } else {
      assert CalmFrom(xs, s, k, k + 1);
    }
  }

  ghost function CalmMark(st: Track): Option<Instant> {
    if st.event.Some? then st.event.value.calmSince else None
  }

  ghost predicate MarksAt(sts: seq<Track>, xs: seq<Input>, s: Settings, k: nat)
    requires k <= |xs| < |sts|
  {
    && (sts[k].hotSince.Some? ==> HotSince(xs, s, k, sts[k].hotSince.value))
    && (CalmMark(sts[k]).Some? ==> CalmSince(xs, s, k, CalmMark(sts[k]).value))
  }

  /** The marks are set when the condition starts, kept while it lasts and dropped after. */
  lemma MarkStep(st: Track, x: Input, s: Settings)
    ensures var st' := Observe(st, x, s).track;
            && (st'.hotSince.Some? ==> IsHot(x.obs, s.trigger) && (st'.hotSince == st.hotSince || st'.hotSince.value == x.now))
            && (CalmMark(st').Some? ==>
              IsCalm(x.obs, s.trigger) && (CalmMark(st') == CalmMark(st) || CalmMark(st').value == x.now))
  {
  }

  lemma MarksNext(sts: seq<Track>, xs: seq<Input>, s: Settings, k: nat)
    requires IsRun(sts, xs, s) && k < |xs| && MarksAt(sts, xs, s, k)
    ensures MarksAt(sts, xs, s, k + 1)
  {
    assert GoesAt(sts, xs, s, k);
    MarkStep(sts[k], xs[k], s);
    if sts[k + 1].hotSince.Some? {
      HotNext(xs, s, k, sts[k + 1].hotSince.value);
    }
    if CalmMark(sts[k + 1]).Some? {
      CalmNext(xs, s, k, CalmMark(sts[k + 1]).value);
    }
  }

  lemma {:induction false} RunMarks(sts: seq<Track>, xs: seq<Input>, s: Settings, k: nat)
    requires IsRun(sts, xs, s) && k <= |xs|
    ensures MarksAt(sts, xs, s, k)
    decreases k
  {
    if k > 0 {
      RunMarks(sts, xs, s, k - 1);
      MarksNext(sts, xs, s, k - 1);
    }
  }

  /** A Degraded event opens only after half a minute of observations that were all hot. */
  lemma DegradedIsConfirmed(sts: seq<Track>, xs: seq<Input>, s: Settings, j: nat) returns (i: nat)
    requires IsRun(sts, xs, s) && j < |xs|
    requires var o := OutcomeAt(sts, xs, s, j); o.Dump? && o.kind == Opened && o.info.class_ == Degraded
    ensures i < j && HotFrom(xs, s, i, j) && IsHot(xs[j].obs, s.trigger) && xs[j].now >= xs[i].now + CONFIRM
  {
    RunMarks(sts, xs, s, j);
    var t := sts[j].hotSince.value;
    i :| i < j && xs[i].now == t && HotFrom(xs, s, i, j);
  }

  /** An event ends only after `clear` of observations that were all calm; with a `clear` of
      zero the present one suffices. */
  lemma EndsAfterCalm(sts: seq<Track>, xs: seq<Input>, s: Settings, j: nat) returns (i: nat)
    requires IsRun(sts, xs, s) && j < |xs| && OutcomeAt(sts, xs, s, j).Ended?
    ensures i <= j && CalmFrom(xs, s, i, j + 1) && xs[j].now >= xs[i].now + s.trigger.clear
  {
    RunMarks(sts, xs, s, j);
    i := j;
    if CalmMark(sts[j]).Some? {
      i :| i < j && xs[i].now == CalmMark(sts[j]).value && CalmFrom(xs, s, i, j);
    }
  }
}
