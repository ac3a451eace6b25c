/** Ticket times across a restart of the daemon: saved in whole seconds of wall-clock time and
    turned back into monotonic time. */
module TicketStore {
  import opened Bytes
  import opened Common
  import opened Tickets

  /** The wall clock reads whole seconds from its epoch; `offset` is where it stands when the
      monotonic clock starts. */
  function Wall(now: Instant, offset: int): nat {
    Since(now + offset, 0) / SECOND
  }

  function ToUnix(now: Instant, nowUnix: nat, at: Instant): nat {
    SatSub(nowUnix, Since(now, at) / SECOND)
  }

  /** How long ago a saved time is, in nanoseconds. */
  function Age(nowUnix: nat, unix: nat): nat {
    SatSub(nowUnix, unix) * SECOND
  }

  /** The monotonic time of a saved time, before the clock's start if need be. */
  function Retained(now: Instant, nowUnix: nat, unix: nat, gap: nat): Option<Instant> {
    if Age(nowUnix, unix) < gap then Some(now - Age(nowUnix, unix)) else None
  }

  lemma FloorRange(x: nat)
    ensures x - SECOND < x / SECOND * SECOND <= x
  {
  }

  lemma FloorMonotone(x: nat, y: nat)
    requires x <= y
    ensures x / SECOND <= y / SECOND
  {
  }

  /** The time a ticket has really been filed for when it is restored: the monotonic clock may
      have started anew in between, which shows in its offset from the wall clock. */
  ghost function Elapsed(at: Instant, offset: int, restored: Instant, offset': int): int {
    restored + offset' - (at + offset)
  }

  ghost function RestoredAge(at: Instant, saved: Instant, offset: int, restored: Instant, offset': int): nat {
    Age(Wall(restored, offset'), ToUnix(saved, Wall(saved, offset), at))
  }

  ghost function RestoredTime(at: Instant, saved: Instant, offset: int, restored: Instant, offset': int,
                              gap: nat): Option<Instant> {
    Retained(restored, Wall(restored, offset'), ToUnix(saved, Wall(saved, offset), at), gap)
  }

  /** Filed, saved and restored in this order on the wall clock, none before its epoch. */
  ghost predicate Later(at: Instant, saved: Instant, offset: int, restored: Instant, offset': int) {
    at <= saved && 0 <= at + offset && saved + offset <= restored + offset'
  }

  /** The age computed in whole seconds is off by less than two seconds one way and one the
      other. */
  lemma AgeShift(at: Instant, saved: Instant, offset: int, restored: Instant, offset': int, age: nat)
    requires Later(at, saved, offset, restored, offset') && age == RestoredAge(at, saved, offset, restored, offset')
    ensures Elapsed(at, offset, restored, offset') - 2 * SECOND < age < Elapsed(at, offset, restored, offset') + SECOND
  {
    var u, v, f := Wall(saved, offset), Wall(restored, offset'), (saved - at) / SECOND;
    FloorMonotone(saved + offset, restored + offset');
    FloorMonotone(saved - at, saved + offset);
    assert ToUnix(saved, u, at) == u - f;
    assert age == (v - u + f) * SECOND == v * SECOND - u * SECOND + f * SECOND;
    FloorRange(saved + offset);
    FloorRange(restored + offset');
    FloorRange(saved - at);
  }

  /** A ticket time survives exactly when it is younger than the gap, give or take the
      rounding: surely when a second younger, surely not when two seconds older; a reboot in
      between makes no difference. */
  lemma RetainedIff(at: Instant, saved: Instant, offset: int, restored: Instant, offset': int, gap: nat, age: nat)
    requires Later(at, saved, offset, restored, offset') && age == RestoredAge(at, saved, offset, restored, offset')
    ensures RestoredTime(at, saved, offset, restored, offset', gap) == if age < gap then Some(restored - age) else None
    ensures Elapsed(at, offset, restored, offset') <= gap - SECOND ==> age < gap
    ensures age < gap ==> Elapsed(at, offset, restored, offset') < gap + 2 * SECOND
  {
    AgeShift(at, saved, offset, restored, offset', age);
  }

  /** Saving and restoring shifts a retained time, read on the wall clock, by less than two
      seconds. */
  lemma RestoreShift(at: Instant, saved: Instant, offset: int, restored: Instant, offset': int, gap: nat)
    requires Later(at, saved, offset, restored, offset')
    ensures var r := RestoredTime(at, saved, offset, restored, offset', gap);
            r.Some? ==> at + offset - SECOND < r.value + offset' < at + offset + 2 * SECOND && r.value <= restored
  {
    AgeShift(at, saved, offset, restored, offset', RestoredAge(at, saved, offset, restored, offset'));
  }

  /** A ticket is forgotten only when it is as old as the gap, give or take a second. */
  lemma ForgottenIsOld(at: Instant, saved: Instant, offset: int, restored: Instant, offset': int, gap: nat)
    requires Later(at, saved, offset, restored, offset')
    requires RestoredTime(at, saved, offset, restored, offset', gap).None?
    ensures Elapsed(at, offset, restored, offset') > gap - SECOND
  {
    AgeShift(at, saved, offset, restored, offset', RestoredAge(at, saved, offset, restored, offset'));
  }

  lemma {:induction false} MemoryKept(sts: seq<Track>, xs: seq<Input>, s: Settings, k: nat, bound: Instant)
    requires IsRun(sts, xs, s) && k <= |xs| && SubmittedBy(sts, 0, bound)
    requires forall i :: 0 <= i < |xs| ==> bound <= xs[i].now
    ensures SubmittedBy(sts, k, bound)
    decreases k
  {
    if k > 0 {
      MemoryKept(sts, xs, s, k - 1, bound);
      assert GoesAt(sts, xs, s, k - 1);
      SubmitStep(sts[k - 1], xs[k - 1], s, bound);
    }
  }

  lemma {:induction false} DegradedKept(sts: seq<Track>, xs: seq<Input>, s: Settings, k: nat, bound: Instant)
    requires IsRun(sts, xs, s) && k <= |xs| && DegradedBy(sts, 0, bound)
    requires forall i :: 0 <= i < |xs| ==> bound <= xs[i].now
    ensures DegradedBy(sts, k, bound)
    decreases k
  {
    if k > 0 {
      DegradedKept(sts, xs, s, k - 1, bound);
      assert GoesAt(sts, xs, s, k - 1);
      DegradedStep(sts[k - 1], xs[k - 1], s, bound);
    }
  }

  /** What a restart at `restored` starts from: ticket time `last`, saved and restored. */
  ghost predicate Restarts(xs: seq<Input>, last: Instant, saved: Instant, offset: int, restored: Instant,
                           offset': int) {
    Later(last, saved, offset, restored, offset') && forall i :: 0 <= i < |xs| ==> restored <= xs[i].now
  }

  /** Across a restart of the daemon or a reboot of the host, a submitted opening still comes
      half an hour, less at most a second of wall-clock time, after every ticket filed before
      it. */
  lemma RestartIsSpaced(sts: seq<Track>, xs: seq<Input>, s: Settings, j: nat,
                        filed: Instant, last: Instant, saved: Instant, offset: int, restored: Instant, offset': int)
    requires filed <= last && Restarts(xs, last, saved, offset, restored, offset')
    requires IsRun(sts, xs, s) && j < |xs| && IsOpening(OutcomeAt(sts, xs, s, j))
    requires sts[0].lastSubmit == RestoredTime(last, saved, offset, restored, offset', RETICKET_GAP)
    ensures xs[j].now + offset' > filed + offset + RETICKET_GAP - SECOND
  {
    if sts[0].lastSubmit.None? {
      ForgottenIsOld(last, saved, offset, restored, offset', RETICKET_GAP);
    } else {
      var at := sts[0].lastSubmit.value;
      RestoreShift(last, saved, offset, restored, offset', RETICKET_GAP);
      MemoryKept(sts, xs, s, j, at);
      OpeningNeedsGap(sts[j], xs[j], s, at);
    }
  }

  /** The same for Degraded openings and their configured gap. */
  lemma DegradedRestartIsSpaced(sts: seq<Track>, xs: seq<Input>, s: Settings, j: nat,
                                filed: Instant, last: Instant, saved: Instant, offset: int, restored: Instant, offset': int)
    requires filed <= last && Restarts(xs, last, saved, offset, restored, offset')
    requires IsRun(sts, xs, s) && j < |xs| && IsOpening(OutcomeAt(sts, xs, s, j))
    requires OutcomeAt(sts, xs, s, j).info.class_ == Degraded
    requires sts[0].lastDegraded == RestoredTime(last, saved, offset, restored, offset', s.config.degradedGap)
    ensures xs[j].now + offset' > filed + offset + s.config.degradedGap - SECOND
  {
    if sts[0].lastDegraded.None? {
      ForgottenIsOld(last, saved, offset, restored, offset', s.config.degradedGap);
    } else {
      var at := sts[0].lastDegraded.value;
      RestoreShift(last, saved, offset, restored, offset', s.config.degradedGap);
      DegradedKept(sts, xs, s, j, at);
      OpeningNeedsGap(sts[j], xs[j], s, at);
    }
  }

  // ----- what is saved

  const PREVIOUS_EVENT_MEMORY: nat := 7 * 24 * 3600 * SECOND

  function Label(c: Class): string {
    match c
    case Degraded => "DEGRADED"
    case Flap => "FLAP"
    case Outage => "OUTAGE"
  }

  function ClassFromLabel(l: string): Option<Class> {
    if l == "DEGRADED" then Some(Degraded)
    else if l == "FLAP" then Some(Flap)
    else if l == "OUTAGE" then Some(Outage)
    else None
  }

  lemma LabelRoundTrip(c: Class, l: string)
    ensures ClassFromLabel(Label(c)) == Some(c)
    ensures ClassFromLabel(l) == Some(c) ==> l == Label(c)
  {
    assert "DEGRADED"[0] != "FLAP"[0] && "DEGRADED"[0] != "OUTAGE"[0] && "FLAP"[0] != "OUTAGE"[0];
  }

  datatype SavedPrev = SavedPrev(endedUnix: nat, seconds: nat, peak: real, name: string)

  datatype Saved = Saved(lastSubmit: map<string, nat>, lastDegraded: map<string, nat>, previous: map<string, SavedPrev>)

  function SavePrev(p: Prev, now: Instant, nowUnix: nat): SavedPrev {
    SavedPrev(ToUnix(now, nowUnix, p.endedAt), p.duration / SECOND, p.peak, Label(p.class_))
  }

  function RestorePrev(p: SavedPrev, now: Instant, nowUnix: nat): Option<Prev> {
    var c, at := ClassFromLabel(p.name), Retained(now, nowUnix, p.endedUnix, PREVIOUS_EVENT_MEMORY);
    if c.None? || at.None? then None else Some(Prev(at.value, p.seconds * SECOND, p.peak, c.value))
  }

  /** The previous event is remembered for a week: class and peak survive, its times up to the
      rounding. */
  lemma PrevShift(p: Prev, saved: Instant, offset: int, restored: Instant, offset': int)
    requires Later(p.endedAt, saved, offset, restored, offset')
    ensures var r := RestorePrev(SavePrev(p, saved, Wall(saved, offset)), restored, Wall(restored, offset'));
            && (r.Some? <==> RestoredAge(p.endedAt, saved, offset, restored, offset') < 604_800_000_000_000)
            && (r.Some? ==>
              && r.value.class_ == p.class_ && r.value.peak == p.peak
              && p.endedAt + offset - SECOND < r.value.endedAt + offset' < p.endedAt + offset + 2 * SECOND
              && p.duration - SECOND < r.value.duration <= p.duration)
  {
    LabelRoundTrip(p.class_, "");
    RestoreShift(p.endedAt, saved, offset, restored, offset', PREVIOUS_EVENT_MEMORY);
    FloorRange(p.duration);
  }

  function TrackOf(links: map<string, Track>, name: string): Track {
    if name in links then links[name] else NEW_TRACK
  }

  function SaveTimes(links: map<string, Track>, now: Instant, nowUnix: nat): Saved {
    Saved(map k | k in links && links[k].lastSubmit.Some? :: ToUnix(now, nowUnix, links[k].lastSubmit.value),
          map k | k in links && links[k].lastDegraded.Some? :: ToUnix(now, nowUnix, links[k].lastDegraded.value),
          map k | k in links && links[k].prev.Some? :: SavePrev(links[k].prev.value, now, nowUnix))
  }

  /** What restoring makes of one link. */
  ghost function RestoredTrack(t: Track, name: string, p: Saved, now: Instant, nowUnix: nat, s: Settings): Track {
    var submit := if name in p.lastSubmit then Retained(now, nowUnix, p.lastSubmit[name], RETICKET_GAP) else None;
    var degraded := if name in p.lastDegraded
        then Retained(now, nowUnix, p.lastDegraded[name], s.config.degradedGap) else None;
    var prev := if name in p.previous then RestorePrev(p.previous[name], now, nowUnix) else None;
    t.(lastSubmit := if submit.Some? then submit else t.lastSubmit,
       lastDegraded := if degraded.Some? then degraded else t.lastDegraded,
       prev := if prev.Some? then prev else t.prev)
  }

  /** A restarted tracker knows a link's last ticket exactly as `RestartIsSpaced` assumes. */
  lemma RestartedTrack(links: map<string, Track>, name: string, saved: Instant, savedUnix: nat, now: Instant,
                       nowUnix: nat, s: Settings)
    requires name in links && links[name].lastSubmit.Some?
    ensures RestoredTrack(NEW_TRACK, name, SaveTimes(links, saved, savedUnix), now, nowUnix, s).lastSubmit
            == Retained(now, nowUnix, ToUnix(saved, savedUnix, links[name].lastSubmit.value), RETICKET_GAP)
    ensures links[name].lastDegraded.Some? ==>
              RestoredTrack(NEW_TRACK, name, SaveTimes(links, saved, savedUnix), now, nowUnix, s).lastDegraded
              == Retained(now, nowUnix, ToUnix(saved, savedUnix, links[name].lastDegraded.value), s.config.degradedGap)
  {
  }

  // ----- the tracker in place

  class EventTracker {
    const settings: Settings
    var links: map<string, Track>
    var dirty: bool

    constructor (settings: Settings)
      ensures this.settings == settings && links == map[] && !dirty
    {
      this.settings, links, dirty := settings, map[], false;
    }

    /** Another link's event opened less than `join` ago. */
    predicate Joins(link: string, now: Instant)
      reads this
    {
      exists name :: name in links && name != link && links[name].event.Some?
        && Since(now, links[name].event.value.openedAt) < settings.config.join
    }

    method Observe(now: Instant, nowUnix: nat, link: string, obs: Observation) returns (o: Outcome)
      modifies this
      ensures var r := Tickets.Observe(TrackOf(old(links), link), Input(now, Id(link, nowUnix), obs, old(Joins(link, now))), settings);
              o == r.outcome && links == old(links)[link := r.track] && dirty == (old(dirty) || r.dirty)
    {
      var x := Input(now, Id(link, nowUnix), obs, Joins(link, now));
      var r := ObserveTrack(TrackOf(links, link), x, settings);
      links := links[link := r.track];
      dirty := dirty || r.dirty;
      o := r.outcome;
    }

    method TakeDirtyState(now: Instant, nowUnix: nat) returns (p: Option<Saved>)
      modifies this`dirty
      ensures !dirty && p == if old(dirty) then Some(SaveTimes(links, now, nowUnix)) else None
    {
      if !dirty {
        return None;
      }
      dirty := false;
      p := Some(SaveTimes(links, now, nowUnix));
    }

    method Restore(now: Instant, nowUnix: nat, p: Saved)
      modifies this`links
      ensures forall name :: TrackOf(links, name) == RestoredTrack(TrackOf(old(links), name), name, p, now, nowUnix, settings)
    {
      RestoreSubmits(now, nowUnix, p.lastSubmit);
      RestoreDegraded(now, nowUnix, p.lastDegraded);
      RestorePrevious(now, nowUnix, p.previous);
    }

    method RestoreSubmits(now: Instant, nowUnix: nat, saved: map<string, nat>)
      modifies this`links
      ensures forall name :: TrackOf(links, name) == WithSubmit(TrackOf(old(links), name), name, saved, now, nowUnix)
    {
      var todo := saved.Keys;
      while todo != {}
        invariant todo <= saved.Keys
        invariant forall name ::
          TrackOf(links, name) == if name in todo then TrackOf(old(links), name)
                                  else WithSubmit(TrackOf(old(links), name), name, saved, now, nowUnix)
      {
        var name :| name in todo;
        var at := Retained(now, nowUnix, saved[name], RETICKET_GAP);
        if at.Some? {
          links := links[name := TrackOf(links, name).(lastSubmit := at)];
        }
        todo := todo - {name};
      }
    }

    method RestoreDegraded(now: Instant, nowUnix: nat, saved: map<string, nat>)
      modifies this`links
      ensures forall name :: TrackOf(links, name) == WithDegraded(TrackOf(old(links), name), name, saved, now, nowUnix, settings)
    {
      var todo := saved.Keys;
      while todo != {}
        invariant todo <= saved.Keys
        invariant forall name ::
          TrackOf(links, name) == if name in todo then TrackOf(old(links), name)
                                  else WithDegraded(TrackOf(old(links), name), name, saved, now, nowUnix, settings)
      {
        var name :| name in todo;
        var at := Retained(now, nowUnix, saved[name], settings.config.degradedGap);
        if at.Some? {
          links := links[name := TrackOf(links, name).(lastDegraded := at)];
        }
        todo := todo - {name};
      }
    }

    method RestorePrevious(now: Instant, nowUnix: nat, saved: map<string, SavedPrev>)
      modifies this`links
      ensures forall name :: TrackOf(links, name) == WithPrev(TrackOf(old(links), name), name, saved, now, nowUnix)
    {
      var todo := saved.Keys;
      while todo != {}
        invariant todo <= saved.Keys
        invariant forall name ::
          TrackOf(links, name) == if name in todo then TrackOf(old(links), name)
                                  else WithPrev(TrackOf(old(links), name), name, saved, now, nowUnix)
      {
        var name :| name in todo;
        var prev := RestorePrev(saved[name], now, nowUnix);
        if prev.Some? {
          links := links[name := TrackOf(links, name).(prev := prev)];
        }
        todo := todo - {name};
      }
    }
  }

  ghost function WithSubmit(t: Track, name: string, saved: map<string, nat>, now: Instant, nowUnix: nat): Track {
    var at := if name in saved then Retained(now, nowUnix, saved[name], RETICKET_GAP) else None;
    if at.Some? then t.(lastSubmit := at) else t
  }

  ghost function WithDegraded(t: Track, name: string, saved: map<string, nat>, now: Instant, nowUnix: nat,
                              s: Settings): Track {
    var at := if name in saved then Retained(now, nowUnix, saved[name], s.config.degradedGap) else None;
    if at.Some? then t.(lastDegraded := at) else t
  }

  ghost function WithPrev(t: Track, name: string, saved: map<string, SavedPrev>, now: Instant, nowUnix: nat): Track {
    var prev := if name in saved then RestorePrev(saved[name], now, nowUnix) else None;
    if prev.Some? then t.(prev := prev) else t
  }

  /** One evaluation, step by step. */
  method ObserveTrack(before: Track, x: Input, s: Settings) returns (r: Result)
    ensures r == Tickets.Observe(before, x, s)
  {
    var st := before;
    if IsHot(x.obs, s.trigger) {
      if st.hotSince.None? {
        st := st.(hotSince := Some(x.now));
      }
    } else {
      st := st.(hotSince := None);
    }
    var active := Active(st, x, s);
    if st.event.Some? {
      var ev := st.event.value.(peak := Larger(st.event.value.peak, Pct(x, s)));
      if IsCalm(x.obs, s.trigger) {
        if ev.calmSince.None? {
          ev := ev.(calmSince := Some(x.now));
        }
        if Since(x.now, ev.calmSince.value) >= s.trigger.clear {
          var duration := Since(x.now, ev.openedAt);
          st := st.(event := None, prev := Some(Prev(x.now, duration, ev.peak, ev.class_)));
          return Result(st, Ended(ev.id, ev.class_, duration, ev.peak), true);
        }
        return Result(st.(event := Some(ev)), Quiet, false);
      }
      ev := ev.(calmSince := None);
      if active.Some? && Rank(active.value) > Rank(ev.class_) {
        ev := ev.(class_ := active.value, lastDump := x.now);
        st := st.(event := Some(ev), lastSubmit := Some(x.now));
        return Result(st, Dump(true, Escalated, InfoOf(st, ev, x.now)), true);
      }
      if Since(x.now, ev.lastDump) >= s.config.dumpCooldown {
        ev := ev.(lastDump := x.now);
        return Result(st.(event := Some(ev)), Dump(false, Ongoing, InfoOf(st, ev, x.now)), false);
      }
      return Result(st.(event := Some(ev)), Quiet, false);
    }
    if active.None? {
      return Result(st, Quiet, false);
    }
    r := OpenEvent(st, active.value, x, s);
  }

  method OpenEvent(before: Track, class_: Class, x: Input, s: Settings) returns (r: Result)
    ensures r == Opens(before, class_, x, s)
  {
    var st := before;
    var limited := class_ == Degraded && Within(st.lastDegraded, x.now, s.config.degradedGap);
    var submit := !x.joins && !Within(st.lastSubmit, x.now, RETICKET_GAP) && !limited;
    if !submit && !x.joins && class_ == Degraded {
      st := st.(suppressed := st.suppressed + 1);
    }
    var reported := st.suppressed;
    var filed := submit || x.joins;
    if filed {
      st := st.(lastSubmit := Some(x.now));
      if class_ == Degraded {
        st := st.(lastDegraded := Some(x.now), suppressed := 0);
      }
    }
    var ev := Event(x.id, class_, x.now, Pct(x, s), None, x.now);
    r := Result(st.(event := Some(ev)), Dump(submit, Opened, InfoOf(st, ev, x.now).(suppressed := reported)), filed);
  }
}
