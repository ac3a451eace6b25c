/** Where the receiver's protection against duplicates ends: a direct copy is told from a new
    frame for exactly as long as fewer than two rotations of the seen generations, timed or
    forced by their size, lie since the frame was marked. */
module FecLimits {
  import opened Bytes
  import opened FecGroup
  import opened FecReceiver
  import opened FecSafety
  import opened FecParking
  import opened FecRuns
  import opened FecTracking
  import opened FecOnce

  // ----- counting rotations

  /** Whether marking `s` fills the generation. */
  ghost function MarkRotations(rx: Rx, s: nat): nat {
    if |rx.current + {s}| > 131_072 then 1 else 0
  }

  ghost function AdmitRotations(rx: Rx, items: seq<Frame>, now: nat): nat {
    if items == [] then 0
    else
      var n := |items| - 1;
      AdmitRotations(rx, items[..n], now) + MarkRotations(AdmitAll(rx, items[..n], now), items[n].0)
  }

  /** The rotations an event brings about, from the state once its number is noted: the marks
      of the frame it delivers and of the frames it recovers, or the clock. */
  ghost function StepRotations(rx: Rx, e: Event): nat {
    var base, next := Base(rx, e), Step(rx, e);
    match e
    case Data(s, body, now, _) =>
      if next.delivered.None? then 0
      else MarkRotations(base, s) + AdmitRotations(Admit(base, (s, body), now), next.recovered, now)
    case ParityShare(_, _, now, _) => AdmitRotations(base, next.recovered, now)
    case Maintenance(now) => if now >= rx.rotatedAt + rx.seenGeneration then 1 else 0
  }

  ghost function Rotations(rx: Rx, es: seq<Event>): nat {
    if es == [] then 0
    else Rotations(rx, es[..|es| - 1]) + StepRotations(RunTo(rx, es[..|es| - 1]), es[|es| - 1])
  }

  // ----- what a rotation does to a mark

  /** `r` rotations have passed since `s` was marked, at or after `since`. */
  ghost predicate Aged(rx: Rx, s: nat, r: nat, since: nat) {
    && (s in rx.current <==> r == 0)
    && (s in rx.previous <==> r == 1)
    && (r >= 1 ==> rx.rotatedAt >= since)
  }

  lemma MarkAges(rx: Rx, t: nat, now: nat, s: nat, r: nat, since: nat)
    requires Aged(rx, s, r, since) && t != s && since <= now
    ensures Aged(MarkSeen(rx, t, now), s, r + MarkRotations(rx, t), since)
  {
  }

  /** The generations agree. */
  ghost predicate SameSeen(rx: Rx, rx': Rx) {
    rx'.current == rx.current && rx'.previous == rx.previous && rx'.rotatedAt == rx.rotatedAt
  }

  lemma InsertSeen(rx: Rx, f: Frame, now: nat)
    ensures SameSeen(rx, InsertPayload(rx, f.0, f.1, now))
  {
  }

  lemma AdmitAges(rx: Rx, f: Frame, now: nat, s: nat, r: nat, since: nat)
    requires Aged(rx, s, r, since) && f.0 != s && since <= now
    ensures Aged(Admit(rx, f, now), s, r + MarkRotations(rx, f.0), since)
  {
    MarkAges(rx, f.0, now, s, r, since);
    InsertSeen(MarkSeen(rx, f.0, now), f, now);
  }

  lemma {:induction false} AdmitAllAges(rx: Rx, items: seq<Frame>, now: nat, s: nat, r: nat, since: nat)
    requires Aged(rx, s, r, since) && (forall f :: f in items ==> f.0 != s) && since <= now
    ensures Aged(AdmitAll(rx, items, now), s, r + AdmitRotations(rx, items, now), since)
  {
    if items != [] {
      var n := |items| - 1;
      AdmitAllAges(rx, items[..n], now, s, r, since);
      AdmitAges(AdmitAll(rx, items[..n], now), items[n], now, s, r + AdmitRotations(rx, items[..n], now), since);
    }
  }

  /** The frame just marked. */
  lemma MarkedIsNew(rx: Rx, f: Frame, now: nat)
    requires !Seen(rx, f.0)
    ensures Aged(Admit(rx, f, now), f.0, MarkRotations(rx, f.0), now)
  {
    InsertSeen(MarkSeen(rx, f.0, now), f, now);
  }

  // ----- events

  /** The event marks `s`: it delivers or recovers it. */
  ghost predicate Marks(rx: Rx, e: Event, s: nat) {
    Step(rx, e).delivered == Some(s) || exists i :: 0 <= i < |Step(rx, e).recovered| && Step(rx, e).recovered[i].0 == s
  }

  lemma DataAges(rx: Rx, base: Rx, f: Frame, now: nat, oldest: nat, s: nat, r: nat, since: nat)
    requires base == NoteSeq(rx, f.0) && Aged(base, s, r, since) && since <= now && !Seen(base, f.0) && f.0 != s
    requires forall g :: g in ObserveData(rx, f.0, f.1, now, oldest).late ==> g.0 != s
    ensures var o := ObserveData(rx, f.0, f.1, now, oldest);
            Aged(o.rx, s, r + MarkRotations(base, f.0) + AdmitRotations(Admit(base, f, now), o.late, now), since)
  {
    DataTracking(rx, base, f, now, oldest);
    AdmitAges(base, f, now, s, r, since);
    AdmitAllAges(Admit(base, f, now), ObserveData(rx, f.0, f.1, now, oldest).late, now, s, r + MarkRotations(base, f.0), since);
  }

  lemma NotMarked(rx: Rx, e: Event, s: nat)
    requires !Marks(rx, e, s)
    ensures forall g :: g in Step(rx, e).recovered ==> g.0 != s
    ensures e.Data? && !Seen(Base(rx, e), e.seqno) ==> e.seqno != s
  {
  }

  lemma ShareAges(rx: Rx, base: Rx, k: Kind, par: Parity, now: nat, oldest: nat, s: nat, r: nat, since: nat)
    requires base == NoteSeq(rx, Highest(par.seqs)) && Aged(base, s, r, since) && since <= now
    requires forall g :: g in Step(rx, ParityShare(k, par, now, oldest)).recovered ==> g.0 != s
    ensures var next := Step(rx, ParityShare(k, par, now, oldest));
            Aged(next.rx, s, r + AdmitRotations(base, next.recovered, now), since)
  {
    ShareTracking(rx, base, k, par, now, oldest);
    AdmitAllAges(base, Step(rx, ParityShare(k, par, now, oldest)).recovered, now, s, r, since);
  }

  lemma TickAges(rx: Rx, now: nat, s: nat, r: nat, since: nat)
    requires Aged(rx, s, r, since) && since <= now
    ensures Aged(Tick(rx, now).0, s, r + StepRotations(rx, Maintenance(now)), since)
  {
    ExpireSameParked(rx, now);
  }

  /** Every rotation ages a mark by one, whatever caused it. */
  lemma StepAges(rx: Rx, e: Event, s: nat, r: nat, since: nat)
    requires Aged(rx, s, r, since) && since <= e.now && !Restarts(rx, e) && !Marks(rx, e, s)
    ensures Aged(Step(rx, e).rx, s, r + StepRotations(rx, e), since)
  {
    var base := Base(rx, e);
    NotMarked(rx, e, s);
    assert Aged(base, s, r, since);
    match e
    case Data(t, body, now, oldest) =>
      if !Seen(base, t) {
        DataAges(rx, base, (t, body), now, oldest, s, r, since);
      }
    case ParityShare(k, par, now, oldest) =>
      if WellFormed(par) {
        ShareAges(rx, base, k, par, now, oldest, s, r, since);
      }
    case Maintenance(now) => TickAges(rx, now, s, r, since);
  }

  /** A restart-free run that does not mark `s` again. */
  ghost predicate Leaves(rx: Rx, es: seq<Event>, s: nat, since: nat) {
    es == [] ||
    var n := |es| - 1;
    var before := RunTo(rx, es[..n]);
    Leaves(rx, es[..n], s, since) && since <= es[n].now && !Restarts(before, es[n]) && !Marks(before, es[n], s)
  }

  lemma {:induction false} RunAges(rx: Rx, es: seq<Event>, s: nat, r: nat, since: nat)
    requires Aged(rx, s, r, since) && Leaves(rx, es, s, since)
    ensures Aged(RunTo(rx, es), s, r + Rotations(rx, es), since)
  {
    if es != [] {
      var n := |es| - 1;
      RunAges(rx, es[..n], s, r, since);
      StepAges(RunTo(rx, es[..n]), es[n], s, r + Rotations(rx, es[..n]), since);
    }
  }

  /** A frame that is delivered is marked, and ages from that mark on. */
  lemma DeliveredAges(rx: Rx, s: nat, body: bytes, now: nat, oldest: nat)
    requires ObserveData(rx, s, body, now, oldest).deliver
    requires forall g :: g in ObserveData(rx, s, body, now, oldest).late ==> g.0 != s
    ensures Aged(ObserveData(rx, s, body, now, oldest).rx, s, StepRotations(rx, Data(s, body, now, oldest)), now)
  {
    var base, late := NoteSeq(rx, s), ObserveData(rx, s, body, now, oldest).late;
    DataTracking(rx, base, (s, body), now, oldest);
    MarkedIsNew(base, (s, body), now);
    AdmitAllAges(Admit(base, (s, body), now), late, now, s, MarkRotations(base, s), now);
  }

  lemma AgedCopy(rx: Rx, s: nat, r: nat, since: nat, copy: bytes, now: nat, oldest: nat)
    requires Aged(rx, s, r, since) && !Resets(rx, s)
    ensures ObserveData(rx, s, copy, now, oldest).deliver <==> r >= 2
  {
  }

  lemma AgedRun(rx: Rx, first: Event, rx1: Rx, es: seq<Event>, rx2: Rx, copy: bytes, now: nat, oldest: nat)
    requires first.Data? && Step(rx, first).delivered == Some(first.seqno)
    requires forall g :: g in Step(rx, first).recovered ==> g.0 != first.seqno
    requires rx1 == Step(rx, first).rx && rx2 == RunTo(rx1, es)
    requires Leaves(rx1, es, first.seqno, first.now) && !Resets(rx2, first.seqno)
    ensures ObserveData(rx2, first.seqno, copy, now, oldest).deliver
            <==> StepRotations(rx, first) + Rotations(rx1, es) >= 2
  {
    var s := first.seqno;
    DeliveredAges(rx, s, first.body, first.now, first.oldest);
    RunAges(rx1, es, s, StepRotations(rx, first), first.now);
    AgedCopy(rx2, s, StepRotations(rx, first) + Rotations(rx1, es), first.now, copy, now, oldest);
  }

  // ----- reachable states

  /** A frame that is still seen is neither delivered nor recovered. */
  lemma SeenNotMarked(rx: Rx, e: Event, clock: nat, s: nat)
    requires OnceInv(rx, clock) && Regular(rx, e, clock) && !Restarts(rx, e) && Seen(rx, s)
    ensures !Marks(rx, e, s)
  {
    StepOnce(rx, e, clock);
    assert Seen(Base(rx, e), s);
    NotRecovered(Base(rx, e), Step(rx, e).rx, Step(rx, e).recovered, e.now, s);
  }

  lemma NotRecovered(base: Rx, rx': Rx, recovered: seq<Frame>, now: nat, s: nat)
    requires OnceOk(base, rx', recovered, now) && Seen(base, s)
    ensures forall i :: 0 <= i < |recovered| ==> recovered[i].0 != s
  {
  }

  /** So a run marks `s` again only once two rotations have passed. */
  lemma {:induction false} RunLeaves(rx: Rx, es: seq<Event>, clock: nat, s: nat, r: nat, since: nat)
    requires OnceInv(rx, clock) && RegularRun(rx, es, clock) && RestartFree(rx, es)
    requires Aged(rx, s, r, since) && since <= clock && r + Rotations(rx, es) < 2
    ensures Leaves(rx, es, s, since) && since <= ClockOf(es, clock)
  {
    if es != [] {
      var n := |es| - 1;
      RunLeaves(rx, es[..n], clock, s, r, since);
      RunAges(rx, es[..n], s, r, since);
      RunKeeps(rx, es[..n], clock);
      SeenNotMarked(RunTo(rx, es[..n]), es[n], ClockOf(es[..n], clock), s);
    }
  }

  /** In every reachable state: a copy of a delivered frame is rejected while fewer than two
      rotations, timed or by size, lie since the frame was marked; and with two or more, unless
      the run marked it again, it is delivered. */
  lemma CopyDeliveredIff(rx: Rx, clock: nat, first: Event, rx1: Rx, es: seq<Event>, rx2: Rx, copy: bytes, now: nat,
                         oldest: nat)
    requires OnceInv(rx, clock) && Regular(rx, first, clock)
    requires first.Data? && Step(rx, first).delivered == Some(first.seqno)
    requires rx1 == Step(rx, first).rx && RegularRun(rx1, es, first.now) && RestartFree(rx1, es)
    requires rx2 == RunTo(rx1, es) && !Resets(rx2, first.seqno)
    ensures var r := StepRotations(rx, first) + Rotations(rx1, es);
            var delivered := ObserveData(rx2, first.seqno, copy, now, oldest).deliver;
            && (r < 2 ==> !delivered)
            && (r >= 2 && Leaves(rx1, es, first.seqno, first.now) ==> delivered)
  {
    StepOnce(rx, first, clock);
    if StepRotations(rx, first) + Rotations(rx1, es) < 2 {
      DeliveredAges(rx, first.seqno, first.body, first.now, first.oldest);
      RunLeaves(rx1, es, first.now, first.seqno, StepRotations(rx, first), first.now);
    }
    if Leaves(rx1, es, first.seqno, first.now) {
      AgedRun(rx, first, rx1, es, rx2, copy, now, oldest);
    }
  }

  // ----- what the clock makes of it

  /** No generation fills up, and less than one generation has passed since `since`. */
  ghost predicate Calm(rx: Rx, es: seq<Event>, since: nat) {
    es == [] ||
    var n := |es| - 1;
    var before := RunTo(rx, es[..n]);
    && Calm(rx, es[..n], since)
    && es[n].now < since + before.seenGeneration
    && (es[n].Maintenance? || StepRotations(before, es[n]) == 0)
  }

  lemma {:induction false} CalmRotations(rx: Rx, es: seq<Event>, clock: nat, s: nat, r: nat, since: nat)
    requires OnceInv(rx, clock) && RegularRun(rx, es, clock) && RestartFree(rx, es) && Calm(rx, es, since)
    requires Aged(rx, s, r, since) && since <= clock && r <= 1
    ensures r + Rotations(rx, es) <= 1
  {
    if es != [] {
      var n := |es| - 1;
      CalmRotations(rx, es[..n], clock, s, r, since);
      RunLeaves(rx, es[..n], clock, s, r, since);
      RunAges(rx, es[..n], s, r, since);
    }
  }

  /** A second copy less than one generation after the first, with no generation filled up
      between, is never delivered. */
  lemma SecondCopyRejected(rx: Rx, clock: nat, first: Event, rx1: Rx, es: seq<Event>, rx2: Rx, copy: bytes,
                           now: nat, oldest: nat)
    requires OnceInv(rx, clock) && Regular(rx, first, clock) && StepRotations(rx, first) <= 1
    requires first.Data? && Step(rx, first).delivered == Some(first.seqno)
    requires rx1 == Step(rx, first).rx && RegularRun(rx1, es, first.now) && RestartFree(rx1, es)
    requires rx2 == RunTo(rx1, es) && !Resets(rx2, first.seqno) && Calm(rx1, es, first.now)
    ensures !ObserveData(rx2, first.seqno, copy, now, oldest).deliver
  {
    StepOnce(rx, first, clock);
    DeliveredAges(rx, first.seqno, first.body, first.now, first.oldest);
    CalmRotations(rx1, es, first.now, first.seqno, StepRotations(rx, first), first.now);
    CopyDeliveredIff(rx, clock, first, rx1, es, rx2, copy, now, oldest);
  }

  lemma DueTick(rx: Rx, now: nat)
    requires now >= rx.rotatedAt + rx.seenGeneration
    ensures var rx' := Tick(rx, now).0;
            && rx'.current == {} && rx'.previous == rx.current
            && rx'.rotatedAt == now && rx'.seenGeneration == rx.seenGeneration
  {
    ExpireSameParked(rx, now);
  }

  /** Two quiet generations forget every frame: any copy that arrives then is delivered,
      whether or not it was delivered before. */
  lemma ForgottenCopyDelivered(rx: Rx, first: nat, second: nat, s: nat, body: bytes, oldest: nat)
    requires first >= rx.rotatedAt + rx.seenGeneration && second >= first + rx.seenGeneration
    ensures var rx' := Tick(Tick(rx, first).0, second).0;
            ObserveData(rx', s, body, second, oldest).deliver
  {
    DueTick(rx, first);
    DueTick(Tick(rx, first).0, second);
  }
}
