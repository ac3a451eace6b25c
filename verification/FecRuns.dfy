/** Whole runs of the receiver. */
module FecRuns {
  import opened Bytes
  import opened FecGroup
  import opened FecReceiver
  import opened FecSafety
  import opened FecParking

  /** What happens to the receiver. `oldest` settles which of several equally old parked
      groups is evicted. */
  datatype Event =
    | Data(seqno: nat, body: bytes, now: nat, oldest: nat)
    | ParityShare(kind: Kind, parity: WireParity, now: nat, oldest: nat)
    | Maintenance(now: nat)

  datatype Next = Next(rx: Rx, delivered: Option<nat>, recovered: seq<Frame>)

  ghost function Step(rx: Rx, e: Event): Next {
    match e
    case Data(s, body, now, oldest) =>
      var o := ObserveData(rx, s, body, now, oldest);
      Next(o.rx, if o.deliver then Some(s) else None, o.late)
    case ParityShare(k, parity, now, oldest) =>
      var (rx', out) := TryRecover(rx, k, parity, now, oldest);
      Next(rx', None, if out.OutRecovered? then out.items else [])
    case Maintenance(now) =>
      Next(Tick(rx, now).0, None, [])
  }

  ghost predicate WellFormed(parity: WireParity) {
    |parity.seqs| == |parity.lens| && parity.seqs != []
  }

  /** The highest sequence number the event carries. */
  ghost function Noted(e: Event): Option<nat> {
    match e
    case Data(s, _, _, _) => Some(s)
    case ParityShare(_, parity, _, _) => if WellFormed(parity) then Some(Highest(parity.seqs)) else None
    case Maintenance(_) => None
  }

  /** The event is read as a restart of the peer. */
  ghost predicate Restarts(rx: Rx, e: Event) {
    Noted(e).Some? && Resets(rx, Noted(e).value)
  }

  ghost function Base(rx: Rx, e: Event): Rx {
    if Noted(e).Some? then NoteSeq(rx, Noted(e).value) else rx
  }

  /** The clock does not go back, a group's members are distinct, an eviction picks an oldest
      group, and a restart finds nothing parked. */
  ghost predicate Admissible(rx: Rx, e: Event, clock: nat) {
    && clock <= e.now
    && (Restarts(rx, e) ==> rx.parked == map[])
    && (e.ParityShare? && WellFormed(e.parity) ==>
          Distinct(e.parity.seqs) && ValidOldest(DropParked(rx, e.parity.seqs[0]), e.oldest))
  }

  lemma StepAfter(base: Rx, mid: Rx, rx': Rx, recovered: seq<Frame>, now: nat)
    requires Keeps(base, mid) && StepOk(mid, rx', recovered, now)
    ensures StepOk(base, rx', recovered, now)
  {
  }

  lemma AdmitKeeps(base: Rx, rx2: Rx, f: Frame, clock: nat, now: nat)
    requires RxInv(base, clock) && clock <= now && !Seen(base, f.0) && f.0 <= base.highest
    requires rx2 == Admit(base, f, now)
    ensures RxInv(rx2, now) && Keeps(base, rx2) && Accounted(rx2, f.0)
  {
    AdmitInv(base, f, clock, now);
    assert [f][0].0 == f.0;
    GroupsKept(base, rx2);
  }

  lemma ObserveOk(rx: Rx, s: nat, body: bytes, clock: nat, now: nat, oldest: nat)
    requires RxInv(rx, clock) && clock <= now && (Resets(rx, s) ==> rx.parked == map[])
    ensures var o := ObserveData(rx, s, body, now, oldest);
            && StepOk(NoteSeq(rx, s), o.rx, o.late, now)
            && (o.deliver ==> Accounted(o.rx, s) && forall i :: 0 <= i < |o.late| ==> o.late[i].0 != s)
  {
    var base := NoteSeq(rx, s);
    NoteInv(rx, s, clock);
    if Seen(base, s) {
      LaterClock(base, clock, now);
    } else {
      var rx2 := Admit(base, (s, body), now);
      AdmitKeeps(base, rx2, (s, body), clock, now);
      RecheckOk(rx2, s, now, now, oldest);
      var (rx3, late) := Recheck(rx2, s, now, oldest);
      StepAfter(base, rx2, rx3, late, now);
      if |rx2.parked| == 0 {
        NoParkedNoIndex(rx2);
      }
    }
  }

  lemma AnyOfWith(held: Shares, k: Kind, parity: Parity)
    ensures held.With(k, parity).Any().Some?
    ensures held.With(k, parity).Any().value == parity || (held.Any().Some? && held.With(k, parity).Any() == held.Any())
  {
  }

  lemma MergedShares(rx: Rx, dropped: Rx, key: nat, k: Kind, parity: Parity)
    requires ParkedInv(rx) && dropped.highest == rx.highest && Distinct(parity.seqs)
    requires forall i :: 0 <= i < |parity.seqs| ==> parity.seqs[i] <= rx.highest
    ensures SharesInv(dropped, HeldShares(rx, key).With(k, parity))
  {
    AnyOfWith(HeldShares(rx, key), k, parity);
  }

  lemma SettleOk(base: Rx, rx: Rx, key: nat, shares: Shares, clock: nat, now: nat, oldest: nat)
    requires RxInv(rx, clock) && clock <= now && SharesInv(rx, shares) && Keeps(base, rx)
    requires key !in rx.parked && ValidOldest(rx, oldest)
    ensures var (rx', out) := Settle(rx, key, shares, now, oldest);
            StepOk(base, rx', if out.OutRecovered? then out.items else [], now)
  {
    if Judge(rx, shares).NeedMore? {
      ParkOk(base, rx, Settle(rx, key, shares, now, oldest).0, key, shares, Judge(rx, shares).missing, clock, now, oldest);
    } else {
      EvaluateOk(base, rx, shares, clock, now);
    }
  }

  lemma ParkOk(base: Rx, rx: Rx, rx': Rx, key: nat, shares: Shares, missing: seq<nat>, clock: nat, now: nat,
               oldest: nat)
    requires RxInv(rx, clock) && clock <= now && SharesInv(rx, shares) && Keeps(base, rx)
    requires key !in rx.parked && ValidOldest(rx, oldest) && Judge(rx, shares) == NeedMore(missing)
    requires rx' == Park(rx, key, shares, missing, now, oldest)
    ensures StepOk(base, rx', [], now)
  {
    LaterClock(rx, clock, now);
    ParkInv(rx, rx', key, shares, missing, clock, now, oldest);
    SameTrack(rx, rx', now);
  }

  lemma TryRecoverOk(rx: Rx, k: Kind, parity: WireParity, clock: nat, now: nat, oldest: nat)
    requires WellFormed(parity) && Distinct(parity.seqs)
    requires RxInv(rx, clock) && clock <= now && (Resets(rx, Highest(parity.seqs)) ==> rx.parked == map[])
    requires ValidOldest(DropParked(rx, parity.seqs[0]), oldest)
    ensures var (rx', out) := TryRecover(rx, k, parity, now, oldest);
            StepOk(NoteSeq(rx, Highest(parity.seqs)), rx', if out.OutRecovered? then out.items else [], now)
  {
    var base, key := NoteSeq(rx, Highest(parity.seqs)), parity.seqs[0];
    NoteInv(rx, Highest(parity.seqs), clock);
    TakeOff(base, base, key, clock);
    MergedShares(base, DropParked(base, key), key, k, parity);
    SettleOk(base, DropParked(base, key), key, HeldShares(base, key).With(k, parity), clock, now, oldest);
  }

  lemma {:induction false} ExpireSameParked(rx: Rx, now: nat)
    ensures var rx' := ExpirePayloads(rx, now);
            && rx' == rx.(order := rx'.order, payloads := rx'.payloads)
    decreases |rx.order|
  {
    if rx.order != [] && Expired(rx, rx.order[0], now) {
      ExpireSameParked(rx.(order := rx.order[1..], payloads := rx.payloads - {rx.order[0]}), now);
    }
  }

  lemma TickFields(rx: Rx, now: nat)
    ensures var rx2 := ExpireParked(ExpirePayloads(rx, now), now);
            var rx' := Tick(rx, now).0;
            && rx'.parked == rx2.parked && rx'.parkedBySeq == rx2.parkedBySeq && rx'.highest == rx2.highest == rx.highest
            && rx2.current == rx.current && rx2.previous == rx.previous && rx2.floor == rx.floor
  {
    ExpireSameParked(rx, now);
  }

  lemma ExpiredParked(rx: Rx, rx2: Rx, now: nat)
    requires ParkedInv(rx) && rx2 == ExpireParked(ExpirePayloads(rx, now), now)
    ensures ParkedInv(rx2)
  {
    ExpireSameParked(rx, now);
    GroupsKept(rx, ExpirePayloads(rx, now));
    ExpireParkedInv(ExpirePayloads(rx, now), now);
  }

  lemma TickParked(rx: Rx, rx2: Rx, rx': Rx, now: nat)
    requires ParkedInv(rx) && Keeps(rx, rx')
    requires rx2 == ExpireParked(ExpirePayloads(rx, now), now) && rx' == Tick(rx, now).0
    ensures ParkedInv(rx')
  {
    TickFields(rx, now);
    ExpiredParked(rx, rx2, now);
    SameAccounting(rx, rx2, rx');
    GroupsKept(rx2, rx');
  }

  lemma SameAccounting(rx: Rx, rx2: Rx, rx': Rx)
    requires Keeps(rx, rx') && rx2.current == rx.current && rx2.previous == rx.previous
    requires rx2.floor == rx.floor && rx2.highest == rx.highest
    ensures Keeps(rx2, rx')
  {
    assert forall s: nat :: Accounted(rx2, s) ==> Accounted(rx, s);
  }

  lemma TickOk(rx: Rx, clock: nat, now: nat)
    requires RxInv(rx, clock) && clock <= now
    ensures StepOk(rx, Tick(rx, now).0, [], now)
  {
    TickCache(rx, clock, now);
    TickSeen(rx, clock, now);
    TickParked(rx, ExpireParked(ExpirePayloads(rx, now), now), Tick(rx, now).0, now);
  }

  lemma ShareIsSettled(rx: Rx, base: Rx, k: Kind, par: Parity, now: nat, oldest: nat)
    requires base == NoteSeq(rx, Highest(par.seqs))
    ensures var key := par.seqs[0];
            TryRecover(rx, k, par, now, oldest)
            == Settle(DropParked(base, key), key, HeldShares(base, key).With(k, par), now, oldest)
  {
  }

  /** What arrives is settled from the state once its number is noted. */
  lemma DataIsAdmitted(rx: Rx, base: Rx, s: nat, body: bytes, now: nat, oldest: nat)
    requires base == NoteSeq(rx, s) && !Seen(base, s)
    ensures var rx2 := Admit(base, (s, body), now);
            var o := ObserveData(rx, s, body, now, oldest);
            && SameParked(base, rx2) && o.deliver
            && (o.rx, o.late) == if |rx2.parked| == 0 then (rx2, []) else Recheck(rx2, s, now, oldest)
  {
    InsertSame(MarkSeen(base, s, now), (s, body), now);
  }

  /** One event from any reachable state. */
  lemma StepInv(rx: Rx, e: Event, clock: nat)
    requires RxInv(rx, clock) && Admissible(rx, e, clock)
    ensures var n := Step(rx, e);
            && StepOk(Base(rx, e), n.rx, n.recovered, e.now)
            && (n.delivered.Some? ==> Accounted(n.rx, n.delivered.value))
            && (n.delivered.Some? ==> forall i :: 0 <= i < |n.recovered| ==> n.recovered[i].0 != n.delivered.value)
    ensures !Restarts(rx, e) ==> Keeps(rx, Base(rx, e))
  {
    match e
    case Data(s, body, now, oldest) =>
      ObserveOk(rx, s, body, clock, now, oldest);
      NoteInv(rx, s, clock);
    case ParityShare(k, parity, now, oldest) =>
      if WellFormed(parity) {
        TryRecoverOk(rx, k, parity, clock, now, oldest);
        NoteInv(rx, Highest(parity.seqs), clock);
      } else {
        LaterClock(rx, clock, now);
      }
    case Maintenance(now) =>
      TickOk(rx, clock, now);
  }

  // ----- runs

  ghost function RunTo(rx: Rx, es: seq<Event>): Rx {
    if es == [] then rx else Step(RunTo(rx, es[..|es| - 1]), es[|es| - 1]).rx
  }

  ghost function ClockOf(es: seq<Event>, start: nat): nat {
    if es == [] then start else es[|es| - 1].now
  }

  ghost predicate AdmissibleRun(rx: Rx, es: seq<Event>, start: nat) {
    es == [] ||
    var n := |es| - 1;
    AdmissibleRun(rx, es[..n], start) && Admissible(RunTo(rx, es[..n]), es[n], ClockOf(es[..n], start))
  }

  lemma NewRxInv(parityCount: nat, now: nat)
    ensures RxInv(NewRx(parityCount, now), now)
  {
    assert SplitAt(NewRx(parityCount, now), 0);
  }
}
