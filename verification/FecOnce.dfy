/** Nothing is recovered twice. A restart of the peer leaves the parked groups alone; the law
    survives every restart that none of them reaches beyond. */
module FecOnce {
  import opened Bytes
  import opened FecGroup
  import opened FecReceiver
  import opened FecSafety
  import opened FecParking
  import opened FecRuns

  /** Every parked group lists distinct members, none ahead of the stream. */
  ghost predicate HeldInv(rx: Rx) {
    forall k :: k in rx.parked ==> SharesInv(rx, rx.parked[k].shares)
  }

  ghost predicate OnceInv(rx: Rx, clock: nat) {
    TrackInv(rx, clock) && HeldInv(rx)
  }

  /** From `base`, a step keeps everything accounted for and recovers only what was
      outstanding, each frame once. */
  ghost predicate OnceOk(base: Rx, rx': Rx, recovered: seq<Frame>, now: nat) {
    && OnceInv(rx', now) && Keeps(base, rx') && DistinctFrames(recovered)
    && forall i :: 0 <= i < |recovered| ==> !Accounted(base, recovered[i].0) && Accounted(rx', recovered[i].0)
  }

  lemma SharesKept(rx: Rx, rx': Rx, shares: Shares)
    requires SharesInv(rx, shares) && rx.highest <= rx'.highest
    ensures SharesInv(rx', shares)
  {
  }

  /** Fewer groups, or a stream further on. */
  lemma HeldKept(rx: Rx, rx': Rx)
    requires HeldInv(rx) && rx.highest <= rx'.highest
    requires forall k :: k in rx'.parked ==> k in rx.parked && rx'.parked[k] == rx.parked[k]
    ensures HeldInv(rx')
  {
    forall k | k in rx'.parked ensures SharesInv(rx', rx'.parked[k].shares) {
      SharesKept(rx, rx', rx.parked[k].shares);
    }
  }

  lemma HeldInsert(rx: Rx, rx': Rx, key: nat, g: ParkedGroup)
    requires HeldInv(rx) && SharesInv(rx, g.shares) && rx'.highest == rx.highest && rx'.parked == rx.parked[key := g]
    ensures HeldInv(rx')
  {
    forall k | k in rx'.parked ensures SharesInv(rx', rx'.parked[k].shares) {
      SharesKept(rx, rx', if k == key then g.shares else rx.parked[k].shares);
    }
  }

  lemma LaterOnce(rx: Rx, clock: nat, now: nat)
    requires OnceInv(rx, clock) && clock <= now
    ensures OnceInv(rx, now)
  {
    TrackLater(rx, clock, now);
  }

  // ----- the pieces of a step

  /** No parked group lists a member above `s`. */
  ghost predicate NoneAhead(rx: Rx, s: nat) {
    forall k :: k in rx.parked && rx.parked[k].shares.Any().Some? ==>
      forall i :: 0 <= i < |rx.parked[k].shares.Any().value.seqs| ==> rx.parked[k].shares.Any().value.seqs[i] <= s
  }

  lemma BehindRestart(rx: Rx, base: Rx)
    requires HeldInv(rx) && NoneAhead(rx, base.highest) && base.parked == rx.parked
    ensures HeldInv(base)
  {
    forall k | k in base.parked ensures SharesInv(base, base.parked[k].shares) {
      assert SharesInv(rx, rx.parked[k].shares);
    }
  }

  lemma NoteOnce(rx: Rx, s: nat, clock: nat)
    requires OnceInv(rx, clock) && (Resets(rx, s) ==> NoneAhead(rx, s))
    ensures OnceInv(NoteSeq(rx, s), clock) && s <= NoteSeq(rx, s).highest
    ensures !Resets(rx, s) ==> Keeps(rx, NoteSeq(rx, s))
  {
    NoteSeqSeen(rx, s);
    NoteCache(rx, s, clock);
    if Resets(rx, s) {
      BehindRestart(rx, NoteSeq(rx, s));
    } else {
      HeldKept(rx, NoteSeq(rx, s));
    }
  }

  lemma EvaluateOnce(base: Rx, rx: Rx, shares: Shares, clock: nat, now: nat)
    requires OnceInv(rx, clock) && clock <= now && SharesInv(rx, shares) && Keeps(base, rx)
    ensures var (rx', e) := Evaluate(rx, shares, now);
            OnceOk(base, rx', if e.Recovered? then e.items else [], now)
  {
    EvaluateInv(rx, shares, clock, now);
    HeldKept(rx, Evaluate(rx, shares, now).0);
  }

  lemma ParkOnce(base: Rx, rx: Rx, rx': Rx, key: nat, g: ParkedGroup, oldest: nat, clock: nat, now: nat)
    requires OnceInv(rx, clock) && clock <= now && SharesInv(rx, g.shares) && Keeps(base, rx)
    requires rx' == Park(rx, key, g.shares, g.missing, g.at, oldest)
    ensures OnceOk(base, rx', [], now)
  {
    var room := MakeRoom(rx, oldest);
    HeldKept(rx, room);
    SharesKept(rx, room, g.shares);
    HeldInsert(room, rx', key, g);
    TrackLater(rx, clock, now);
    SameTrack(rx, rx', now);
  }

  lemma SettleOnce(base: Rx, rx: Rx, key: nat, shares: Shares, clock: nat, now: nat, oldest: nat)
    requires OnceInv(rx, clock) && clock <= now && SharesInv(rx, shares) && Keeps(base, rx)
    ensures var (rx', out) := Settle(rx, key, shares, now, oldest);
            OnceOk(base, rx', if out.OutRecovered? then out.items else [], now)
  {
    if Judge(rx, shares).NeedMore? {
      var g := ParkedGroup(now, shares, Judge(rx, shares).missing);
      ParkOnce(base, rx, Settle(rx, key, shares, now, oldest).0, key, g, oldest, clock, now);
    } else {
      EvaluateOnce(base, rx, shares, clock, now);
    }
  }

  lemma CountOnce(base: Rx, rx: Rx, rx': Rx, items: seq<Frame>, now: nat)
    requires OnceOk(base, rx, items, now) && rx' == rx.(givenUp := rx'.givenUp)
    ensures OnceOk(base, rx', items, now)
  {
    SameTrack(rx, rx', now);
    HeldKept(rx, rx');
  }

  lemma RevisitOnce(base: Rx, rx: Rx, key: nat, g: ParkedGroup, now: nat, oldest: nat)
    requires OnceInv(rx, now) && SharesInv(rx, g.shares) && Keeps(base, rx)
    ensures var (rx', late) := Revisit(rx, key, g, now, oldest); OnceOk(base, rx', late, now)
  {
    var e, rx' := Judge(rx, g.shares), Revisit(rx, key, g, now, oldest).0;
    if e.NeedMore? {
      ParkOnce(base, rx, rx', key, g.(missing := e.missing), oldest, now, now);
    } else {
      EvaluateOnce(base, rx, g.shares, now, now);
      if e.Unrecoverable? {
        CountOnce(base, rx, rx', [], now);
      }
    }
  }

  /** Parking does not enter into what is accounted for. */
  lemma OffOnce(rx: Rx, off: Rx, clock: nat)
    requires OnceInv(rx, clock)
    requires off == rx.(parked := off.parked, parkedBySeq := off.parkedBySeq, givenUp := off.givenUp)
    requires forall k :: k in off.parked ==> k in rx.parked && off.parked[k] == rx.parked[k]
    ensures OnceInv(off, clock) && Keeps(rx, off)
  {
    SameTrack(rx, off, clock);
    HeldKept(rx, off);
  }

  lemma RecheckOnce(rx: Rx, s: nat, now: nat, oldest: nat)
    requires OnceInv(rx, now)
    ensures var (rx', late) := Recheck(rx, s, now, oldest); OnceOk(rx, rx', late, now)
  {
    if s in rx.parkedBySeq {
      var key, rx1 := rx.parkedBySeq[s], rx.(parkedBySeq := rx.parkedBySeq - {s});
      OffOnce(rx, rx1, now);
      if key in rx.parked {
        var off := DropParked(rx1, key);
        OffOnce(rx, off, now);
        SharesKept(rx, off, rx.parked[key].shares);
        RevisitOnce(rx, off, key, rx.parked[key], now, oldest);
      }
    }
  }

  lemma AdmitOnce(base: Rx, rx2: Rx, f: Frame, clock: nat, now: nat)
    requires OnceInv(base, clock) && clock <= now && !Seen(base, f.0) && f.0 <= base.highest && rx2 == Admit(base, f, now)
    ensures OnceInv(rx2, now) && Keeps(base, rx2) && Accounted(rx2, f.0)
  {
    AdmitInv(base, f, clock, now);
    assert [f][0].0 == f.0;
    HeldKept(base, rx2);
  }

  lemma AfterOnce(base: Rx, mid: Rx, rx': Rx, recovered: seq<Frame>, now: nat, s: nat)
    requires Keeps(base, mid) && OnceOk(mid, rx', recovered, now) && Accounted(mid, s)
    ensures OnceOk(base, rx', recovered, now) && Accounted(rx', s)
    ensures forall i :: 0 <= i < |recovered| ==> recovered[i].0 != s
  {
  }

  lemma DataOnce(rx: Rx, base: Rx, s: nat, body: bytes, clock: nat, now: nat, oldest: nat)
    requires OnceInv(base, clock) && clock <= now && base == NoteSeq(rx, s) && s <= base.highest
    ensures var o := ObserveData(rx, s, body, now, oldest);
            && OnceOk(base, o.rx, o.late, now)
            && (o.deliver ==> Accounted(o.rx, s) && forall i :: 0 <= i < |o.late| ==> o.late[i].0 != s)
  {
    if Seen(base, s) {
      LaterOnce(base, clock, now);
    } else {
      var rx2 := Admit(base, (s, body), now);
      DataIsAdmitted(rx, base, s, body, now, oldest);
      AdmitOnce(base, rx2, (s, body), clock, now);
      RecheckOnce(rx2, s, now, oldest);
      var (rx3, late) := Recheck(rx2, s, now, oldest);
      AfterOnce(base, rx2, rx3, late, now, s);
    }
  }

  lemma MergedOnce(rx: Rx, off: Rx, key: nat, k: Kind, par: Parity)
    requires HeldInv(rx) && off.highest == rx.highest && Distinct(par.seqs)
    requires forall i :: 0 <= i < |par.seqs| ==> par.seqs[i] <= rx.highest
    ensures SharesInv(off, HeldShares(rx, key).With(k, par))
  {
    AnyOfWith(HeldShares(rx, key), k, par);
    assert key in rx.parked ==> SharesInv(rx, rx.parked[key].shares);
  }

  lemma ShareOnce(rx: Rx, base: Rx, k: Kind, par: Parity, clock: nat, now: nat, oldest: nat)
    requires OnceInv(base, clock) && clock <= now && Distinct(par.seqs)
    requires base == NoteSeq(rx, Highest(par.seqs)) && Highest(par.seqs) <= base.highest
    ensures var (rx', out) := TryRecover(rx, k, par, now, oldest);
            OnceOk(base, rx', if out.OutRecovered? then out.items else [], now)
  {
    var key := par.seqs[0];
    var off := DropParked(base, key);
    OffOnce(base, off, clock);
    MergedOnce(base, off, key, k, par);
    ShareIsSettled(rx, base, k, par, now, oldest);
    SettleOnce(base, off, key, HeldShares(base, key).With(k, par), clock, now, oldest);
  }

  lemma TickOnce(rx: Rx, clock: nat, now: nat)
    requires OnceInv(rx, clock) && clock <= now
    ensures OnceOk(rx, Tick(rx, now).0, [], now)
  {
    TickCache(rx, clock, now);
    TickSeen(rx, clock, now);
    TickFields(rx, now);
    ExpireSameParked(rx, now);
    HeldKept(rx, Tick(rx, now).0);
  }

  // ----- steps and runs

  /** The clock does not go back, a group's members are distinct, and a restart finds no parked
      group that lists a member above its number. */
  ghost predicate Regular(rx: Rx, e: Event, clock: nat) {
    && clock <= e.now
    && (Restarts(rx, e) ==> NoneAhead(rx, Noted(e).value))
    && (e.ParityShare? && WellFormed(e.parity) ==> Distinct(e.parity.seqs))
  }

  /** One event from any reachable state. */
  lemma StepOnce(rx: Rx, e: Event, clock: nat)
    requires OnceInv(rx, clock) && Regular(rx, e, clock)
    ensures var n := Step(rx, e);
            && OnceOk(Base(rx, e), n.rx, n.recovered, e.now)
            && (n.delivered.Some? ==> Accounted(n.rx, n.delivered.value))
            && (n.delivered.Some? ==> forall i :: 0 <= i < |n.recovered| ==> n.recovered[i].0 != n.delivered.value)
    ensures !Restarts(rx, e) ==> Keeps(rx, Base(rx, e))
  {
    if Noted(e).Some? {
      NoteOnce(rx, Noted(e).value, clock);
    }
    match e
    case Data(s, body, now, oldest) => DataOnce(rx, Base(rx, e), s, body, clock, now, oldest);
    case ParityShare(k, par, now, oldest) =>
      if WellFormed(par) {
        ShareOnce(rx, Base(rx, e), k, par, clock, now, oldest);
      } else {
        LaterOnce(rx, clock, now);
      }
    case Maintenance(now) => TickOnce(rx, clock, now);
  }

  ghost predicate RegularRun(rx: Rx, es: seq<Event>, start: nat) {
    es == [] ||
    var n := |es| - 1;
    RegularRun(rx, es[..n], start) && Regular(RunTo(rx, es[..n]), es[n], ClockOf(es[..n], start))
  }

  function SeqSet(items: seq<Frame>): set<nat> {
    set i | 0 <= i < |items| :: items[i].0
  }

  function OptSet(o: Option<nat>): set<nat> {
    if o.Some? then {o.value} else {}
  }

  /** Every sequence number delivered or recovered since the last restart of the peer. */
  ghost function Handed(rx: Rx, es: seq<Event>): set<nat> {
    if es == [] then {}
    else
      var n := |es| - 1;
      var before, next := RunTo(rx, es[..n]), Step(RunTo(rx, es[..n]), es[n]);
      (if Restarts(before, es[n]) then {} else Handed(rx, es[..n])) + OptSet(next.delivered) + SeqSet(next.recovered)
  }

  lemma NewOnce(parityCount: nat, now: nat)
    ensures OnceInv(NewRx(parityCount, now), now)
  {
    assert SplitAt(NewRx(parityCount, now), 0);
  }

  /** Every reachable state satisfies the invariant, and accounts for all that was handed on. */
  lemma {:induction false} RunOnce(parityCount: nat, start: nat, es: seq<Event>)
    requires RegularRun(NewRx(parityCount, start), es, start)
    ensures var rx0 := NewRx(parityCount, start);
            && OnceInv(RunTo(rx0, es), ClockOf(es, start))
            && forall s :: s in Handed(rx0, es) ==> Accounted(RunTo(rx0, es), s)
  {
    var rx0 := NewRx(parityCount, start);
    if es == [] {
      NewOnce(parityCount, start);
    } else {
      var n := |es| - 1;
      RunOnce(parityCount, start, es[..n]);
      StepOnce(RunTo(rx0, es[..n]), es[n], ClockOf(es[..n], start));
    }
  }

  /** No frame is recovered that was delivered or recovered before, however many rotations of
      the seen generations lie between; and none twice in one step. */
  lemma NoReRecovery(parityCount: nat, start: nat, es: seq<Event>)
    requires RegularRun(NewRx(parityCount, start), es, start) && es != []
    ensures var rx0, n := NewRx(parityCount, start), |es| - 1;
            var before := RunTo(rx0, es[..n]);
            var next := Step(before, es[n]);
            && DistinctFrames(next.recovered)
            && (next.delivered.Some? ==> next.delivered.value !in SeqSet(next.recovered))
            && (!Restarts(before, es[n]) ==> SeqSet(next.recovered) !! Handed(rx0, es[..n]))
  {
    var rx0, n := NewRx(parityCount, start), |es| - 1;
    RunOnce(parityCount, start, es[..n]);
    StepOnce(RunTo(rx0, es[..n]), es[n], ClockOf(es[..n], start));
  }

  ghost predicate RestartFree(rx: Rx, es: seq<Event>) {
    es == [] || (RestartFree(rx, es[..|es| - 1]) && !Restarts(RunTo(rx, es[..|es| - 1]), es[|es| - 1]))
  }

  /** What is accounted for stays so until the peer restarts. */
  lemma {:induction false} RunKeeps(rx: Rx, es: seq<Event>, clock: nat)
    requires OnceInv(rx, clock) && RegularRun(rx, es, clock) && RestartFree(rx, es)
    ensures OnceInv(RunTo(rx, es), ClockOf(es, clock)) && Keeps(rx, RunTo(rx, es))
  {
    if es != [] {
      var n := |es| - 1;
      RunKeeps(rx, es[..n], clock);
      StepOnce(RunTo(rx, es[..n]), es[n], ClockOf(es[..n], clock));
    }
  }
}
