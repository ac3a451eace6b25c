/** From the first share to the last: a group that waits stays parked, unchanged, through
    everything that is neither its own nor ends its wait, and then its other share or either
    of its two missing members completes it. */
module FecPersistence {
  import opened Bytes
  import opened FecGroup
  import opened FecReceiver
  import opened FecRecovery
  import opened FecSafety
  import opened FecParking
  import opened FecRuns
  import opened FecTracking
  import opened FecOnce
  import opened FecOpenRuns
  import opened FecSoundness
  import opened FecCompletion

  // ----- nothing a group waits for has been seen

  ghost predicate UnseenInv(rx: Rx) {
    forall k: nat, s: nat :: Waits(rx, k, s) ==> !Seen(rx, s)
  }

  /** `rx'` has no parked group and no seen frame that `rx` lacks. */
  lemma FewerUnseen(rx: Rx, rx': Rx)
    requires UnseenInv(rx)
    requires forall k :: k in rx'.parked ==> k in rx.parked && rx'.parked[k] == rx.parked[k]
    requires forall s: nat :: Seen(rx', s) ==> Seen(rx, s)
    ensures UnseenInv(rx')
  {
    forall k: nat, s: nat | Waits(rx', k, s) ensures !Seen(rx', s) {
      assert Waits(rx, k, s);
    }
  }

  lemma DropUnseen(rx: Rx, key: nat)
    requires UnseenInv(rx)
    ensures UnseenInv(DropParked(rx, key))
  {
    FewerUnseen(rx, DropParked(rx, key));
  }

  lemma ParkUnseen(rx: Rx, rx': Rx, key: nat, shares: Shares, missing: seq<nat>, at: nat, oldest: nat)
    requires UnseenInv(rx) && rx' == Park(rx, key, shares, missing, at, oldest)
    requires forall i :: 0 <= i < |missing| ==> !Seen(rx, missing[i])
    ensures UnseenInv(rx')
  {
    forall k: nat, s: nat | Waits(rx', k, s) ensures !Seen(rx', s) {
      if k != key {
        assert Waits(rx, k, s);
      }
    }
  }

  /** A recovery marks members of its own group only, and no other group waits for those. */
  lemma EvaluateUnseen(st: Stream, rx: Rx, rx': Rx, key: nat, shares: Shares, now: nat)
    requires UnseenInv(rx) && WaitInv(st, rx) && Disjoint(st) && SentShares(st, key, shares) && key !in rx.parked
    requires rx' == Evaluate(rx, shares, now).0
    ensures UnseenInv(rx')
  {
    if Judge(rx, shares).Recovered? {
      var items := Judge(rx, shares).items;
      AdmitAllSameParked(rx, items, now);
      RecoveredInGroup(st, rx, key, shares);
      forall k: nat, s: nat | Waits(rx', k, s) ensures !Seen(rx', s) {
        assert Waits(rx, k, s);
        AdmitAllUnseen(rx, items, now, s);
      }
    }
  }

  lemma RecoveredInGroup(st: Stream, rx: Rx, key: nat, shares: Shares)
    requires SentShares(st, key, shares) && Judge(rx, shares).Recovered?
    ensures forall f :: f in Judge(rx, shares).items ==> InGroup(st, key, f.0)
  {
    RecoveredAreMissing(rx, shares);
    SharesList(st, key, shares);
  }

  lemma SettleUnseen(st: Stream, rx: Rx, rx': Rx, key: nat, shares: Shares, now: nat, oldest: nat)
    requires UnseenInv(rx) && WaitInv(st, rx) && Disjoint(st) && SentShares(st, key, shares) && key !in rx.parked
    requires rx' == Settle(rx, key, shares, now, oldest).0
    ensures UnseenInv(rx')
  {
    if Judge(rx, shares).NeedMore? {
      ParkUnseen(rx, rx', key, shares, Judge(rx, shares).missing, now, oldest);
    } else {
      EvaluateUnseen(st, rx, rx', key, shares, now);
    }
  }

  lemma RevisitUnseen(st: Stream, rx: Rx, key: nat, g: ParkedGroup, s: nat, clock: nat, now: nat, oldest: nat)
    requires UnseenInv(rx) && WaitInv(st, rx) && Disjoint(st) && SentShares(st, key, g.shares) && key !in rx.parked
    requires TrackInv(rx, clock) && GroupInv(rx, g) && s in g.missing && Accounted(rx, s)
    ensures UnseenInv(Revisit(rx, key, g, now, oldest).0)
  {
    var (rx', e) := Evaluate(rx, g.shares, now);
    LateMemberSettles(rx, g, s, clock);
    EvaluateUnseen(st, rx, rx', key, g.shares, now);
    FewerUnseen(rx', Revisit(rx, key, g, now, oldest).0);
  }

  lemma AdmitSees(rx: Rx, f: Frame, now: nat)
    ensures Seen(Admit(rx, f, now), f.0)
    ensures forall s: nat :: Seen(Admit(rx, f, now), s) ==> Seen(rx, s) || s == f.0
  {
    InsertSame(MarkSeen(rx, f.0, now), f, now);
  }

  /** Once `t` is seen, the one group that waits for it is looked at and leaves. */
  lemma RecheckUnseen(st: Stream, base: Rx, rx: Rx, t: nat, now: nat, oldest: nat)
    requires FullInv(st, rx, now) && Disjoint(st) && UnseenInv(base) && SameParked(base, rx) && Seen(rx, t)
    requires forall s: nat :: Seen(rx, s) ==> Seen(base, s) || s == t
    ensures UnseenInv(Recheck(rx, t, now, oldest).0)
  {
    if t !in rx.parkedBySeq {
      forall k: nat, s: nat | Waits(rx, k, s) ensures !Seen(rx, s) {
        assert Waits(base, k, s);
      }
    } else {
      var key := rx.parkedBySeq[t];
      var off := DropParked(rx.(parkedBySeq := rx.parkedBySeq - {t}), key);
      TakenOff(st, rx, off, key, t, now);
      assert Waits(rx, key, t);
      OffUnseen(st, base, rx, off, key, t);
      RevisitUnseen(st, off, key, rx.parked[key], t, now, now, oldest);
    }
  }

  lemma OffUnseen(st: Stream, base: Rx, rx: Rx, off: Rx, key: nat, t: nat)
    requires UnseenInv(base) && SameParked(base, rx) && WaitInv(st, rx) && Waits(rx, key, t)
    requires forall s: nat :: Seen(rx, s) ==> Seen(base, s) || s == t
    requires off.parked == rx.parked - {key} && off.current == rx.current && off.previous == rx.previous
    ensures UnseenInv(off)
  {
    forall k: nat, s: nat | Waits(off, k, s) ensures !Seen(off, s) {
      assert Waits(base, k, s) && Waits(rx, k, s);
    }
  }

  lemma TickUnseen(rx: Rx, now: nat)
    requires UnseenInv(rx)
    ensures UnseenInv(Tick(rx, now).0)
  {
    ExpireSameParked(rx, now);
    FewerUnseen(rx, Tick(rx, now).0);
  }

  lemma DataUnseen(st: Stream, rx: Rx, base: Rx, f: Frame, clock: nat, now: nat, oldest: nat)
    requires FullInv(st, rx, clock) && UnseenInv(rx) && Disjoint(st) && clock <= now
    requires base == NoteSeq(rx, f.0) && (Resets(rx, f.0) ==> rx.parked == map[])
    requires f.0 in st.frames && st.frames[f.0] == f.1
    ensures UnseenInv(ObserveData(rx, f.0, f.1, now, oldest).rx)
  {
    FewerUnseen(rx, base);
    if !Seen(base, f.0) {
      var rx2 := Admit(base, f, now);
      DataIsAdmitted(rx, base, f.0, f.1, now, oldest);
      AdmittedFull(st, rx, base, rx2, f, clock, now);
      AdmitSees(base, f, now);
      RecheckUnseen(st, base, rx2, f.0, now, oldest);
      NothingWaits(rx2);
    }
  }

  lemma NothingWaits(rx: Rx)
    ensures |rx.parked| == 0 ==> UnseenInv(rx)
  {
  }

  lemma ShareUnseen(st: Stream, rx: Rx, base: Rx, k: Kind, par: Parity, now: nat, oldest: nat)
    requires UnseenInv(rx) && WaitInv(st, rx) && Disjoint(st) && SoundInv(st, base) && SentShare(st, par.seqs[0], k, par)
    requires base == NoteSeq(rx, Highest(par.seqs))
    ensures UnseenInv(TryRecover(rx, k, par, now, oldest).0)
  {
    var key := par.seqs[0];
    FewerUnseen(rx, base);
    DropUnseen(base, key);
    NoteWait(st, rx, Highest(par.seqs));
    DropWait(st, base, key);
    MergeSent(st, base, k, par);
    ShareIsSettled(rx, base, k, par, now, oldest);
    SettleUnseen(st, DropParked(base, key), TryRecover(rx, k, par, now, oldest).0, key,
                 HeldShares(base, key).With(k, par), now, oldest);
  }

  /** Everything a reachable state of one stream satisfies. */
  ghost predicate StreamInv(st: Stream, rx: Rx, clock: nat) {
    FullInv(st, rx, clock) && UnseenInv(rx)
  }

  lemma StepUnseen(st: Stream, rx: Rx, e: Event, clock: nat)
    requires StreamInv(st, rx, clock) && Disjoint(st) && Sent(st, e) && Admissible(rx, e, clock)
    ensures UnseenInv(Step(rx, e).rx)
  {
    match e
    case Data(s, body, now, oldest) => DataUnseen(st, rx, Base(rx, e), (s, body), clock, now, oldest);
    case ParityShare(k, par, now, oldest) =>
      BaseSound(st, rx, e);
      if WellFormed(par) {
        ShareUnseen(st, rx, Base(rx, e), k, par, now, oldest);
      }
    case Maintenance(now) => TickUnseen(rx, now);
  }

  lemma StepStream(st: Stream, rx: Rx, e: Event, clock: nat)
    requires StreamInv(st, rx, clock) && Disjoint(st) && Sent(st, e) && Admissible(rx, e, clock)
    ensures StreamInv(st, Step(rx, e).rx, e.now)
  {
    StepUnseen(st, rx, e, clock);
    StepInv(rx, e, clock);
    BaseSound(st, rx, e);
    StepSound(st, rx, e);
    StepWait(st, rx, e);
  }

  /** In every state of every run of one stream, no frame that a parked group waits for has
      been seen. */
  lemma {:induction false} RunStream(st: Stream, parityCount: nat, start: nat, es: seq<Event>)
    requires Disjoint(st) && AdmissibleRun(NewRx(parityCount, start), es, start)
    requires forall i :: 0 <= i < |es| ==> Sent(st, es[i])
    ensures StreamInv(st, RunTo(NewRx(parityCount, start), es), ClockOf(es, start))
  {
    if es == [] {
      NewRxInv(parityCount, start);
    } else {
      var n := |es| - 1;
      RunStream(st, parityCount, start, es[..n]);
      StepStream(st, RunTo(NewRx(parityCount, start), es[..n]), es[n], ClockOf(es[..n], start));
    }
  }

  // ----- a parked group stays

  /** The event is neither the group's own share nor a member it waits for, and does not
      restart the stream, let the group expire or evict it. */
  ghost predicate Spares(rx: Rx, e: Event, key: nat)
    requires key in rx.parked
  {
    && !Restarts(rx, e)
    && match e
       case Data(s, _, _, _) => s !in rx.parked[key].missing
       case ParityShare(_, par, _, oldest) =>
         WellFormed(par) ==>
           par.seqs[0] != key && (|DropParked(rx, par.seqs[0]).parked| >= MAX_PARKED_GROUPS ==> oldest != key)
       case Maintenance(now) => now < rx.parked[key].at + rx.payloadTtl
  }

  ghost predicate Stays(rx: Rx, rx': Rx, key: nat) {
    key in rx.parked && key in rx'.parked && rx'.parked[key] == rx.parked[key]
  }

  lemma SettleStays(rx: Rx, own: nat, shares: Shares, now: nat, oldest: nat, key: nat)
    requires key in rx.parked && key != own && (|rx.parked| >= MAX_PARKED_GROUPS ==> oldest != key)
    ensures Stays(rx, Settle(rx, own, shares, now, oldest).0, key)
  {
    EvaluateSame(rx, shares, now);
  }

  lemma DropStays(rx: Rx, base: Rx, off: Rx, own: nat, key: nat)
    requires base.parked == rx.parked && off == DropParked(base, own) && key in rx.parked && key != own
    ensures Stays(rx, off, key) && off.parked == DropParked(rx, own).parked
  {
  }

  lemma ShareStays(rx: Rx, base: Rx, off: Rx, rx': Rx, k: Kind, par: Parity, now: nat, oldest: nat, key: nat)
    requires base.parked == rx.parked && off == DropParked(base, par.seqs[0]) && key in rx.parked && par.seqs[0] != key
    requires |DropParked(rx, par.seqs[0]).parked| >= MAX_PARKED_GROUPS ==> oldest != key
    requires rx' == Settle(off, par.seqs[0], HeldShares(base, par.seqs[0]).With(k, par), now, oldest).0
    ensures Stays(rx, rx', key)
  {
    DropStays(rx, base, off, par.seqs[0], key);
    SettleStays(off, par.seqs[0], HeldShares(base, par.seqs[0]).With(k, par), now, oldest, key);
  }

  /** A late member of another group sends that group off, never this one: the other does not
      return to the parking, so it makes no room there. */
  lemma RecheckStays(st: Stream, rx: Rx, t: nat, now: nat, oldest: nat, key: nat)
    requires FullInv(st, rx, now) && Accounted(rx, t) && key in rx.parked && t !in rx.parked[key].missing
    ensures Stays(rx, Recheck(rx, t, now, oldest).0, key)
  {
    if t in rx.parkedBySeq {
      var own := rx.parkedBySeq[t];
      var off := DropParked(rx.(parkedBySeq := rx.parkedBySeq - {t}), own);
      TakenOff(st, rx, off, own, t, now);
      RevisitStays(off, own, rx.parked[own], t, now, oldest, key);
    }
  }

  lemma RevisitStays(rx: Rx, own: nat, g: ParkedGroup, t: nat, now: nat, oldest: nat, key: nat)
    requires TrackInv(rx, now) && GroupInv(rx, g) && t in g.missing && Accounted(rx, t) && key in rx.parked
    ensures Stays(rx, Revisit(rx, own, g, now, oldest).0, key)
  {
    LateMemberSettles(rx, g, t, now);
    EvaluateSame(rx, g.shares, now);
  }

  lemma DataStays(st: Stream, rx: Rx, base: Rx, f: Frame, clock: nat, now: nat, oldest: nat, key: nat)
    requires FullInv(st, rx, clock) && clock <= now && key in rx.parked && f.0 !in rx.parked[key].missing
    requires base == NoteSeq(rx, f.0) && !Resets(rx, f.0) && f.0 in st.frames && st.frames[f.0] == f.1
    ensures Stays(rx, ObserveData(rx, f.0, f.1, now, oldest).rx, key)
  {
    if !Seen(base, f.0) {
      var rx2 := Admit(base, f, now);
      DataIsAdmitted(rx, base, f.0, f.1, now, oldest);
      AdmittedFull(st, rx, base, rx2, f, clock, now);
      RecheckStays(st, rx2, f.0, now, oldest, key);
    }
  }

  lemma TickStays(rx: Rx, now: nat, key: nat)
    requires key in rx.parked && now < rx.parked[key].at + rx.payloadTtl
    ensures Stays(rx, Tick(rx, now).0, key)
  {
    ExpireSameParked(rx, now);
    TickFields(rx, now);
  }

  /** A step that is not the group's own and does not end its wait leaves it parked as it is. */
  lemma StepStays(st: Stream, rx: Rx, e: Event, clock: nat, key: nat)
    requires FullInv(st, rx, clock) && Sent(st, e) && Admissible(rx, e, clock)
    requires key in rx.parked && Spares(rx, e, key)
    ensures Stays(rx, Step(rx, e).rx, key)
  {
    match e
    case Data(s, body, now, oldest) => DataStays(st, rx, Base(rx, e), (s, body), clock, now, oldest, key);
    case ParityShare(k, par, now, oldest) =>
      if WellFormed(par) {
        ShareIsSettled(rx, Base(rx, e), k, par, now, oldest);
        ShareStays(rx, Base(rx, e), DropParked(Base(rx, e), par.seqs[0]), Step(rx, e).rx, k, par, now, oldest, key);
      }
    case Maintenance(now) => TickStays(rx, now, key);
  }

  ghost predicate SparingRun(rx: Rx, es: seq<Event>, key: nat) {
    es == [] ||
    var n := |es| - 1;
    var before := RunTo(rx, es[..n]);
    SparingRun(rx, es[..n], key) && key in before.parked && Spares(before, es[n], key)
  }

  lemma {:induction false} RunStays(st: Stream, rx: Rx, es: seq<Event>, clock: nat, key: nat)
    requires StreamInv(st, rx, clock) && Disjoint(st) && key in rx.parked
    requires AdmissibleRun(rx, es, clock) && (forall i :: 0 <= i < |es| ==> Sent(st, es[i])) && SparingRun(rx, es, key)
    ensures StreamInv(st, RunTo(rx, es), ClockOf(es, clock)) && Keeps(rx, RunTo(rx, es)) && Stays(rx, RunTo(rx, es), key)
    ensures RunTo(rx, es).parityCount == rx.parityCount
  {
    if es != [] {
      var n := |es| - 1;
      var before, now := RunTo(rx, es[..n]), ClockOf(es[..n], clock);
      RunStays(st, rx, es[..n], clock, key);
      StepStream(st, before, es[n], now);
      StepStays(st, before, es[n], now, key);
      StepInv(before, es[n], now);
      StepLimits(before, es[n]);
    }
  }

  // ----- from the first share to completion

  /** The group waits for the members at `idx`, holding share `k`; all others are settled. */
  ghost predicate Pends(rx: Rx, k: Kind, par: Parity, idx: seq<nat>) {
    && Ascending(idx, |par.seqs|)
    && par.seqs[0] in rx.parked && Holds(rx.parked[par.seqs[0]], k, par, idx)
    && forall i :: 0 <= i < |par.seqs| && i !in idx ==> Accounted(rx, par.seqs[i])
  }

  ghost predicate Holds(g: ParkedGroup, k: Kind, par: Parity, idx: seq<nat>)
    requires Ascending(idx, |par.seqs|)
  {
    g.shares == Shares(None, None).With(k, par) && g.missing == SeqsAt(par.seqs, idx)
  }

  ghost predicate Ascending(idx: seq<nat>, n: nat) {
    |idx| == 2 && idx[0] < idx[1] < n
  }

  /** Exactly two members are missing, and all others are in the cache. */
  ghost predicate LacksTwo(rx: Rx, seqs: seq<nat>) {
    !Lost(rx, seqs) && |Lacking(rx, seqs, |seqs|)| == 2
  }

  lemma FirstShare(st: Stream, rx: Rx, base: Rx, rx1: Rx, k: Kind, par: Parity, clock: nat, now: nat, oldest: nat)
    requires SoundInv(st, base) && CacheInv(base, clock) && Keeps(base, rx1) && base.parityCount >= 2
    requires base == NoteSeq(rx, Highest(par.seqs)) && par.seqs[0] !in base.parked && LacksTwo(base, par.seqs)
    requires SentShare(st, par.seqs[0], k, par) && rx1 == TryRecover(rx, k, par, now, oldest).0
    ensures Pends(rx1, k, par, Lacking(base, par.seqs, |par.seqs|))
  {
    LackingIsMissing(base, par.seqs, |par.seqs|);
    LostIsHandled(base, par.seqs);
    FirstSharePends(st, rx, base, k, par, now, oldest);
    OthersSettled(base, rx1, par.seqs, clock);
  }

  lemma ShareKeeps(rx: Rx, base: Rx, rx1: Rx, k: Kind, par: Parity, clock: nat, now: nat, oldest: nat)
    requires RxInv(rx, clock) && Admissible(rx, ParityShare(k, par, now, oldest), clock)
    requires base == NoteSeq(rx, Highest(par.seqs)) && rx1 == TryRecover(rx, k, par, now, oldest).0
    ensures CacheInv(base, clock) && Keeps(base, rx1)
  {
    StepInv(rx, ParityShare(k, par, now, oldest), clock);
    NoteInv(rx, Highest(par.seqs), clock);
  }

  lemma OthersSettled(base: Rx, rx1: Rx, seqs: seq<nat>, clock: nat)
    requires CacheInv(base, clock) && Keeps(base, rx1)
    ensures forall i :: 0 <= i < |seqs| && i !in MissingBelow(base, seqs, |seqs|) ==> Accounted(rx1, seqs[i])
  {
    forall i | 0 <= i < |seqs| && i !in MissingBelow(base, seqs, |seqs|) ensures Accounted(rx1, seqs[i]) {
      MissingIffUnaccounted(base, clock, seqs[i]);
    }
  }

  lemma PendsLater(rx: Rx, rx': Rx, k: Kind, par: Parity, idx: seq<nat>)
    requires Pends(rx, k, par, idx) && Keeps(rx, rx') && Stays(rx, rx', par.seqs[0])
    ensures Pends(rx', k, par, idx)
  {
  }

  /** The members of a pending group that are missing, when none has been forgotten: those it
      waits for, less `seen`. */
  lemma StillMissing(rx: Rx, seqs: seq<nat>, idx: seq<nat>, clock: nat, i: nat)
    requires CacheInv(rx, clock) && !AnyHandled(rx, seqs) && i < |seqs|
    requires i in idx ==> !Seen(rx, seqs[i])
    requires i !in idx ==> Accounted(rx, seqs[i])
    ensures StateOf(rx, seqs[i]).Missing? <==> i in idx
  {
    MissingIffUnaccounted(rx, clock, seqs[i]);
    assert !StateOf(rx, seqs[i]).Handled?;
    if seqs[i] in rx.payloads {
      PayloadsAreSeen(rx, clock, seqs[i]);
    }
  }

  /** An ascending list of the missing positions is the list of missing positions. */
  lemma TheMissing(rx: Rx, seqs: seq<nat>, idx: seq<nat>)
    requires forall j :: 0 <= j < |idx| ==> idx[j] < |seqs|
    requires forall i, j :: 0 <= i < j < |idx| ==> idx[i] < idx[j]
    requires forall i :: 0 <= i < |seqs| ==> (StateOf(rx, seqs[i]).Missing? <==> i in idx)
    ensures MissingBelow(rx, seqs, |seqs|) == idx
  {
    SameAscending(MissingBelow(rx, seqs, |seqs|), idx);
  }

  lemma {:induction false} SameAscending(a: seq<nat>, b: seq<nat>)
    requires forall i, j :: 0 <= i < j < |a| ==> a[i] < a[j]
    requires forall i, j :: 0 <= i < j < |b| ==> b[i] < b[j]
    requires forall x :: x in a <==> x in b
    ensures a == b
  {
    assert (a != [] ==> a[0] in b) && (b != [] ==> b[0] in a);
    if a != [] {
      var m, n := |a| - 1, |b| - 1;
      assert a[m] in b && b[n] in a;
      forall x ensures x in a[..m] <==> x in b[..n] {
        LastIsLargest(a, x);
        LastIsLargest(b, x);
      }
      SameAscending(a[..m], b[..n]);
    }
  }

  lemma LastIsLargest(a: seq<nat>, x: nat)
    requires a != [] && forall i, j :: 0 <= i < j < |a| ==> a[i] < a[j]
    ensures x in a[..|a| - 1] <==> x in a && x != a[|a| - 1]
    ensures x in a ==> x <= a[|a| - 1]
  {
  }

  lemma WaitedUnseen(rx: Rx, k: Kind, par: Parity, idx: seq<nat>, i: nat)
    requires UnseenInv(rx) && Pends(rx, k, par, idx) && i in idx
    ensures i < |par.seqs| && !Seen(rx, par.seqs[i]) && Waits(rx, par.seqs[0], par.seqs[i])
  {
    var x :| 0 <= x < |idx| && idx[x] == i;
    assert rx.parked[par.seqs[0]].missing[x] == par.seqs[i];
    assert Waits(rx, par.seqs[0], par.seqs[i]);
  }

  /** While none is forgotten, exactly the members that were missing at the first share still
      are. */
  lemma BothMissing(rx: Rx, base: Rx, k: Kind, par: Parity, idx: seq<nat>, clock: nat)
    requires UnseenInv(rx) && Pends(rx, k, par, idx) && CacheInv(base, clock) && Keeps(rx, base)
    requires base.current == rx.current && base.previous == rx.previous && !AnyHandled(base, par.seqs)
    ensures MissingBelow(base, par.seqs, |par.seqs|) == idx
  {
    forall i | 0 <= i < |par.seqs| ensures StateOf(base, par.seqs[i]).Missing? <==> i in idx {
      if i in idx {
        WaitedUnseen(rx, k, par, idx, i);
      }
      StillMissing(base, par.seqs, idx, clock, i);
    }
    TheMissing(base, par.seqs, idx);
  }

  lemma NotedSame(rx: Rx, s: nat, clock: nat)
    requires RxInv(rx, clock) && !Resets(rx, s)
    ensures var base := NoteSeq(rx, s);
            && RxInv(base, clock) && Keeps(rx, base) && s <= base.highest
            && base.current == rx.current && base.previous == rx.previous
  {
    NoteInv(rx, s, clock);
  }

  /** The frames that the stream sent under these numbers. */
  ghost predicate Originals(st: Stream, items: seq<Frame>, seqs: seq<nat>) {
    && |items| == |seqs|
    && forall j :: 0 <= j < |seqs| ==> items[j].0 == seqs[j] && seqs[j] in st.frames && st.frames[seqs[j]] == items[j].1
  }

  ghost function NumbersAt(seqs: seq<nat>, idx: seq<nat>): seq<nat> {
    seq(|idx|, j requires 0 <= j < |idx| => if idx[j] < |seqs| then seqs[idx[j]] else 0)
  }

  lemma FramesAreOriginals(st: Stream, seqs: seq<nat>, idx: seq<nat>)
    requires Covers(st.frames, seqs) && forall j :: 0 <= j < |idx| ==> idx[j] < |seqs|
    ensures Originals(st, FramesAt(st.frames, seqs, idx), NumbersAt(seqs, idx))
  {
  }

  /** The group's other share recovers exactly the two members that were missing when the
      first one came. */
  lemma OtherShareRecovers(st: Stream, rx: Rx, base: Rx, k: Kind, par: Parity, idx: seq<nat>,
                           other: Kind, par': Parity, clock: nat, now: nat, oldest: nat)
    requires Pends(rx, k, par, idx) && StreamInv(st, rx, clock) && rx.parityCount >= 2
    requires other != k && par'.seqs == par.seqs && SentShare(st, par.seqs[0], other, par')
    requires base == NoteSeq(rx, Highest(par.seqs)) && !Resets(rx, Highest(par.seqs)) && !AnyHandled(base, par.seqs)
    ensures var out := TryRecover(rx, other, par', now, oldest).1;
            out.OutRecovered? && Originals(st, out.items, NumbersAt(par.seqs, idx))
  {
    NotedSame(rx, Highest(par.seqs), clock);
    BothMissing(rx, base, k, par, idx, clock);
    OtherShareCompletes(st, rx, base, other, par', clock, now, oldest);
    FramesAreOriginals(st, par.seqs, idx);
  }

  /** The position the group still waits for once the one at `i` has arrived. */
  ghost function Rest(idx: seq<nat>, i: nat): seq<nat> {
    if |idx| != 2 then [] else if i == idx[0] then [idx[1]] else [idx[0]]
  }

  /** When one of the two missing members has come, exactly the other is still missing. */
  lemma OneLeft(rx: Rx, rx2: Rx, k: Kind, par: Parity, idx: seq<nat>, i: nat, clock: nat)
    requires UnseenInv(rx) && Pends(rx, k, par, idx) && i in idx && Distinct(par.seqs)
    requires CacheInv(rx2, clock) && Keeps(rx, rx2) && Accounted(rx2, par.seqs[i]) && !AnyHandled(rx2, par.seqs)
    requires forall s: nat :: Seen(rx2, s) ==> Seen(rx, s) || s == par.seqs[i]
    ensures MissingBelow(rx2, par.seqs, |par.seqs|) == Rest(idx, i)
  {
    var r := Rest(idx, i)[0];
    forall x | 0 <= x < |par.seqs| ensures StateOf(rx2, par.seqs[x]).Missing? <==> x in [r] {
      if x == r {
        WaitedUnseen(rx, k, par, idx, x);
      }
      StillMissing(rx2, par.seqs, [r], clock, x);
    }
    TheMissing(rx2, par.seqs, [r]);
  }

  lemma PendingDistinct(rx: Rx, k: Kind, par: Parity, idx: seq<nat>)
    requires ParkedInv(rx) && Pends(rx, k, par, idx)
    ensures Distinct(par.seqs)
  {
    assert GroupInv(rx, rx.parked[par.seqs[0]]);
  }

  lemma OneLeftOf(rx: Rx, base: Rx, rx2: Rx, k: Kind, par: Parity, idx: seq<nat>, i: nat, f: Frame, clock: nat,
                  now: nat)
    requires RxInv(rx, clock) && UnseenInv(rx) && clock <= now && Pends(rx, k, par, idx)
    requires i in idx && i < |par.seqs| && f.0 == par.seqs[i]
    requires base == NoteSeq(rx, f.0) && !Resets(rx, f.0) && rx2 == Admit(base, f, now) && !AnyHandled(rx2, par.seqs)
    ensures !Seen(base, f.0) && MissingBelow(rx2, par.seqs, |par.seqs|) == Rest(idx, i)
  {
    WaitedUnseen(rx, k, par, idx, i);
    PendingDistinct(rx, k, par, idx);
    NotedSame(rx, f.0, clock);
    AdmitKeeps(base, rx2, f, clock, now);
    AdmitSees(base, f, now);
    OneLeft(rx, rx2, k, par, idx, i, now);
  }

  /** Either missing member is delivered and recovers the other. */
  lemma MemberRecovers(st: Stream, rx: Rx, base: Rx, rx2: Rx, k: Kind, par: Parity, idx: seq<nat>, i: nat, f: Frame,
                       clock: nat, now: nat, oldest: nat)
    requires Pends(rx, k, par, idx) && i in idx && i < |par.seqs| && StreamInv(st, rx, clock) && clock <= now
    requires par.seqs[0] in st.groups && st.groups[par.seqs[0]] == par.seqs
    requires f.0 == par.seqs[i] && f.0 in st.frames && st.frames[f.0] == f.1
    requires base == NoteSeq(rx, f.0) && !Resets(rx, f.0) && rx2 == Admit(base, f, now) && !AnyHandled(rx2, par.seqs)
    ensures var o := ObserveData(rx, f.0, f.1, now, oldest);
            o.deliver && Originals(st, o.late, NumbersAt(par.seqs, Rest(idx, i)))
  {
    WaitedUnseen(rx, k, par, idx, i);
    OneLeftOf(rx, base, rx2, k, par, idx, i, f, clock, now);
    LateMemberCompletes(st, rx, base, rx2, par.seqs[0], f.0, clock, now, oldest);
    FramesAreOriginals(st, par.seqs, Rest(idx, i));
  }

  lemma ShareStream(st: Stream, rx: Rx, rx1: Rx, k: Kind, par: Parity, clock: nat, now: nat, oldest: nat)
    requires StreamInv(st, rx, clock) && Disjoint(st) && rx1 == TryRecover(rx, k, par, now, oldest).0
    requires SentShare(st, par.seqs[0], k, par) && Admissible(rx, ParityShare(k, par, now, oldest), clock)
    ensures StreamInv(st, rx1, now) && rx1.parityCount == rx.parityCount
  {
    StepStream(st, rx, ParityShare(k, par, now, oldest), clock);
    StepLimits(rx, ParityShare(k, par, now, oldest));
  }

  /** From any reachable state: the first share of a group that lacks two members. */
  lemma FromFirstShare(st: Stream, rx: Rx, base: Rx, rx1: Rx, k: Kind, par: Parity, clock: nat, now: nat, oldest: nat)
    requires StreamInv(st, rx, clock) && SoundInv(st, base) && Disjoint(st)
    requires base == NoteSeq(rx, Highest(par.seqs)) && base.parked == rx.parked && base.parityCount == rx.parityCount >= 2
    requires SentShare(st, par.seqs[0], k, par) && Admissible(rx, ParityShare(k, par, now, oldest), clock)
    requires par.seqs[0] !in rx.parked && LacksTwo(base, par.seqs)
    requires rx1 == TryRecover(rx, k, par, now, oldest).0
    ensures StreamInv(st, rx1, now) && rx1.parityCount == rx.parityCount
    ensures Pends(rx1, k, par, Lacking(base, par.seqs, |par.seqs|))
  {
    ShareKeeps(rx, base, rx1, k, par, clock, now, oldest);
    FirstShare(st, rx, base, rx1, k, par, clock, now, oldest);
    ShareStream(st, rx, rx1, k, par, clock, now, oldest);
  }

  /** Then any events that are not the group's own and do not end its wait. */
  lemma WhileWaiting(st: Stream, rx: Rx, rx': Rx, k: Kind, par: Parity, idx: seq<nat>, clock: nat, es: seq<Event>)
    requires StreamInv(st, rx, clock) && Disjoint(st) && Pends(rx, k, par, idx) && rx' == RunTo(rx, es)
    requires AdmissibleRun(rx, es, clock) && (forall i :: 0 <= i < |es| ==> Sent(st, es[i]))
        && SparingRun(rx, es, par.seqs[0])
    ensures StreamInv(st, rx', ClockOf(es, clock)) && rx'.parityCount == rx.parityCount && Pends(rx', k, par, idx)
  {
    RunStays(st, rx, es, clock, par.seqs[0]);
    PendsLater(rx, rx', k, par, idx);
  }

  /** What ends the wait: the group's other share, or the member at `i`. */
  ghost predicate Ends(st: Stream, e: Event, k: Kind, par: Parity, i: nat) {
    match e
    case Data(s, body, _, _) => i < |par.seqs| && s == par.seqs[i] && s in st.frames && st.frames[s] == body
    case ParityShare(other, par', _, _) => other != k && WellFormed(par') && SentShare(st, par.seqs[0], other, par')
    case Maintenance(_) => false
  }

  /** The state in which the completing event finds the group. */
  ghost function Judged(rx: Rx, e: Event): Rx {
    if e.Data? then Admit(Base(rx, e), (e.seqno, e.body), e.now) else Base(rx, e)
  }

  lemma EndsWait(st: Stream, rx: Rx, k: Kind, par: Parity, idx: seq<nat>, clock: nat, last: Event, i: nat)
    requires Pends(rx, k, par, idx) && StreamInv(st, rx, clock) && rx.parityCount >= 2
    requires SentShare(st, par.seqs[0], k, par) && Ends(st, last, k, par, i) && (last.Data? ==> i in idx)
    requires clock <= last.now && !Restarts(rx, last) && !AnyHandled(Judged(rx, last), par.seqs)
    ensures Originals(st, Step(rx, last).recovered, NumbersAt(par.seqs, if last.Data? then Rest(idx, i) else idx))
    ensures last.Data? ==> Step(rx, last).delivered == Some(last.seqno)
  {
    var base := Base(rx, last);
    match last
    case Data(s, body, at, victim) =>
      MemberRecovers(st, rx, base, Judged(rx, last), k, par, idx, i, (s, body), clock, at, victim);
    case ParityShare(other, par', at, victim) =>
      OtherShareRecovers(st, rx, base, k, par, idx, other, par', clock, at, victim);
  }

  lemma Reached(st: Stream, parityCount: nat, start: nat, pre: seq<Event>, rx: Rx, base: Rx, s: nat)
    requires Disjoint(st) && AdmissibleRun(NewRx(parityCount, start), pre, start)
    requires rx == RunTo(NewRx(parityCount, start), pre) && base == NoteSeq(rx, s)
    requires forall j :: 0 <= j < |pre| ==> Sent(st, pre[j])
    ensures StreamInv(st, rx, ClockOf(pre, start)) && SoundInv(st, base)
    ensures base.parked == rx.parked && base.parityCount == rx.parityCount == parityCount
  {
    RunStream(st, parityCount, start, pre);
    RunLimits(NewRx(parityCount, start), pre);
    NoteSound(st, rx, s);
  }

  /** A whole wait: a run `pre` of the stream up to the first share of a group that lacks two
      members, any events `es` that are not the group's own and do not end its wait, and the
      event that completes it. When that event is judged, no member may be lost: its payload
      dropped, or, still outstanding, fallen behind the floor or the stale window. */
  ghost predicate WholeWait(st: Stream, parityCount: nat, start: nat, pre: seq<Event>, k: Kind, par: Parity, now: nat,
                            oldest: nat, es: seq<Event>, last: Event, i: nat, rx: Rx, base: Rx, rx1: Rx, rx2: Rx, idx: seq<nat>) {
    && Disjoint(st) && parityCount >= 2 && AdmissibleRun(NewRx(parityCount, start), pre, start)
    && rx == RunTo(NewRx(parityCount, start), pre)
    && (forall j :: 0 <= j < |pre| ==> Sent(st, pre[j])) && (forall j :: 0 <= j < |es| ==> Sent(st, es[j]))
    && SentShare(st, par.seqs[0], k, par)
    && Admissible(rx, ParityShare(k, par, now, oldest), ClockOf(pre, start))
    && base == NoteSeq(rx, Highest(par.seqs)) && par.seqs[0] !in rx.parked && LacksTwo(base, par.seqs)
    && idx == Lacking(base, par.seqs, |par.seqs|)
    && rx1 == TryRecover(rx, k, par, now, oldest).0 && rx2 == RunTo(rx1, es)
    && AdmissibleRun(rx1, es, now) && SparingRun(rx1, es, par.seqs[0])
    && Ends(st, last, k, par, i) && (last.Data? ==> i in idx)
    && ClockOf(es, now) <= last.now && !Restarts(rx2, last) && !Lost(Judged(rx2, last), par.seqs)
  }

  lemma WaitPends(st: Stream, parityCount: nat, start: nat, pre: seq<Event>, k: Kind, par: Parity, now: nat,
                  oldest: nat, es: seq<Event>, last: Event, i: nat, rx: Rx, base: Rx, rx1: Rx, rx2: Rx, idx: seq<nat>)
    requires WholeWait(st, parityCount, start, pre, k, par, now, oldest, es, last, i, rx, base, rx1, rx2, idx)
    ensures StreamInv(st, rx2, ClockOf(es, now)) && Pends(rx2, k, par, idx) && rx2.parityCount >= 2
    ensures !AnyHandled(Judged(rx2, last), par.seqs)
  {
    LostIsHandled(Judged(rx2, last), par.seqs);
    Reached(st, parityCount, start, pre, rx, base, Highest(par.seqs));
    FromFirstShare(st, rx, base, rx1, k, par, ClockOf(pre, start), now, oldest);
    WhileWaiting(st, rx1, rx2, k, par, idx, now, es);
  }

  /** Whole waits of a run: in every run of a stream, a group whose first share found two
      members missing is completed by its other share or by either of those members, whatever
      lies between, unless the group was evicted or expired, the peer restarted, or a member
      was lost; and what is recovered is exactly what was missing. */
  lemma GroupCompletes(st: Stream, parityCount: nat, start: nat, pre: seq<Event>, k: Kind, par: Parity, now: nat,
                       oldest: nat, es: seq<Event>, last: Event, i: nat, rx: Rx, base: Rx, rx1: Rx, rx2: Rx, idx: seq<nat>)
    requires WholeWait(st, parityCount, start, pre, k, par, now, oldest, es, last, i, rx, base, rx1, rx2, idx)
    ensures Originals(st, Step(rx2, last).recovered, NumbersAt(par.seqs, if last.Data? then Rest(idx, i) else idx))
    ensures last.Data? ==> Step(rx2, last).delivered == Some(last.seqno)
  {
    WaitPends(st, parityCount, start, pre, k, par, now, oldest, es, last, i, rx, base, rx1, rx2, idx);
    EndsWait(st, rx2, k, par, idx, ClockOf(es, now), last, i);
  }

  // ----- once complete

  ghost predicate AllAccounted(rx: Rx, seqs: seq<nat>) {
    forall x :: 0 <= x < |seqs| ==> Accounted(rx, seqs[x])
  }

  /** What was missing is now among the frames handed on. */
  lemma HandedOn(st: Stream, next: Next, seqs: seq<nat>, idx: seq<nat>, data: bool, i: nat, x: nat)
    requires Ascending(idx, |seqs|) && x in idx && (data ==> i in idx && next.delivered == Some(seqs[i]))
    requires Originals(st, next.recovered, NumbersAt(seqs, if data then Rest(idx, i) else idx))
    requires forall j :: 0 <= j < |next.recovered| ==> Accounted(next.rx, next.recovered[j].0)
    requires next.delivered.Some? ==> Accounted(next.rx, next.delivered.value)
    ensures x < |seqs| && Accounted(next.rx, seqs[x])
  {
    var got := if data then Rest(idx, i) else idx;
    if !(data && x == i) {
      assert x in got;
      var j :| 0 <= j < |got| && got[j] == x;
      assert NumbersAt(seqs, got)[j] == seqs[x];
    }
  }

  lemma NowAccounted(st: Stream, rx: Rx, k: Kind, par: Parity, idx: seq<nat>, clock: nat, last: Event, i: nat,
                     next: Next)
    requires Pends(rx, k, par, idx) && OnceInv(rx, clock) && Regular(rx, last, clock) && !Restarts(rx, last)
    requires next == Step(rx, last) && (last.Data? ==> i in idx && next.delivered == Some(par.seqs[i]))
    requires Originals(st, next.recovered, NumbersAt(par.seqs, if last.Data? then Rest(idx, i) else idx))
    ensures OnceInv(next.rx, last.now) && AllAccounted(next.rx, par.seqs)
  {
    StepOnce(rx, last, clock);
    forall x | 0 <= x < |par.seqs| ensures Accounted(next.rx, par.seqs[x]) {
      if x in idx {
        HandedOn(st, next, par.seqs, idx, last.Data?, i, x);
      }
    }
  }

  /** A restart-free run of the stream, from any state that is sound for it. */
  lemma {:induction false} RunOneStream(st: Stream, rx: Rx, es: seq<Event>, clock: nat)
    requires OnceInv(rx, clock) && SoundInv(st, rx) && IndexInv(rx)
    requires RegularRun(rx, es, clock) && RestartFree(rx, es) && forall j :: 0 <= j < |es| ==> Sent(st, es[j])
    ensures OnceInv(RunTo(rx, es), ClockOf(es, clock)) && Keeps(rx, RunTo(rx, es))
    ensures SoundInv(st, RunTo(rx, es)) && IndexInv(RunTo(rx, es))
  {
    RunKeeps(rx, es, clock);
    if es != [] {
      var n := |es| - 1;
      var before := RunTo(rx, es[..n]);
      RunOneStream(st, rx, es[..n], clock);
      BaseSound(st, before, es[n]);
      StepSound(st, before, es[n]);
      StepIndex(before, es[n]);
    }
  }

  lemma StaysComplete(st: Stream, rx: Rx, es: seq<Event>, later: Rx, clock: nat, k: Kind, par: Parity, now: nat,
                      oldest: nat)
    requires OnceInv(rx, clock) && SoundInv(st, rx) && IndexInv(rx) && AllAccounted(rx, par.seqs)
    requires RegularRun(rx, es, clock) && RestartFree(rx, es) && forall j :: 0 <= j < |es| ==> Sent(st, es[j])
    requires later == RunTo(rx, es) && SentShare(st, par.seqs[0], k, par) && !Resets(later, Highest(par.seqs))
    ensures TryRecover(later, k, par, now, oldest).1 == OutComplete
  {
    RunOneStream(st, rx, es, clock);
    CompleteStays(st, rx, later, NoteSeq(later, Highest(par.seqs)), k, par, ClockOf(es, clock), now, oldest);
  }

  lemma CompletedState(st: Stream, rx: Rx, k: Kind, par: Parity, idx: seq<nat>, clock: nat, last: Event, i: nat,
                       next: Next)
    requires Pends(rx, k, par, idx) && StreamInv(st, rx, clock) && rx.parityCount >= 2
    requires SentShare(st, par.seqs[0], k, par) && Ends(st, last, k, par, i) && (last.Data? ==> i in idx)
    requires clock <= last.now && !Restarts(rx, last) && !AnyHandled(Judged(rx, last), par.seqs) && next == Step(rx, last)
    ensures OnceInv(next.rx, last.now) && SoundInv(st, next.rx) && IndexInv(next.rx) && AllAccounted(next.rx, par.seqs)
  {
    EndsWait(st, rx, k, par, idx, clock, last, i);
    PendingDistinct(rx, k, par, idx);
    NowAccounted(st, rx, k, par, idx, clock, last, i, next);
    BaseSound(st, rx, last);
    StepSound(st, rx, last);
    StepIndex(rx, last);
  }

  /** And once completed it stays so: after a whole wait and any restart-free run of the stream,
      every share of the group is answered with "already complete". */
  lemma GroupStaysComplete(st: Stream, parityCount: nat, start: nat, pre: seq<Event>, k: Kind, par: Parity, now: nat,
                           oldest: nat, es: seq<Event>, last: Event, i: nat, rx: Rx, base: Rx, rx1: Rx, rx2: Rx, idx: seq<nat>,
                           done: Rx, more: seq<Event>, later: Rx, other: Kind, share: Parity, at: nat, victim: nat)
    requires WholeWait(st, parityCount, start, pre, k, par, now, oldest, es, last, i, rx, base, rx1, rx2, idx)
    requires done == Step(rx2, last).rx && later == RunTo(done, more)
    requires RegularRun(done, more, last.now) && RestartFree(done, more) && (forall j :: 0 <= j < |more| ==> Sent(st, more[j]))
    requires SentShare(st, par.seqs[0], other, share) && share.seqs == par.seqs && !Resets(later, Highest(par.seqs))
    ensures TryRecover(later, other, share, at, victim).1 == OutComplete
  {
    WaitPends(st, parityCount, start, pre, k, par, now, oldest, es, last, i, rx, base, rx1, rx2, idx);
    CompletedState(st, rx2, k, par, idx, ClockOf(es, now), last, i, Step(rx2, last));
    StaysComplete(st, done, more, later, last.now, other, share, at, victim);
  }
}
