/** Liveness of parked groups: as long as it is parked and its other members are cached, a
    group is completed by the very next frame or share it was waiting for; once complete it
    stays complete. */
module FecCompletion {
  import opened Bytes
  import opened FecGroup
  import opened FecReceiver
  import opened FecRecovery
  import opened FecSafety
  import opened FecParking
  import opened FecRuns
  import opened FecTracking
  import opened FecOnce
  import opened FecSoundness

  ghost predicate InGroup(st: Stream, k: nat, s: nat) {
    k in st.groups && s in st.groups[k]
  }

  /** Groups share no member, as when a sender numbers its frames. */
  ghost predicate Disjoint(st: Stream) {
    forall k: nat, l: nat, s: nat :: InGroup(st, k, s) && InGroup(st, l, s) ==> k == l
  }

  /** Parked group `k` waits for member `s`. */
  ghost predicate Waits(rx: Rx, k: nat, s: nat) {
    k in rx.parked && s in rx.parked[k].missing
  }

  /** Every member a parked group waits for leads back to it. */
  ghost predicate WaitInv(st: Stream, rx: Rx) {
    forall k: nat, s: nat :: Waits(rx, k, s) ==>
      InGroup(st, k, s) && s in rx.parkedBySeq && rx.parkedBySeq[s] == k
  }

  lemma DropWait(st: Stream, rx: Rx, key: nat)
    requires WaitInv(st, rx)
    ensures WaitInv(st, DropParked(rx, key))
  {
    var rx' := DropParked(rx, key);
    forall k: nat, s: nat | Waits(rx', k, s)
      ensures InGroup(st, k, s) && s in rx'.parkedBySeq && rx'.parkedBySeq[s] == k
    {
      assert Waits(rx, k, s);
      assert Waits(rx, key, s) ==> k == key;
    }
  }

  lemma RoomWait(st: Stream, rx: Rx, oldest: nat)
    requires WaitInv(st, rx)
    ensures WaitInv(st, MakeRoom(rx, oldest))
  {
    if |rx.parked| >= MAX_PARKED_GROUPS {
      DropWait(st, rx, oldest);
      SameWait(st, DropParked(rx, oldest), MakeRoom(rx, oldest));
    }
  }

  lemma ParkWait(st: Stream, rx: Rx, key: nat, shares: Shares, missing: seq<nat>, at: nat, oldest: nat)
    requires WaitInv(st, rx) && Disjoint(st) && key !in rx.parked
    requires forall s: nat :: s in missing ==> InGroup(st, key, s)
    ensures WaitInv(st, Park(rx, key, shares, missing, at, oldest))
  {
    RoomWait(st, rx, oldest);
    var room := MakeRoom(rx, oldest);
    var rx' := Park(rx, key, shares, missing, at, oldest);
    forall k: nat, s: nat | Waits(rx', k, s)
      ensures InGroup(st, k, s) && s in rx'.parkedBySeq && rx'.parkedBySeq[s] == k
    {
      if k != key {
        assert Waits(room, k, s);
      }
    }
  }

  lemma SameWait(st: Stream, rx: Rx, rx': Rx)
    requires WaitInv(st, rx) && rx'.parked == rx.parked && rx'.parkedBySeq == rx.parkedBySeq
    ensures WaitInv(st, rx')
  {
    forall k: nat, s: nat | Waits(rx', k, s)
      ensures InGroup(st, k, s) && s in rx'.parkedBySeq && rx'.parkedBySeq[s] == k
    {
      assert Waits(rx, k, s);
    }
  }

  lemma EvaluateWait(st: Stream, rx: Rx, key: nat, shares: Shares, now: nat)
    requires WaitInv(st, rx)
    ensures WaitInv(st, Evaluate(rx, shares, now).0) && Evaluate(rx, shares, now).0.parked == rx.parked
  {
    var e := Judge(rx, shares);
    if e.Recovered? {
      AdmitAllSameParked(rx, e.items, now);
      SameWait(st, rx, AdmitAll(rx, e.items, now));
    }
  }

  lemma WaitedAreMembers(st: Stream, rx: Rx, key: nat, shares: Shares)
    requires SentShares(st, key, shares) && Judge(rx, shares).NeedMore?
    ensures forall s: nat :: s in Judge(rx, shares).missing ==> InGroup(st, key, s)
  {
  }

  lemma SettleWait(st: Stream, rx: Rx, key: nat, shares: Shares, now: nat, oldest: nat)
    requires WaitInv(st, rx) && Disjoint(st) && SentShares(st, key, shares) && key !in rx.parked
    ensures WaitInv(st, Settle(rx, key, shares, now, oldest).0)
  {
    EvaluateWait(st, rx, key, shares, now);
    if Judge(rx, shares).NeedMore? {
      WaitedAreMembers(st, rx, key, shares);
      ParkWait(st, rx, key, shares, Judge(rx, shares).missing, now, oldest);
    }
  }

  lemma RevisitWait(st: Stream, rx: Rx, key: nat, g: ParkedGroup, now: nat, oldest: nat)
    requires WaitInv(st, rx) && Disjoint(st) && SentShares(st, key, g.shares) && key !in rx.parked
    ensures WaitInv(st, Revisit(rx, key, g, now, oldest).0)
  {
    var (rx', e) := Evaluate(rx, g.shares, now);
    match e
    case NeedMore(missing) =>
      WaitedAreMembers(st, rx, key, g.shares);
      ParkWait(st, rx, key, g.shares, missing, g.at, oldest);
    case Unrecoverable =>
      SameWait(st, rx, rx.(givenUp := rx.givenUp + 1));
    case Recovered(_) =>
      EvaluateWait(st, rx, key, g.shares, now);
    case AlreadyComplete =>
  }

  lemma RecheckWait(st: Stream, rx: Rx, s: nat, now: nat, oldest: nat)
    requires WaitInv(st, rx) && Disjoint(st) && SoundInv(st, rx) && IndexInv(rx)
    ensures WaitInv(st, Recheck(rx, s, now, oldest).0)
  {
    if s in rx.parkedBySeq {
      var key := rx.parkedBySeq[s];
      var off := DropParked(rx.(parkedBySeq := rx.parkedBySeq - {s}), key);
      assert Waits(rx, key, s);
      OffWait(st, rx, off, key, s);
      OwnGroup(st, rx, key);
      RevisitWait(st, off, key, rx.parked[key], now, oldest);
    }
  }

  lemma ExpireWait(st: Stream, rx: Rx, now: nat)
    requires WaitInv(st, rx)
    ensures WaitInv(st, ExpireParked(rx, now))
  {
    var rx', stale := ExpireParked(rx, now), StaleParked(rx, now);
    forall k: nat, s: nat | Waits(rx', k, s)
      ensures InGroup(st, k, s) && s in rx'.parkedBySeq && rx'.parkedBySeq[s] == k
    {
      assert Waits(rx, k, s);
      forall l | l in stale && s in rx.parked[l].missing ensures false {
        assert Waits(rx, l, s);
      }
    }
  }

  lemma TickWait(st: Stream, rx: Rx, now: nat)
    requires WaitInv(st, rx)
    ensures WaitInv(st, Tick(rx, now).0)
  {
    ExpireSameParked(rx, now);
    SameWait(st, rx, ExpirePayloads(rx, now));
    ExpireWait(st, ExpirePayloads(rx, now), now);
    TickFields(rx, now);
    SameWait(st, ExpireParked(ExpirePayloads(rx, now), now), Tick(rx, now).0);
  }

  lemma NoteWait(st: Stream, rx: Rx, s: nat)
    requires WaitInv(st, rx)
    ensures WaitInv(st, NoteSeq(rx, s))
  {
    SameWait(st, rx, NoteSeq(rx, s));
  }

  lemma ObserveWait(st: Stream, base: Rx, f: Frame, now: nat, oldest: nat)
    requires WaitInv(st, base) && SoundInv(st, base) && IndexInv(base) && Disjoint(st)
    requires f.0 in st.frames && st.frames[f.0] == f.1
    ensures WaitInv(st, Recheck(Admit(base, f, now), f.0, now, oldest).0)
    ensures WaitInv(st, Admit(base, f, now))
  {
    var rx2 := Admit(base, f, now);
    InsertSame(MarkSeen(base, f.0, now), f, now);
    SameWait(st, base, rx2);
    AdmitFaithful(st.frames, base, f, now);
    RecheckWait(st, rx2, f.0, now, oldest);
  }

  /** Every event keeps the waiting index complete. */
  lemma StepWait(st: Stream, rx: Rx, e: Event)
    requires WaitInv(st, rx) && Disjoint(st) && SoundInv(st, Base(rx, e)) && Sent(st, e) && IndexInv(rx)
    ensures WaitInv(st, Step(rx, e).rx)
  {
    var base := Base(rx, e);
    match e
    case Data(s, body, now, oldest) =>
      NoteWait(st, rx, s);
      ObserveWait(st, base, (s, body), now, oldest);
    case ParityShare(k, par, now, oldest) =>
      if WellFormed(par) {
        var key := par.seqs[0];
        NoteWait(st, rx, Highest(par.seqs));
        DropWait(st, base, key);
        MergeSent(st, base, k, par);
        SettleWait(st, DropParked(base, key), key, HeldShares(base, key).With(k, par), now, oldest);
      }
    case Maintenance(now) =>
      TickWait(st, rx, now);
  }

  // ----- completion

  /** Everything a reachable state satisfies. */
  ghost predicate FullInv(st: Stream, rx: Rx, clock: nat) {
    RxInv(rx, clock) && SoundInv(st, rx) && WaitInv(st, rx)
  }

  /** The state once a Data frame of the stream is marked and cached. */
  lemma AdmittedFull(st: Stream, rx: Rx, base: Rx, rx2: Rx, f: Frame, clock: nat, now: nat)
    requires FullInv(st, rx, clock) && clock <= now && (Resets(rx, f.0) ==> rx.parked == map[])
    requires base == NoteSeq(rx, f.0) && !Seen(base, f.0) && rx2 == Admit(base, f, now)
    requires f.0 in st.frames && st.frames[f.0] == f.1
    ensures FullInv(st, rx2, now) && Accounted(rx2, f.0) && SameParked(rx, rx2)
  {
    NoteInv(rx, f.0, clock);
    AdmitKeeps(base, rx2, f, clock, now);
    AdmittedSound(st, rx, base, rx2, f, now);
  }

  lemma AdmittedSound(st: Stream, rx: Rx, base: Rx, rx2: Rx, f: Frame, now: nat)
    requires SoundInv(st, rx) && WaitInv(st, rx) && base == NoteSeq(rx, f.0) && rx2 == Admit(base, f, now)
    requires f.0 in st.frames && st.frames[f.0] == f.1
    ensures SoundInv(st, rx2) && WaitInv(st, rx2) && SameParked(rx, rx2)
  {
    AdmitFaithful(st.frames, base, f, now);
    InsertSame(MarkSeen(base, f.0, now), f, now);
    SameWait(st, rx, rx2);
  }

  /** The state in which the group that waited for `t` is looked at again. */
  lemma TakenOff(st: Stream, rx: Rx, off: Rx, key: nat, t: nat, clock: nat)
    requires FullInv(st, rx, clock) && Accounted(rx, t) && t in rx.parkedBySeq && key == rx.parkedBySeq[t]
    requires off == DropParked(rx.(parkedBySeq := rx.parkedBySeq - {t}), key)
    ensures FullInv(st, off, clock) && SameTracking(rx, off) && Accounted(off, t)
    ensures key in rx.parked && off.parked == rx.parked - {key}
    ensures var g := rx.parked[key]; GroupInv(off, g) && t in g.missing && SentShares(st, key, g.shares)
  {
    var rx1 := rx.(parkedBySeq := rx.parkedBySeq - {t});
    assert Waits(rx, key, t);
    OwnGroup(st, rx, key);
    GroupsWithoutEntry(rx, rx1);
    TakeOff(rx, rx1, key, clock);
    OffWait(st, rx, off, key, t);
  }

  lemma OffWait(st: Stream, rx: Rx, off: Rx, key: nat, t: nat)
    requires SoundInv(st, rx) && WaitInv(st, rx) && Waits(rx, key, t)
    requires off == DropParked(rx.(parkedBySeq := rx.parkedBySeq - {t}), key)
    ensures SoundInv(st, off) && WaitInv(st, off)
  {
    DropWait(st, rx, key);
    assert off.parkedBySeq == DropParked(rx, key).parkedBySeq;
    SameWait(st, DropParked(rx, key), off);
  }

  lemma SameState(rx: Rx, rx': Rx, s: nat)
    requires SameTracking(rx, rx')
    ensures StateOf(rx', s) == StateOf(rx, s)
  {
  }

  lemma {:induction false} SameMissing(rx: Rx, rx': Rx, seqs: seq<nat>, n: nat)
    requires SameTracking(rx, rx') && n <= |seqs|
    ensures MissingBelow(rx', seqs, n) == MissingBelow(rx, seqs, n)
  {
    if n > 0 {
      SameMissing(rx, rx', seqs, n - 1);
      SameState(rx, rx', seqs[n - 1]);
    }
  }

  lemma SameHandled(rx: Rx, rx': Rx, seqs: seq<nat>)
    requires SameTracking(rx, rx')
    ensures AnyHandled(rx', seqs) == AnyHandled(rx, seqs)
  {
    forall i | 0 <= i < |seqs| ensures StateOf(rx', seqs[i]) == StateOf(rx, seqs[i]) {
      SameState(rx, rx', seqs[i]);
    }
  }

  /** At most the two members a parked group lists are missing. */
  lemma AtMostTwo(rx: Rx, g: ParkedGroup, clock: nat)
    requires TrackInv(rx, clock) && GroupInv(rx, g)
    ensures var seqs := g.shares.Any().value.seqs; |MissingBelow(rx, seqs, |seqs|)| <= 2
  {
    var seqs := g.shares.Any().value.seqs;
    var idx := MissingBelow(rx, seqs, |seqs|);
    if |idx| >= 3 {
      var x, y, z := seqs[idx[0]], seqs[idx[1]], seqs[idx[2]];
      MissingIffUnaccounted(rx, clock, x);
      MissingIffUnaccounted(rx, clock, y);
      MissingIffUnaccounted(rx, clock, z);
      TwoOfTwo(g.missing, x, y);
    }
  }

  /** At most one, once the other has arrived. */
  lemma AtMostOne(rx: Rx, g: ParkedGroup, s: nat, clock: nat)
    requires TrackInv(rx, clock) && GroupInv(rx, g) && s in g.missing && Accounted(rx, s)
    ensures var seqs := g.shares.Any().value.seqs; |MissingBelow(rx, seqs, |seqs|)| <= 1
  {
    var seqs := g.shares.Any().value.seqs;
    var idx := MissingBelow(rx, seqs, |seqs|);
    if |idx| >= 2 {
      var x, y := seqs[idx[0]], seqs[idx[1]];
      MissingIffUnaccounted(rx, clock, x);
      MissingIffUnaccounted(rx, clock, y);
      TwoOfTwo(g.missing, x, y);
    }
  }

  /** What a look at the group's shares recovers, when no member has been forgotten. */
  lemma RevisitCompletes(st: Stream, rx: Rx, key: nat, g: ParkedGroup, s: nat, clock: nat, now: nat, oldest: nat)
    requires TrackInv(rx, clock) && SoundInv(st, rx) && GroupInv(rx, g) && s in g.missing && Accounted(rx, s)
    requires SentShares(st, key, g.shares) && !AnyHandled(rx, st.groups[key])
    ensures Covers(st.frames, st.groups[key])
    ensures Revisit(rx, key, g, now, oldest).1
         == FramesAt(st.frames, st.groups[key], MissingBelow(rx, st.groups[key], |st.groups[key]|))
  {
    SentAreGenuine(st, key, g.shares);
    JudgeKeepsPromise(rx, g.shares, st.frames);
    LackingIsMissing(rx, st.groups[key], |st.groups[key]|);
    LostIsHandled(rx, st.groups[key]);
    AtMostOne(rx, g, s, clock);
    assert g.shares.Any().value.seqs == st.groups[key];
  }

  /** Either missing member completes a parked group: the frame is delivered, and whatever is
      then still missing is recovered with it. */
  lemma LateMemberCompletes(st: Stream, rx: Rx, base: Rx, rx2: Rx, key: nat, m: nat, clock: nat, now: nat, oldest: nat)
    requires FullInv(st, rx, clock) && clock <= now && Waits(rx, key, m)
    requires base == NoteSeq(rx, m) && !Resets(rx, m) && !Seen(base, m)
    requires m in st.frames && rx2 == Admit(base, (m, st.frames[m]), now)
    requires InGroup(st, key, m) && !AnyHandled(rx2, st.groups[key])
    ensures Covers(st.frames, st.groups[key])
    ensures var o := ObserveData(rx, m, st.frames[m], now, oldest);
            && o.deliver
            && o.late == FramesAt(st.frames, st.groups[key], MissingBelow(rx2, st.groups[key], |st.groups[key]|))
  {
    AdmittedFull(st, rx, base, rx2, (m, st.frames[m]), clock, now);
    assert Waits(rx2, key, m);
    DataIsAdmitted(rx, base, m, st.frames[m], now, oldest);
    RecheckCompletes(st, rx2, key, m, now, oldest);
  }

  lemma RecheckCompletes(st: Stream, rx: Rx, key: nat, m: nat, now: nat, oldest: nat)
    requires FullInv(st, rx, now) && Waits(rx, key, m) && Accounted(rx, m)
    requires key in st.groups && !AnyHandled(rx, st.groups[key])
    ensures Covers(st.frames, st.groups[key]) && |rx.parked| > 0
    ensures Recheck(rx, m, now, oldest).1
         == FramesAt(st.frames, st.groups[key], MissingBelow(rx, st.groups[key], |st.groups[key]|))
  {
    var off := DropParked(rx.(parkedBySeq := rx.parkedBySeq - {m}), key);
    TakenOff(st, rx, off, key, m, now);
    SameMissing(rx, off, st.groups[key], |st.groups[key]|);
    SameHandled(rx, off, st.groups[key]);
    RevisitCompletes(st, off, key, rx.parked[key], m, now, now, oldest);
  }

  function OutcomeOf(e: Eval): Outcome {
    match e
    case Recovered(items) => OutRecovered(items)
    case AlreadyComplete => OutComplete
    case Unrecoverable => OutUnrecoverable
    case NeedMore(_) => OutPending
  }

  lemma SettleOutcome(rx: Rx, key: nat, shares: Shares, now: nat, oldest: nat)
    ensures var (rx', out) := Settle(rx, key, shares, now, oldest);
            && out == OutcomeOf(Judge(rx, shares))
            && (out == OutPending ==>
              key in rx'.parked && rx'.parked[key] == ParkedGroup(now, shares, Judge(rx, shares).missing))
  {
  }

  lemma SamePromise(rx: Rx, off: Rx, shares: Shares, truth: Truth)
    requires SameTracking(rx, off)
    requires shares.Any().Some? && Covers(truth, shares.Any().value.seqs)
    ensures Promised(off, shares, truth) == Promised(rx, shares, truth)
  {
    var seqs := shares.Any().value.seqs;
    SameLacking(rx, off, seqs, |seqs|);
    SameLost(rx, off, seqs);
  }

  lemma SameOutstanding(rx: Rx, rx': Rx, s: nat)
    requires SameTracking(rx, rx')
    ensures Outstanding(rx', s) == Outstanding(rx, s)
  {
  }

  lemma {:induction false} SameLacking(rx: Rx, rx': Rx, seqs: seq<nat>, n: nat)
    requires SameTracking(rx, rx') && n <= |seqs|
    ensures Lacking(rx', seqs, n) == Lacking(rx, seqs, n)
  {
    if n > 0 {
      SameLacking(rx, rx', seqs, n - 1);
      SameOutstanding(rx, rx', seqs[n - 1]);
    }
  }

  lemma SameLost(rx: Rx, rx': Rx, seqs: seq<nat>)
    requires SameTracking(rx, rx')
    ensures Lost(rx', seqs) == Lost(rx, seqs)
  {
    forall i | 0 <= i < |seqs| ensures Outstanding(rx', seqs[i]) == Outstanding(rx, seqs[i]) {
      SameOutstanding(rx, rx', seqs[i]);
    }
  }

  /** The answer to a share is the one promised for the state before any parking. */
  lemma ShareOutcome(st: Stream, rx: Rx, base: Rx, k: Kind, par: Parity, shares: Shares, now: nat, oldest: nat)
    requires base == NoteSeq(rx, Highest(par.seqs)) && shares == HeldShares(base, par.seqs[0]).With(k, par)
    requires SoundInv(st, base) && SentShare(st, par.seqs[0], k, par)
    ensures shares.Any().Some? && shares.Any().value.seqs == par.seqs && Covers(st.frames, par.seqs)
    ensures TryRecover(rx, k, par, now, oldest).1 == OutcomeOf(Promised(base, shares, st.frames))
  {
    var key := par.seqs[0];
    var off := DropParked(base, key);
    MergeSent(st, base, k, par);
    SentAreGenuine(st, key, shares);
    SharesList(st, key, shares);
    ShareIsSettled(rx, base, k, par, now, oldest);
    SettleOutcome(off, key, shares, now, oldest);
    JudgeKeepsPromise(off, shares, st.frames);
    SamePromise(base, off, shares, st.frames);
  }

  lemma SharesList(st: Stream, key: nat, shares: Shares)
    requires SentShares(st, key, shares)
    ensures shares.Any().value.seqs == st.groups[key] && Covers(st.frames, st.groups[key])
  {
  }

  lemma PromiseRecovers(rx: Rx, shares: Shares, truth: Truth)
    requires shares.p.Some? && shares.q.Some? && Covers(truth, shares.Any().value.seqs) && rx.parityCount >= 2
    requires var seqs := shares.Any().value.seqs;
             !AnyHandled(rx, seqs) && 0 < |MissingBelow(rx, seqs, |seqs|)| <= 2
    ensures var seqs := shares.Any().value.seqs;
            Promised(rx, shares, truth) == Recovered(FramesAt(truth, seqs, MissingBelow(rx, seqs, |seqs|)))
  {
    LackingIsMissing(rx, shares.Any().value.seqs, |shares.Any().value.seqs|);
    LostIsHandled(rx, shares.Any().value.seqs);
  }

  /** The group's other share completes it: both missing members, or the one that is left. */
  lemma OtherShareCompletes(st: Stream, rx: Rx, base: Rx, k: Kind, par: Parity, clock: nat, now: nat, oldest: nat)
    requires FullInv(st, rx, clock) && par.seqs[0] in rx.parked && rx.parityCount >= 2
    requires SentShare(st, par.seqs[0], k, par)
    requires base == NoteSeq(rx, Highest(par.seqs)) && !Resets(rx, Highest(par.seqs))
    requires var shares := HeldShares(rx, par.seqs[0]).With(k, par); shares.p.Some? && shares.q.Some?
    requires !AnyHandled(base, par.seqs) && MissingBelow(base, par.seqs, |par.seqs|) != []
    ensures TryRecover(rx, k, par, now, oldest).1
         == OutRecovered(FramesAt(st.frames, par.seqs, MissingBelow(base, par.seqs, |par.seqs|)))
  {
    var key, shares := par.seqs[0], HeldShares(base, par.seqs[0]).With(k, par);
    NoteInv(rx, Highest(par.seqs), clock);
    NoteSound(st, rx, Highest(par.seqs));
    ShareOutcome(st, rx, base, k, par, shares, now, oldest);
    ParkedLacksTwo(st, base, key, par.seqs, clock);
    PromiseRecovers(base, shares, st.frames);
  }

  lemma ParkedLacksTwo(st: Stream, rx: Rx, key: nat, seqs: seq<nat>, clock: nat)
    requires RxInv(rx, clock) && SoundInv(st, rx) && key in rx.parked && key in st.groups && st.groups[key] == seqs
    ensures |MissingBelow(rx, seqs, |seqs|)| <= 2
  {
    AtMostTwo(rx, rx.parked[key], clock);
    OwnGroup(st, rx, key);
    SharesList(st, key, rx.parked[key].shares);
  }

  /** A first share that finds two members missing and the others cached leaves its group
      pending, waiting for those two. */
  lemma FirstSharePends(st: Stream, rx: Rx, base: Rx, k: Kind, par: Parity, now: nat, oldest: nat)
    requires SoundInv(st, base) && par.seqs[0] !in base.parked && base.parityCount >= 2
    requires SentShare(st, par.seqs[0], k, par) && base == NoteSeq(rx, Highest(par.seqs))
    requires !AnyHandled(base, par.seqs) && |MissingBelow(base, par.seqs, |par.seqs|)| == 2
    ensures var (rx', out) := TryRecover(rx, k, par, now, oldest);
            && out == OutPending && par.seqs[0] in rx'.parked
            && rx'.parked[par.seqs[0]] == ParkedGroup(now, Shares(None, None).With(k, par),
                                                      SeqsAt(par.seqs, MissingBelow(base, par.seqs, |par.seqs|)))
  {
    var key, shares := par.seqs[0], HeldShares(base, par.seqs[0]).With(k, par);
    LackingIsMissing(base, par.seqs, |par.seqs|);
    LostIsHandled(base, par.seqs);
    ShareOutcome(st, rx, base, k, par, shares, now, oldest);
    ShareIsSettled(rx, base, k, par, now, oldest);
    assert DropParked(base, key) == base;
    SettleOutcome(base, key, shares, now, oldest);
  }

  /** A group whose members are all accounted for answers every further share, in any later
      state before a restart, with "already complete". */
  lemma CompleteStays(st: Stream, rx: Rx, later: Rx, base: Rx, k: Kind, par: Parity, clock: nat, now: nat, oldest: nat)
    requires Keeps(rx, later) && forall i :: 0 <= i < |par.seqs| ==> Accounted(rx, par.seqs[i])
    requires OnceInv(later, clock) && SoundInv(st, later) && SentShare(st, par.seqs[0], k, par)
    requires base == NoteSeq(later, Highest(par.seqs)) && !Resets(later, Highest(par.seqs))
    ensures TryRecover(later, k, par, now, oldest).1 == OutComplete
  {
    NoteOnce(later, Highest(par.seqs), clock);
    NoteSound(st, later, Highest(par.seqs));
    NoneMissing(base, par.seqs, clock);
    LackingIsMissing(base, par.seqs, |par.seqs|);
    ShareOutcome(st, later, base, k, par, HeldShares(base, par.seqs[0]).With(k, par), now, oldest);
  }

  lemma NoneMissing(rx: Rx, seqs: seq<nat>, clock: nat)
    requires CacheInv(rx, clock) && forall i :: 0 <= i < |seqs| ==> Accounted(rx, seqs[i])
    ensures MissingBelow(rx, seqs, |seqs|) == []
  {
    forall i | 0 <= i < |seqs| ensures !StateOf(rx, seqs[i]).Missing? {
      MissingIffUnaccounted(rx, clock, seqs[i]);
    }
  }
}
