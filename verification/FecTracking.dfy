/** What an event does to the tracking of frames: once its number is noted, it admits a list of
    frames, one after the other, and changes nothing else but the parking. */
module FecTracking {
  import opened Bytes
  import opened FecGroup
  import opened FecReceiver
  import opened FecSafety
  import opened FecParking
  import opened FecRuns

  /** The two states differ in the parking at most. */
  ghost predicate SameTracking(rx: Rx, rx': Rx) {
    rx' == rx.(parked := rx'.parked, parkedBySeq := rx'.parkedBySeq, givenUp := rx'.givenUp)
  }

  lemma MarkTracking(rx: Rx, rx': Rx, s: nat, now: nat)
    requires SameTracking(rx, rx')
    ensures SameTracking(MarkSeen(rx, s, now), MarkSeen(rx', s, now))
  {
  }

  lemma InsertTracking(rx: Rx, rx': Rx, f: Frame, now: nat)
    requires SameTracking(rx, rx')
    ensures SameTracking(InsertPayload(rx, f.0, f.1, now), InsertPayload(rx', f.0, f.1, now))
  {
  }

  lemma AdmitTracking(rx: Rx, rx': Rx, f: Frame, now: nat)
    requires SameTracking(rx, rx')
    ensures SameTracking(Admit(rx, f, now), Admit(rx', f, now))
  {
    MarkTracking(rx, rx', f.0, now);
    InsertTracking(MarkSeen(rx, f.0, now), MarkSeen(rx', f.0, now), f, now);
  }

  lemma {:induction false} AdmitAllTracking(rx: Rx, rx': Rx, items: seq<Frame>, now: nat)
    requires SameTracking(rx, rx')
    ensures SameTracking(AdmitAll(rx, items, now), AdmitAll(rx', items, now))
  {
    if items != [] {
      var n := |items| - 1;
      AdmitAllTracking(rx, rx', items[..n], now);
      AdmitTracking(AdmitAll(rx, items[..n], now), AdmitAll(rx', items[..n], now), items[n], now);
    }
  }

  /** One frame first, then the others. */
  lemma {:induction false} AdmitFirst(rx: Rx, f: Frame, items: seq<Frame>, now: nat)
    ensures AdmitAll(rx, [f] + items, now) == AdmitAll(Admit(rx, f, now), items, now)
  {
    var all := [f] + items;
    if items == [] {
      assert all == [f] && [f][..0] == [];
      assert AdmitAll(rx, [f][..0], now) == rx;
    } else {
      var n := |items| - 1;
      assert all[..|all| - 1] == [f] + items[..n] && all[|all| - 1] == items[n];
      AdmitFirst(rx, f, items[..n], now);
    }
  }

  ghost function Recoveries(out: Outcome): seq<Frame> {
    if out.OutRecovered? then out.items else []
  }

  lemma EvaluateTracking(rx: Rx, shares: Shares, now: nat)
    ensures var e := Judge(rx, shares);
            Evaluate(rx, shares, now).0 == AdmitAll(rx, if e.Recovered? then e.items else [], now)
  {
  }

  lemma SettleTracking(rx: Rx, key: nat, shares: Shares, now: nat, oldest: nat)
    ensures var (rx', out) := Settle(rx, key, shares, now, oldest);
            SameTracking(AdmitAll(rx, Recoveries(out), now), rx')
  {
    EvaluateTracking(rx, shares, now);
  }

  lemma RecheckTracking(rx: Rx, t: nat, now: nat, oldest: nat)
    ensures var (rx', late) := Recheck(rx, t, now, oldest); SameTracking(AdmitAll(rx, late, now), rx')
  {
    if t in rx.parkedBySeq && rx.parkedBySeq[t] in rx.parked {
      var key := rx.parkedBySeq[t];
      var off := DropParked(rx.(parkedBySeq := rx.parkedBySeq - {t}), key);
      EvaluateTracking(off, rx.parked[key].shares, now);
      AdmitAllTracking(rx, off, Recheck(rx, t, now, oldest).1, now);
    }
  }

  lemma DataTracking(rx: Rx, base: Rx, f: Frame, now: nat, oldest: nat)
    requires base == NoteSeq(rx, f.0) && !Seen(base, f.0)
    ensures var o := ObserveData(rx, f.0, f.1, now, oldest);
            o.deliver && SameTracking(AdmitAll(Admit(base, f, now), o.late, now), o.rx)
  {
    DataIsAdmitted(rx, base, f.0, f.1, now, oldest);
    RecheckTracking(Admit(base, f, now), f.0, now, oldest);
  }

  lemma ShareTracking(rx: Rx, base: Rx, k: Kind, par: Parity, now: nat, oldest: nat)
    requires base == NoteSeq(rx, Highest(par.seqs))
    ensures var (rx', out) := TryRecover(rx, k, par, now, oldest);
            SameTracking(AdmitAll(base, Recoveries(out), now), rx')
  {
    var key := par.seqs[0];
    var off, shares := DropParked(base, key), HeldShares(base, key).With(k, par);
    ShareIsSettled(rx, base, k, par, now, oldest);
    SettleTracking(off, key, shares, now, oldest);
    AdmitAllTracking(base, off, Recoveries(Settle(off, key, shares, now, oldest).1), now);
  }

  /** The frames an event hands on, in order: the one it delivers, then those it recovers. */
  ghost function Admitted(rx: Rx, e: Event): seq<Frame> {
    var next := Step(rx, e);
    (if e.Data? && next.delivered.Some? then [(e.seqno, e.body)] else []) + next.recovered
  }

  /** An event other than a tick admits the frames it hands on. */
  lemma StepTracking(rx: Rx, e: Event)
    requires !e.Maintenance?
    ensures SameTracking(AdmitAll(Base(rx, e), Admitted(rx, e), e.now), Step(rx, e).rx)
  {
    var base := Base(rx, e);
    match e
    case Data(s, body, now, oldest) =>
      if Seen(base, s) {
        assert Admitted(rx, e) == [];
      } else {
        DataTracking(rx, base, (s, body), now, oldest);
        AdmitFirst(base, (s, body), Step(rx, e).recovered, now);
      }
    case ParityShare(k, par, now, oldest) =>
      assert Admitted(rx, e) == Step(rx, e).recovered;
      if WellFormed(par) {
        ShareTracking(rx, base, k, par, now, oldest);
      }
  }

  // ----- the configured limits

  ghost predicate SameLimits(rx: Rx, rx': Rx) {
    rx'.parityCount == rx.parityCount && rx'.payloadTtl == rx.payloadTtl && rx'.seenGeneration == rx.seenGeneration
  }

  lemma StepLimits(rx: Rx, e: Event)
    ensures SameLimits(rx, Step(rx, e).rx)
  {
    if e.Maintenance? {
      ExpireSameParked(rx, e.now);
    } else {
      StepTracking(rx, e);
      AdmitAllSameParked(Base(rx, e), Admitted(rx, e), e.now);
    }
  }

  lemma {:induction false} RunLimits(rx: Rx, es: seq<Event>)
    ensures SameLimits(rx, RunTo(rx, es))
  {
    if es != [] {
      RunLimits(rx, es[..|es| - 1]);
      StepLimits(RunTo(rx, es[..|es| - 1]), es[|es| - 1]);
    }
  }
}
