/** No parked group is lost from the books: each one is still parked, was answered, was counted as
    given up, or was reported so by a tick. And the parking never holds more than 512 groups. */
module FecAccounts {
  import opened Bytes
  import opened Common
  import opened FecGroup
  import opened FecReceiver
  import opened FecSafety
  import opened FecParking
  import opened FecRuns

  // ----- map sizes

  lemma SizeWithout<V>(m: map<nat, V>, k: nat)
    ensures |m - {k}| == |m| - if k in m then 1 else 0
  {
    if k in m {
      assert (m - {k}).Keys == m.Keys - {k};
      assert |(m - {k}).Keys| == |m.Keys| - 1;
    } else {
      assert m - {k} == m;
    }
  }

  lemma SizeWith<V>(m: map<nat, V>, k: nat, v: V)
    ensures |m[k := v]| == |m| + if k in m then 0 else 1
  {
    assert m[k := v].Keys == m.Keys + {k};
    assert |m[k := v].Keys| == |m.Keys| + if k in m then 0 else 1;
  }

  lemma SizeWithoutAll<V>(m: map<nat, V>, ks: set<nat>)
    requires ks <= m.Keys
    ensures |m - ks| + |ks| == |m|
  {
    assert (m - ks).Keys == m.Keys - ks;
    assert |(m - ks).Keys| == |m.Keys| - |ks|;
  }

  // ----- what enters and leaves the parking

  /** Groups parked plus groups given up and not yet reported. */
  ghost function Open(rx: Rx): nat {
    |rx.parked| + rx.givenUp
  }

  lemma DropOpen(rx: Rx, key: nat)
    ensures Open(DropParked(rx, key)) == Open(rx) - if key in rx.parked then 1 else 0
    ensures key !in DropParked(rx, key).parked
  {
    SizeWithout(rx.parked, key);
  }

  /** Parking a group that is not parked counts it once; an evicted group moves to the count. */
  lemma ParkOpen(rx: Rx, key: nat, shares: Shares, missing: seq<nat>, at: nat, oldest: nat)
    requires key !in rx.parked && (|rx.parked| >= 512 ==> oldest in rx.parked) && |rx.parked| <= 512
    ensures var rx' := Park(rx, key, shares, missing, at, oldest); Open(rx') == Open(rx) + 1 && |rx'.parked| <= 512
  {
    var room := MakeRoom(rx, oldest);
    SizeWithout(rx.parked, oldest);
    SizeWith(room.parked, key, ParkedGroup(at, shares, missing));
  }

  /** The verdict on the shares says that the group waits. */
  ghost predicate Waits(rx: Rx, shares: Shares) {
    Judge(rx, shares).NeedMore?
  }

  lemma EvaluateOpen(rx: Rx, shares: Shares, now: nat)
    ensures Evaluate(rx, shares, now).0.parked == rx.parked && Evaluate(rx, shares, now).0.givenUp == rx.givenUp
  {
    if Judge(rx, shares).Recovered? {
      AdmitAllSameParked(rx, Judge(rx, shares).items, now);
    }
  }

  lemma SettleOpen(rx: Rx, key: nat, shares: Shares, now: nat, oldest: nat)
    requires key !in rx.parked && (|rx.parked| >= 512 ==> oldest in rx.parked) && |rx.parked| <= 512
    ensures var (rx', out) := Settle(rx, key, shares, now, oldest);
            && Open(rx') == Open(rx) + (if out == OutPending then 1 else 0) && |rx'.parked| <= 512
            && (out == OutPending <==> key in rx'.parked)
  {
    EvaluateOpen(rx, shares, now);
    if Waits(rx, shares) {
      ParkOpen(rx, key, shares, Judge(rx, shares).missing, now, oldest);
    }
  }

  /** A revisited group is parked again, answered, or given up, which is counted. */
  lemma RevisitOpen(rx: Rx, key: nat, g: ParkedGroup, now: nat, oldest: nat)
    requires key !in rx.parked && |rx.parked| < 512
    ensures var rx', e := Revisit(rx, key, g, now, oldest).0, Judge(rx, g.shares);
            Open(rx') == Open(rx) + (if e.NeedMore? || e.Unrecoverable? then 1 else 0) && |rx'.parked| <= 512
  {
    EvaluateOpen(rx, g.shares, now);
    if Waits(rx, g.shares) {
      ParkOpen(rx, key, g.shares, Judge(rx, g.shares).missing, g.at, oldest);
    }
  }

  // ----- events

  /** The event parks a group that was not parked before. */
  ghost predicate Pends(rx: Rx, e: Event) {
    && e.ParityShare? && WellFormed(e.parity) && e.parity.seqs[0] !in rx.parked
    && TryRecover(rx, e.kind, e.parity, e.now, e.oldest).1 == OutPending
  }

  /** The group a late frame brings up once more, if any. */
  ghost predicate Reopens(mid: Rx, s: nat) {
    s in mid.parkedBySeq && mid.parkedBySeq[s] in mid.parked
  }

  /** The state in which that group is judged: the frame admitted, the group off the parking. */
  ghost function Reopened(mid: Rx, s: nat): Rx
    requires Reopens(mid, s)
  {
    DropParked(mid.(parkedBySeq := mid.parkedBySeq - {s}), mid.parkedBySeq[s])
  }

  /** The event answers a parked group: its next share does, with any verdict but to wait on; or a
      late frame recovers or completes it. */
  ghost predicate Answers(rx: Rx, e: Event) {
    match e
    case Data(s, body, now, _) =>
      var base := NoteSeq(rx, s);
      var mid := Admit(base, (s, body), now);
      !Seen(base, s) && Reopens(mid, s)
      && (var v := Judge(Reopened(mid, s), mid.parked[mid.parkedBySeq[s]].shares); v.Recovered? || v.AlreadyComplete?)
    case ParityShare(k, par, now, oldest) =>
      WellFormed(par) && par.seqs[0] in rx.parked && TryRecover(rx, k, par, now, oldest).1 != OutPending
    case Maintenance(_) => false
  }

  ghost function Count(b: bool): nat {
    if b then 1 else 0
  }

  /** What a tick reports as given up. */
  ghost function Reports(rx: Rx, e: Event): nat {
    if e.Maintenance? then Tick(rx, e.now).1 else 0
  }

  ghost predicate Evictable(rx: Rx, e: Event) {
    e.ParityShare? && WellFormed(e.parity) ==> ValidOldest(DropParked(rx, e.parity.seqs[0]), e.oldest)
  }

  /** The books balance over one event. */
  ghost predicate Balanced(rx: Rx, e: Event, rx': Rx) {
    && |rx'.parked| <= 512
    && Open(rx') + Count(Answers(rx, e)) + Reports(rx, e) == Open(rx) + Count(Pends(rx, e))
  }

  lemma NoteOpen(rx: Rx, s: nat)
    ensures NoteSeq(rx, s).parked == rx.parked && NoteSeq(rx, s).givenUp == rx.givenUp
  {
  }

  lemma TickBalance(rx: Rx, now: nat)
    requires |rx.parked| <= 512
    ensures Balanced(rx, Maintenance(now), Tick(rx, now).0)
  {
    ExpireSameParked(rx, now);
    SizeWithoutAll(rx.parked, StaleParked(rx, now));
  }

  lemma ShareBalance(rx: Rx, e: Event, base: Rx, key: nat)
    requires e.ParityShare? && WellFormed(e.parity) && |rx.parked| <= 512 && Evictable(rx, e)
    requires base == NoteSeq(rx, Highest(e.parity.seqs)) && key == e.parity.seqs[0]
    ensures Balanced(rx, e, Step(rx, e).rx)
  {
    NoteOpen(rx, Highest(e.parity.seqs));
    DropOpen(base, key);
    ShareIsSettled(rx, base, e.kind, e.parity, e.now, e.oldest);
    SettleOpen(DropParked(base, key), key, HeldShares(base, key).With(e.kind, e.parity), e.now, e.oldest);
  }

  lemma RecheckOpen(mid: Rx, s: nat, now: nat, oldest: nat)
    requires |mid.parked| <= 512
    ensures var rx' := Recheck(mid, s, now, oldest).0;
            && |rx'.parked| <= 512
            && Open(rx') == Open(mid) - Count(Reopens(mid, s)
                && (var v := Judge(Reopened(mid, s), mid.parked[mid.parkedBySeq[s]].shares);
                                                                  v.Recovered? || v.AlreadyComplete?))
  {
    if Reopens(mid, s) {
      var key := mid.parkedBySeq[s];
      DropOpen(mid.(parkedBySeq := mid.parkedBySeq - {s}), key);
      RevisitOpen(Reopened(mid, s), key, mid.parked[key], now, oldest);
    }
  }

  lemma DataBalance(rx: Rx, e: Event, base: Rx, mid: Rx)
    requires e.Data? && |rx.parked| <= 512 && base == NoteSeq(rx, e.seqno) && mid == Admit(base, (e.seqno, e.body), e.now)
    ensures Balanced(rx, e, Step(rx, e).rx)
  {
    NoteOpen(rx, e.seqno);
    if !Seen(base, e.seqno) {
      DataIsAdmitted(rx, base, e.seqno, e.body, e.now, e.oldest);
      RecheckOpen(mid, e.seqno, e.now, e.oldest);
    }
  }

  lemma StepBalance(rx: Rx, e: Event)
    requires |rx.parked| <= 512 && Evictable(rx, e)
    ensures Balanced(rx, e, Step(rx, e).rx)
  {
    match e
    case Data(s, body, now, _) => DataBalance(rx, e, NoteSeq(rx, s), Admit(NoteSeq(rx, s), (s, body), now));
    case ParityShare(_, par, _, _) =>
      if WellFormed(par) {
        ShareBalance(rx, e, NoteSeq(rx, Highest(par.seqs)), par.seqs[0]);
      }
    case Maintenance(now) => TickBalance(rx, now);
  }

  // ----- runs

  datatype Books = Books(pended: nat, answered: nat, reported: nat)

  ghost function Entered(b: Books, rx: Rx, e: Event): Books {
    Books(b.pended + Count(Pends(rx, e)), b.answered + Count(Answers(rx, e)), b.reported + Reports(rx, e))
  }

  /** How many groups a run parked, answered from the parking, and reported as given up. */
  ghost function BooksOf(rx: Rx, es: seq<Event>): Books {
    if es == [] then Books(0, 0, 0)
    else Entered(BooksOf(rx, es[..|es| - 1]), RunTo(rx, es[..|es| - 1]), es[|es| - 1])
  }

  ghost predicate EvictableRun(rx: Rx, es: seq<Event>) {
    es == [] || (EvictableRun(rx, es[..|es| - 1]) && Evictable(RunTo(rx, es[..|es| - 1]), es[|es| - 1]))
  }

  /** Every group parked is parked still, answered, given up, or reported as given up. */
  ghost predicate InBalance(b: Books, rx: Rx) {
    |rx.parked| <= 512 && b.pended == b.answered + b.reported + rx.givenUp + |rx.parked|
  }

  lemma NextBalance(b: Books, rx: Rx, e: Event, rx': Rx)
    requires InBalance(b, rx) && Balanced(rx, e, rx')
    ensures InBalance(Entered(b, rx, e), rx')
  {
  }

  /** In every run, whatever arrives: the books balance. */
  lemma {:induction false} RunBalance(parityCount: nat, start: nat, es: seq<Event>)
    requires EvictableRun(NewRx(parityCount, start), es)
    ensures InBalance(BooksOf(NewRx(parityCount, start), es), RunTo(NewRx(parityCount, start), es))
  {
    if es != [] {
      var n := |es| - 1;
      var before := RunTo(NewRx(parityCount, start), es[..n]);
      RunBalance(parityCount, start, es[..n]);
      StepBalance(before, es[n]);
      NextBalance(BooksOf(NewRx(parityCount, start), es[..n]), before, es[n], Step(before, es[n]).rx);
    }
  }

  // ----- who is evicted

  lemma SettleOthers(rx: Rx, key: nat, shares: Shares, now: nat, oldest: nat, other: nat)
    requires other in rx.parked && other != key
    ensures var (rx', out) := Settle(rx, key, shares, now, oldest);
            && (other !in rx'.parked <==> out == OutPending && |rx.parked| >= 512 && other == oldest)
            && (other in rx'.parked ==> rx'.parked[other] == rx.parked[other])
  {
    EvaluateOpen(rx, shares, now);
  }

  /** A share leaves every other parked group alone, unless it parks a new group while 512 are
      parked: then exactly the oldest makes room. */
  lemma EvictsIff(rx: Rx, k: Kind, par: Parity, now: nat, oldest: nat, other: nat)
    requires |par.seqs| == |par.lens| && par.seqs != [] && other in rx.parked && other != par.seqs[0]
        && |rx.parked| <= 512
    ensures var (rx', out) := TryRecover(rx, k, par, now, oldest);
            && (other !in rx'.parked <==> out == OutPending && par.seqs[0] !in rx.parked && |rx.parked| == 512 && other == oldest)
            && (other in rx'.parked ==> rx'.parked[other] == rx.parked[other])
  {
    var base, key := NoteSeq(rx, Highest(par.seqs)), par.seqs[0];
    NoteOpen(rx, Highest(par.seqs));
    SizeWithout(base.parked, key);
    ShareIsSettled(rx, base, k, par, now, oldest);
    SettleOthers(DropParked(base, key), key, HeldShares(base, key).With(k, par), now, oldest, other);
  }
}
