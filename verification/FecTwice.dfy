/** A restart below a member of a parked group: a frame recovered twice. */
module FecTwice {
  import opened Bytes
  import opened FecGroup
  import opened FecReceiver
  import opened FecSafety
  import opened FecParking
  import opened FecRuns
  import opened FecOnce
  import opened FecOpenRuns
  import opened FecCompletion
  import opened FecRestart

  /** The share of two empty frames numbered `x` and `x + 1`. */
  function EmptyPair(x: nat): Parity {
    Parity([x, x + 1], [0, 0], [])
  }

  /** What matters of the state: the seen generations and the floor. */
  ghost predicate Tracks(rx: Rx, current: set<nat>, previous: set<nat>, floor: Option<nat>,
                         rotationHigh: Option<nat>, highest: nat) {
    && rx.current == current && rx.previous == previous && rx.floor == floor && rx.rotationHigh == rotationHigh
    && rx.highest == highest
  }

  ghost predicate WaitsForPair(rx: Rx, x: nat) {
    && rx.parked.Keys == {x} && rx.parked[x].shares == Shares(Some(EmptyPair(x)), None)
        && rx.parked[x].missing == [x, x + 1]
    && rx.parkedBySeq == map[x := x, x + 1 := x]
  }

  lemma {:induction false} StrippedEmpty(rx: Rx, seqs: seq<nat>, missing: seq<nat>, n: nat)
    requires n <= |seqs|
    requires forall i :: 0 <= i < n && i !in missing ==> seqs[i] in rx.payloads && rx.payloads[seqs[i]].body == []
    ensures Stripped(rx, P, [], seqs, missing, n) == Some([])
  {
    if n > 0 {
      StrippedEmpty(rx, seqs, missing, n - 1);
    }
  }

  lemma SecondMissing(r: seq<nat>)
    requires (forall j :: 0 <= j < |r| ==> r[j] < 2 && r[j] != 0) && (forall i, j :: 0 <= i < j < |r| ==> r[i] < r[j])
    requires 1 in r
    ensures r == [1]
  {
    assert Ascends(r, 0, 1);
  }

  lemma OnlySecond(rx: Rx, seqs: seq<nat>, r: seq<nat>)
    requires |seqs| == 2 && StateOf(rx, seqs[0]).Known? && StateOf(rx, seqs[1]).Missing?
    requires r == MissingBelow(rx, seqs, |seqs|)
    ensures r == [1] && !AnyHandled(rx, seqs)
  {
    forall j | 0 <= j < |r| ensures r[j] < 2 && r[j] != 0 {
      assert StateOf(rx, seqs[r[j]]).Missing?;
    }
    assert 1 in r;
    SecondMissing(r);
  }

  /** With the first frame cached and the second missing, the P share recovers the second. */
  lemma RecoversSecond(rx: Rx, par: Parity, n: nat, missing: seq<nat>)
    requires |par.seqs| == n == 2 && par.lens == [0, 0] && par.parity == [] && missing == [1]
    requires par.seqs[0] in rx.payloads && rx.payloads[par.seqs[0]].body == [] && StateOf(rx, par.seqs[1]).Missing?
    ensures Judge(rx, Shares(None, None).With(P, par)) == Recovered([(par.seqs[1], [])])
  {
    OnlySecond(rx, par.seqs, MissingBelow(rx, par.seqs, |par.seqs|));
    StrippedEmpty(rx, par.seqs, missing, n);
    OneReconstructed(rx, P, par, missing, missing[0], []);
  }

  lemma AdmittedBody(rx: Rx, f: Frame, clock: nat, now: nat)
    requires CacheInv(rx, clock) && clock <= now && !Seen(rx, f.0)
    ensures var rx' := Admit(rx, f, now); f.0 in rx'.payloads && rx'.payloads[f.0].body == f.1
  {
    AdmittedIsNewest(rx, f, clock, now);
  }

  lemma AdmitTracks(rx: Rx, f: Frame, now: nat, current: set<nat>)
    requires |rx.current| < 100 && current == rx.current + {f.0}
    ensures Tracks(Admit(rx, f, now), current, rx.previous, rx.floor, rx.rotationHigh, rx.highest)
    ensures SameParked(rx, Admit(rx, f, now))
  {
    InsertSame(MarkSeen(rx, f.0, now), f, now);
  }

  lemma PairRecovered(rx: Rx, off: Rx, x: nat, seen: set<nat>, now: nat)
    requires CacheInv(rx, now) && WaitsForPair(rx, x) && Tracks(rx, seen, {}, None, None, x)
    requires x + 1 !in seen && |seen| < 100 && x in rx.payloads && rx.payloads[x].body == []
    requires off == DropParked(rx.(parkedBySeq := rx.parkedBySeq - {x}), x)
    ensures var (rx', late) := Recheck(rx, x, now, 0);
            && late == [(x + 1, [])] && rx'.parked == map[] && rx'.parkedBySeq == map[]
            && Tracks(rx', seen + {x + 1}, {}, None, None, x)
  {
    TakenPair(rx, off, x);
    NotCached(rx, now, x + 1);
    RecoversSecond(off, EmptyPair(x), 2, [1]);
    AdmitTracks(off, (x + 1, []), now, seen + {x + 1});
    AllOfTwo(off, [(x + 1, [])], now);
  }

  lemma FirstDelivered(base: Rx, rx2: Rx, x: nat, seen: set<nat>, clock: nat, now: nat)
    requires CacheInv(base, clock) && clock <= now && WaitsForPair(base, x) && rx2 == Admit(base, (x, []), now)
    requires Tracks(base, seen, {}, None, None, x) && x !in seen && |seen| < 50
    ensures CacheInv(rx2, now) && WaitsForPair(rx2, x) && Tracks(rx2, seen + {x}, {}, None, None, x)
    ensures x in rx2.payloads && rx2.payloads[x].body == []
  {
    AdmitTracks(base, (x, []), now, seen + {x});
    AdmittedBody(base, (x, []), clock, now);
    AdmitCache(base, (x, []), clock, now);
  }

  /** The first member arrives and the second is recovered with it, ahead of the stream. */
  lemma RecoveredAhead(rx: Rx, base: Rx, x: nat, seen: set<nat>, clock: nat, now: nat, next: Next)
    requires CacheInv(rx, clock) && clock <= now && WaitsForPair(rx, x) && next == Step(rx, Data(x, [], now, 0))
    requires base == NoteSeq(rx, x) && Tracks(base, seen, {}, None, None, x) && x !in seen && x + 1 !in seen
        && |seen| < 50
    ensures next.recovered == [(x + 1, [])]
    ensures Tracks(next.rx, seen + {x} + {x + 1}, {}, None, None, x) && next.rx.parked == map[]
        && next.rx.parkedBySeq == map[]
  {
    NoteCache(rx, x, clock);
    var rx2 := Admit(base, (x, []), now);
    FirstDelivered(base, rx2, x, seen, clock, now);
    PairRecovered(rx2, DropParked(rx2.(parkedBySeq := rx2.parkedBySeq - {x}), x), x, seen + {x}, now);
    DataIsAdmitted(rx, base, x, [], now, 0);
  }

  lemma NotCached(rx: Rx, clock: nat, s: nat)
    requires CacheInv(rx, clock) && !Seen(rx, s)
    ensures s !in rx.payloads
  {
    if s in rx.payloads {
      PayloadsAreSeen(rx, clock, s);
    }
  }

  lemma TakenPair(rx: Rx, off: Rx, x: nat)
    requires WaitsForPair(rx, x)
    requires off == DropParked(rx.(parkedBySeq := rx.parkedBySeq - {x}), x)
    ensures off.parked == map[] && off.parkedBySeq == map[]
  {
  }

  lemma ParkedIsWaiting(base: Rx, rx': Rx, x: nat, shares: Shares, missing: seq<nat>, now: nat)
    requires base.parked == map[] && base.parkedBySeq == map[] && Tracks(base, {}, {}, None, None, x + 1)
    requires shares == Shares(Some(EmptyPair(x)), None) && missing == [x, x + 1]
    requires rx' == Park(base, x, shares, missing, now, 0)
    ensures WaitsForPair(rx', x) && Tracks(rx', {}, {}, None, None, x + 1)
  {
  }

  /** The share of an old stream is parked. */
  lemma PairParked(x: nat, par: Parity, parityCount: nat, start: nat, rx': Rx)
    requires parityCount >= 2 && par == EmptyPair(x) && rx' == TryRecover(NewRx(parityCount, start), P, par, start, 0).0
    ensures WaitsForPair(rx', x) && Tracks(rx', {}, {}, None, None, x + 1)
  {
    var base := NoteSeq(NewRx(parityCount, start), Highest(par.seqs));
    FirstParks(P, par, parityCount, start, base, rx');
    ParkedIsWaiting(base, rx', x, Shares(None, None).With(P, par), par.seqs, start);
  }

  lemma FrameAhead(rx: Rx, x: nat, now: nat, rx': Rx)
    requires WaitsForPair(rx, x) && Tracks(rx, {}, {}, None, None, x + 1)
    requires rx' == Step(rx, Data(x + 1 + SEQ_RESET_GAP, [], now, 0)).rx
    ensures WaitsForPair(rx', x) && rx'.highest == x + 1 + SEQ_RESET_GAP
  {
    FarAhead(rx, x + 1 + SEQ_RESET_GAP, [], now, rx');
  }

  /** The peer restarts with frame `s`, below the pair; the parked group stays. */
  lemma RestartsBelow(rx: Rx, x: nat, s: nat, now: nat, rx': Rx)
    requires s < x && WaitsForPair(rx, x) && rx.highest == x + 1 + SEQ_RESET_GAP
    requires rx' == Step(rx, Data(s, [], now, 0)).rx
    ensures WaitsForPair(rx', x) && Tracks(rx', {s}, {}, None, None, s)
  {
    var base := NoteSeq(rx, s);
    DataIsAdmitted(rx, base, s, [], now, 0);
    AdmitTracks(base, (s, []), now, {s});
  }

  /** A restart at `s` finds the pair ahead of it exactly when `s` is below its last member. */
  lemma PairIsAhead(rx: Rx, x: nat, s: nat)
    requires WaitsForPair(rx, x)
    ensures NoneAhead(rx, s) <==> x + 1 <= s
  {
    var seqs := rx.parked[x].shares.Any().value.seqs;
    assert seqs == [x, x + 1] && seqs[1] == x + 1;
  }

  lemma TickTracks(rx: Rx, now: nat, rx': Rx)
    requires now >= rx.rotatedAt + rx.seenGeneration && rx.parked == map[] && rx' == Step(rx, Maintenance(now)).rx
    ensures Tracks(rx', {}, rx.current, rx.rotationHigh, Some(rx.highest), rx.highest) && rx'.parked == map[]
  {
    ExpireSameParked(rx, now);
  }

  lemma FirstAgain(rx: Rx, x: nat, clock: nat, now: nat, rx': Rx)
    requires CacheInv(rx, clock) && clock <= now && rx.parked == map[] && Tracks(rx, {}, {}, Some(x), Some(x), x)
    requires rx' == Step(rx, Data(x, [], now, 0)).rx
    ensures Tracks(rx', {x}, {}, Some(x), Some(x), x) && rx'.parked == map[] && !Restarts(rx, Data(x, [], now, 0))
    ensures x in rx'.payloads && rx'.payloads[x].body == []
  {
    DataIsAdmitted(rx, rx, x, [], now, 0);
    AdmitTracks(rx, (x, []), now, {x});
    AdmittedBody(rx, (x, []), clock, now);
  }

  lemma SecondAgain(rx: Rx, x: nat, clock: nat, now: nat)
    requires CacheInv(rx, clock) && rx.parked == map[] && Tracks(rx, {x}, {}, Some(x), Some(x), x)
    requires x in rx.payloads && rx.payloads[x].body == []
    ensures var e := ParityShare(P, EmptyPair(x), now, 0); !Restarts(rx, e) && Step(rx, e).recovered == [(x + 1, [])]
  {
    var base := NoteSeq(rx, Highest(EmptyPair(x).seqs));
    NotCached(rx, clock, x + 1);
    RecoversSecond(base, EmptyPair(x), 2, [1]);
    UnparkedShare(rx, base, P, EmptyPair(x), now, [(x + 1, [])]);
  }

  /** A share of a group that is not parked recovers what it is judged to. */
  lemma UnparkedShare(rx: Rx, base: Rx, k: Kind, par: Parity, now: nat, items: seq<Frame>)
    requires base == NoteSeq(rx, Highest(par.seqs)) && par.seqs[0] !in base.parked
    requires Judge(base, Shares(None, None).With(k, par)) == Recovered(items)
    ensures Step(rx, ParityShare(k, par, now, 0)).recovered == items
  {
    ShareIsSettled(rx, base, k, par, now, 0);
    SettleOutcome(base, par.seqs[0], Shares(None, None).With(k, par), now, 0);
  }

  /** A restarted state in which the pair's first member is about to be delivered. */
  ghost predicate Ready(rx: Rx, x: nat, seen: set<nat>, clock: nat) {
    && WaitsForPair(rx, x) && CacheInv(rx, clock) && Tracks(NoteSeq(rx, x), seen, {}, None, None, x)
    && x !in seen && x + 1 !in seen && |seen| < 50
  }

  /** From start-up to the restart. */
  lemma UpToRestart(x: nat, par: Parity, parityCount: nat, start: nat, rx1: Rx, rx2: Rx)
    requires parityCount >= 2 && par == EmptyPair(x)
    requires rx1 == Step(NewRx(parityCount, start), ParityShare(P, par, start, 0)).rx
    requires rx2 == Step(rx1, Data(x + 1 + SEQ_RESET_GAP, [], start, 0)).rx
    ensures WaitsForPair(rx2, x) && rx2.highest == x + 1 + SEQ_RESET_GAP && CacheInv(rx2, start)
  {
    PairParked(x, par, parityCount, start, rx1);
    FrameAhead(rx1, x, start, rx2);
    CacheOfTwo(parityCount, start, ParityShare(P, par, start, 0), Data(x + 1 + SEQ_RESET_GAP, [], start, 0), rx1, rx2);
  }

  /** The state, restarted at `s`, in which the pair's first member is delivered. */
  lemma AtTheRestart(x: nat, s: nat, start: nat, rx2: Rx, rx3: Rx, seen: set<nat>)
    requires seen == (if s < x then {s} else {}) && s <= x && WaitsForPair(rx2, x)
        && rx2.highest == x + 1 + SEQ_RESET_GAP && CacheInv(rx2, start)
    requires rx3 == if s < x then Step(rx2, Data(s, [], start, 0)).rx else rx2
    ensures Ready(rx3, x, seen, start)
    ensures Restarts(rx2, Data(s, [], start, 0)) && !NoneAhead(rx2, s)
    ensures s < x ==> !Restarts(rx3, Data(x, [], start, 0))
  {
    PairIsAhead(rx2, x, s);
    if s < x {
      RestartsBelow(rx2, x, s, start, rx3);
      StepCache(rx2, Data(s, [], start, 0), start);
    }
  }

  lemma CacheOfTwo(parityCount: nat, start: nat, e1: Event, e2: Event, rx1: Rx, rx2: Rx)
    requires e1.now == e2.now == start && rx1 == Step(NewRx(parityCount, start), e1).rx && rx2 == Step(rx1, e2).rx
    ensures CacheInv(rx2, start)
  {
    assert SplitAt(NewRx(parityCount, start), 0);
    StepCache(NewRx(parityCount, start), e1, start);
    StepCache(rx1, e2, start);
  }

  /** The pair's second frame is recovered, forgotten, and recovered again. */
  lemma AfterTheRestart(x: nat, seen: set<nat>, start: nat, t: nat, u: nat, rx3: Rx, rx4: Rx, rx5: Rx, rx6: Rx, rx7: Rx)
    requires Ready(rx3, x, seen, start) && start <= t <= u
    requires rx4 == Step(rx3, Data(x, [], start, 0)).rx && rx5 == Step(rx4, Maintenance(t)).rx
    requires rx6 == Step(rx5, Maintenance(u)).rx && rx7 == Step(rx6, Data(x, [], u, 0)).rx
    requires t >= rx4.rotatedAt + rx4.seenGeneration && u >= rx5.rotatedAt + rx5.seenGeneration
    ensures Step(rx3, Data(x, [], start, 0)).recovered == [(x + 1, [])]
    ensures Step(rx7, ParityShare(P, EmptyPair(x), u, 0)).recovered == [(x + 1, [])]
    ensures !Restarts(rx6, Data(x, [], u, 0)) && !Restarts(rx7, ParityShare(P, EmptyPair(x), u, 0))
  {
    RecoveredAhead(rx3, NoteSeq(rx3, x), x, seen, start, start, Step(rx3, Data(x, [], start, 0)));
    TickTracks(rx4, t, rx5);
    TickTracks(rx5, u, rx6);
    StepCache(rx3, Data(x, [], start, 0), start);
    StepCache(rx4, Maintenance(t), start);
    StepCache(rx5, Maintenance(u), t);
    FirstAgain(rx6, x, u, u, rx7);
    StepCache(rx6, Data(x, [], u, 0), u);
    SecondAgain(rx7, x, u, u);
  }

  /** The other half of the law that nothing is recovered twice: for a parked pair and every
      number `s` below its last member, a restart at `s` can be followed by a run that recovers
      that member twice. The first time it is ahead of the new stream, so the floor, which
      follows the stream, does not cover it once it is forgotten. */
  lemma RecoveredTwice(x: nat, s: nat, par: Parity, parityCount: nat, start: nat, t: nat, u: nat,
                       rx1: Rx, rx2: Rx, rx3: Rx, rx4: Rx, rx5: Rx, rx6: Rx, rx7: Rx)
    requires s < x + 1 && parityCount >= 2 && par == EmptyPair(x) && start <= t <= u
    requires rx1 == Step(NewRx(parityCount, start), ParityShare(P, par, start, 0)).rx
    requires rx2 == Step(rx1, Data(x + 1 + SEQ_RESET_GAP, [], start, 0)).rx
    requires rx3 == if s < x then Step(rx2, Data(s, [], start, 0)).rx else rx2
    requires rx4 == Step(rx3, Data(x, [], start, 0)).rx && rx5 == Step(rx4, Maintenance(t)).rx
    requires rx6 == Step(rx5, Maintenance(u)).rx && rx7 == Step(rx6, Data(x, [], u, 0)).rx
    requires t >= rx4.rotatedAt + rx4.seenGeneration && u >= rx5.rotatedAt + rx5.seenGeneration
    ensures Restarts(rx2, Data(s, [], start, 0)) && !NoneAhead(rx2, s)
    ensures Step(rx3, Data(x, [], start, 0)).recovered == Step(rx7, ParityShare(P, par, u, 0)).recovered == [(x + 1, [])]
    ensures s < x ==> !Restarts(rx3, Data(x, [], start, 0))
    ensures !Restarts(rx6, Data(x, [], u, 0)) && !Restarts(rx7, ParityShare(P, par, u, 0))
  {
    var seen := if s < x then {s} else {};
    UpToRestart(x, par, parityCount, start, rx1, rx2);
    AtTheRestart(x, s, start, rx2, rx3, seen);
    AfterTheRestart(x, seen, start, t, u, rx3, rx4, rx5, rx6, rx7);
  }
}
