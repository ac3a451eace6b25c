/** What holds in every state of every run, restarts over parked groups included: the bounds
    of the cache and of the parking, and that the index and the seen generations agree with
    them. */
module FecOpenRuns {
  import opened Bytes
  import opened Common
  import opened FecGroup
  import opened FecReceiver
  import opened FecSafety
  import opened FecParking
  import opened FecRuns

  // ----- the index, in any run at all

  lemma DropIndex(rx: Rx, key: nat)
    requires IndexInv(rx)
    ensures IndexInv(DropParked(rx, key)) && key !in DropParked(rx, key).parked
    ensures |DropParked(rx, key).parked| == |rx.parked| - if key in rx.parked then 1 else 0
  {
    if key in rx.parked {
      assert DropParked(rx, key).parked.Keys == rx.parked.Keys - {key};
    }
  }

  lemma RoomIndex(rx: Rx, oldest: nat)
    requires IndexInv(rx)
    ensures var room := MakeRoom(rx, oldest);
            && IndexInv(room) && room.parked.Keys <= rx.parked.Keys
            && (|rx.parked| <= MAX_PARKED_GROUPS && ValidOldest(rx, oldest) ==> |room.parked| < MAX_PARKED_GROUPS)
  {
    DropIndex(rx, oldest);
  }

  lemma ParkIndex(rx: Rx, rx': Rx, key: nat, shares: Shares, missing: seq<nat>, at: nat, oldest: nat)
    requires IndexInv(rx) && key !in rx.parked && rx' == Park(rx, key, shares, missing, at, oldest)
    ensures IndexInv(rx')
    ensures |rx.parked| <= MAX_PARKED_GROUPS && ValidOldest(rx, oldest) ==> |rx'.parked| <= MAX_PARKED_GROUPS
  {
    var room, g := MakeRoom(rx, oldest), ParkedGroup(at, shares, missing);
    RoomIndex(rx, oldest);
    ParkedOn(room, rx', key, g);
  }

  lemma ParkedOn(room: Rx, rx': Rx, key: nat, g: ParkedGroup)
    requires IndexInv(room) && key !in room.parked
    requires rx'.parkedBySeq == Indexed(room.parkedBySeq, g.missing, key) && rx'.parked == room.parked[key := g]
    ensures IndexInv(rx') && |rx'.parked| == |room.parked| + 1
  {
    IndexInsert(room, rx', key, g);
    assert rx'.parked.Keys == room.parked.Keys + {key};
  }

  lemma EvaluateSame(rx: Rx, shares: Shares, now: nat)
    ensures SameParked(rx, Evaluate(rx, shares, now).0)
  {
    if Judge(rx, shares).Recovered? {
      AdmitAllSameParked(rx, Judge(rx, shares).items, now);
    }
  }

  lemma SettleIndex(rx: Rx, key: nat, shares: Shares, now: nat, oldest: nat)
    requires IndexInv(rx) && key !in rx.parked
    ensures var rx' := Settle(rx, key, shares, now, oldest).0;
            && IndexInv(rx')
            && (|rx.parked| <= MAX_PARKED_GROUPS && ValidOldest(rx, oldest) ==> |rx'.parked| <= MAX_PARKED_GROUPS)
  {
    EvaluateSame(rx, shares, now);
    var (rx', e) := Evaluate(rx, shares, now);
    if e.NeedMore? {
      ParkIndex(rx, Settle(rx, key, shares, now, oldest).0, key, shares, e.missing, now, oldest);
    }
  }

  lemma RevisitIndex(rx: Rx, key: nat, g: ParkedGroup, now: nat, oldest: nat)
    requires IndexInv(rx) && key !in rx.parked
    ensures var rx' := Revisit(rx, key, g, now, oldest).0;
            && IndexInv(rx') && (|rx.parked| < MAX_PARKED_GROUPS ==> |rx'.parked| <= MAX_PARKED_GROUPS)
  {
    EvaluateSame(rx, g.shares, now);
    var (rx', e) := Evaluate(rx, g.shares, now);
    if e.NeedMore? {
      ParkIndex(rx, Revisit(rx, key, g, now, oldest).0, key, g.shares, e.missing, g.at, oldest);
    }
  }

  lemma RecheckIndex(rx: Rx, s: nat, now: nat, oldest: nat)
    requires IndexInv(rx)
    ensures var rx' := Recheck(rx, s, now, oldest).0;
            && IndexInv(rx') && (|rx.parked| <= MAX_PARKED_GROUPS ==> |rx'.parked| <= MAX_PARKED_GROUPS)
  {
    if s in rx.parkedBySeq {
      var key := rx.parkedBySeq[s];
      var rx1 := rx.(parkedBySeq := rx.parkedBySeq - {s});
      DropIndex(rx1, key);
      RevisitIndex(DropParked(rx1, key), key, rx.parked[key], now, oldest);
    }
  }

  /** An eviction, should the share need one, picks an oldest group. */
  ghost predicate EvictsOldest(rx: Rx, e: Event) {
    e.ParityShare? && WellFormed(e.parity) ==> ValidOldest(DropParked(rx, e.parity.seqs[0]), e.oldest)
  }

  lemma DataIndex(rx: Rx, s: nat, body: bytes, now: nat, oldest: nat)
    requires IndexInv(rx)
    ensures var rx' := ObserveData(rx, s, body, now, oldest).rx;
            && IndexInv(rx') && (|rx.parked| <= MAX_PARKED_GROUPS ==> |rx'.parked| <= MAX_PARKED_GROUPS)
  {
    var base := NoteSeq(rx, s);
    assert SameParked(rx, base);
    if !Seen(base, s) {
      DataIsAdmitted(rx, base, s, body, now, oldest);
      RecheckIndex(Admit(base, (s, body), now), s, now, oldest);
    }
  }

  lemma ShareIndex(rx: Rx, base: Rx, k: Kind, par: Parity, now: nat, oldest: nat)
    requires IndexInv(rx) && base == NoteSeq(rx, Highest(par.seqs))
    ensures var rx' := TryRecover(rx, k, par, now, oldest).0;
            && IndexInv(rx')
            && (|rx.parked| <= MAX_PARKED_GROUPS && ValidOldest(DropParked(rx, par.seqs[0]), oldest) ==>
              |rx'.parked| <= MAX_PARKED_GROUPS)
  {
    var key := par.seqs[0];
    assert SameParked(rx, base);
    ShareIsSettled(rx, base, k, par, now, oldest);
    DropIndex(base, key);
    SettleIndex(DropParked(base, key), key, HeldShares(base, key).With(k, par), now, oldest);
  }

  lemma TickIndex(rx: Rx, now: nat)
    requires IndexInv(rx)
    ensures IndexInv(Tick(rx, now).0) && |Tick(rx, now).0.parked| <= |rx.parked|
  {
    ExpireSameParked(rx, now);
    TickFields(rx, now);
    ExpireIndex(ExpirePayloads(rx, now), now);
  }

  lemma StepIndex(rx: Rx, e: Event)
    requires IndexInv(rx)
    ensures IndexInv(Step(rx, e).rx)
    ensures |rx.parked| <= MAX_PARKED_GROUPS && EvictsOldest(rx, e) ==> |Step(rx, e).rx.parked| <= MAX_PARKED_GROUPS
  {
    match e
    case Data(s, body, now, oldest) => DataIndex(rx, s, body, now, oldest);
    case ParityShare(k, par, now, oldest) =>
      if WellFormed(par) {
        ShareIndex(rx, Base(rx, e), k, par, now, oldest);
      }
    case Maintenance(now) => TickIndex(rx, now);
  }

  /** In every state of every run whatever, an index entry points at a live parked group that
      lists that number as missing, so the index is empty when nothing is parked. */
  lemma {:induction false} IndexAlways(parityCount: nat, start: nat, es: seq<Event>)
    ensures var rx := RunTo(NewRx(parityCount, start), es);
            IndexInv(rx) && (rx.parked == map[] ==> rx.parkedBySeq == map[])
  {
    var rx := RunTo(NewRx(parityCount, start), es);
    if es != [] {
      var n := |es| - 1;
      IndexAlways(parityCount, start, es[..n]);
      StepIndex(RunTo(NewRx(parityCount, start), es[..n]), es[n]);
    }
    if rx.parked == map[] {
      NoParkedNoIndex(rx);
    }
  }

  ghost predicate EvictingRun(rx: Rx, es: seq<Event>) {
    es == [] || (EvictingRun(rx, es[..|es| - 1]) && EvictsOldest(RunTo(rx, es[..|es| - 1]), es[|es| - 1]))
  }

  /** In every run in which evictions pick an oldest group, at most 512 groups are parked. */
  lemma {:induction false} ParkingBounded(parityCount: nat, start: nat, es: seq<Event>)
    requires EvictingRun(NewRx(parityCount, start), es)
    ensures |RunTo(NewRx(parityCount, start), es).parked| <= MAX_PARKED_GROUPS
  {
    if es != [] {
      var n := |es| - 1;
      ParkingBounded(parityCount, start, es[..n]);
      IndexAlways(parityCount, start, es[..n]);
      StepIndex(RunTo(NewRx(parityCount, start), es[..n]), es[n]);
    }
  }

  // ----- the cache, in any run through monotone time

  lemma SameCache(rx: Rx, rx': Rx, clock: nat, now: nat)
    requires CacheInv(rx, clock) && clock <= now
    requires rx' == rx.(parked := rx'.parked, parkedBySeq := rx'.parkedBySeq, givenUp := rx'.givenUp, highest := rx'.highest)
    ensures CacheInv(rx', now)
  {
    var k: nat :| SplitAt(rx, k);
    assert SplitAt(rx', k);
  }

  /** `s` is the newest payload, and the newest mark; if that mark filled the generation,
      everything cached is of the previous one. */
  ghost predicate Newest(rx: Rx, s: nat, now: nat) {
    && s in rx.payloads && rx.payloads[s].at == now
    && |rx.order| > 0 && rx.order[|rx.order| - 1] == s
    && ((s in rx.current && |rx.current| <= MAX_SEEN_PER_GENERATION) || (rx.current == {} && SplitAt(rx, |rx.order|)))
  }

  lemma PushIsNewest(rx: Rx, s: nat, body: bytes, clock: nat, now: nat)
    requires OrderInv(rx, clock) && clock <= now && |rx.order| <= MAX_PAYLOADS && s !in rx.payloads
    requires (s in rx.current && |rx.current| <= MAX_SEEN_PER_GENERATION)
             || (rx.current == {} && SplitAt(Pushed(rx, s, body, now), |rx.order| + 1))
    ensures Newest(InsertPayload(rx, s, body, now), s, now)
  {
    InsertIsPush(rx, s, body, now);
    PushOrder(rx, s, body, clock, now);
    var p := Pushed(rx, s, body, now);
    if |p.order| > MAX_PAYLOADS && rx.current == {} {
      PopSplit(p, now, |p.order|);
    }
  }

  lemma AdmittedIsNewest(rx: Rx, f: Frame, clock: nat, now: nat)
    requires CacheInv(rx, clock) && clock <= now && !Seen(rx, f.0)
    ensures Newest(Admit(rx, f, now), f.0, now)
  {
    var k: nat :| SplitAt(rx, k);
    var marked := rx.(current := rx.current + {f.0});
    if f.0 in rx.payloads {
      PayloadsAreSeen(rx, clock, f.0);
    }
    if |rx.current| >= MAX_SEEN_PER_GENERATION {
      RotateSplit(marked, clock, now);
      PushPrevious(RotateSeen(marked, now), f.0, f.1, now);
    }
    PushIsNewest(MarkSeen(rx, f.0, now), f.0, f.1, clock, now);
  }

  lemma OverwriteCache(rx: Rx, rx': Rx, s: nat, body: bytes, now: nat, k: nat)
    requires CacheInv(rx, now) && Newest(rx, s, now) && SplitAt(rx.(current := rx'.current), k)
    requires rx' == rx.(current := rx'.current, payloads := rx.payloads[s := Stored(now, body)])
    ensures CacheInv(rx', now)
  {
    assert forall t :: t in rx.payloads ==> rx'.payloads[t].at == rx.payloads[t].at;
    assert SplitAt(rx', k);
  }

  /** Admitting the newest frame once more, as a group that lists a member twice does. */
  lemma AdmitTwice(rx: Rx, s: nat, body: bytes, now: nat)
    requires CacheInv(rx, now) && Newest(rx, s, now)
    ensures CacheInv(Admit(rx, (s, body), now), now)
  {
    var rx', n := Admit(rx, (s, body), now), |rx.order|;
    var k: nat;
    if s in rx.current {
      assert rx.current + {s} == rx.current;
      k :| SplitAt(rx, k);
    } else {
      assert rx.current + {s} == {s};
      k := n - 1;
    }
    assert MarkSeen(rx, s, now) == rx.(current := rx.current + {s});
    OverwriteCache(rx, rx', s, body, now, k);
  }

  lemma AdmitTwo(rx: Rx, f: Frame, g: Frame, clock: nat, now: nat)
    requires CacheInv(rx, clock) && clock <= now && !Seen(rx, f.0) && !Seen(rx, g.0)
    ensures CacheInv(Admit(Admit(rx, f, now), g, now), now)
  {
    AdmitCache(rx, f, clock, now);
    if f.0 == g.0 {
      AdmittedIsNewest(rx, f, clock, now);
      AdmitTwice(Admit(rx, f, now), f.0, g.1, now);
    } else {
      InsertSame(MarkSeen(rx, f.0, now), f, now);
      AdmitCache(Admit(rx, f, now), g, now, now);
    }
  }

  lemma AllOfTwo(rx: Rx, items: seq<Frame>, now: nat)
    requires 0 < |items| <= 2
    ensures AdmitAll(rx, items, now) == if |items| == 1 then Admit(rx, items[0], now)
                                        else Admit(Admit(rx, items[0], now), items[1], now)
  {
    assert AdmitAll(rx, items[..0], now) == rx;
    assert |items| == 2 ==> items[..1][..0] == items[..0];
  }

  lemma EvaluateCache(rx: Rx, shares: Shares, clock: nat, now: nat)
    requires CacheInv(rx, clock) && clock <= now
    ensures CacheInv(Evaluate(rx, shares, now).0, now)
  {
    SameCache(rx, rx, clock, now);
    if Judge(rx, shares).Recovered? {
      var items := Judge(rx, shares).items;
      RecoveredAreMissing(rx, shares);
      AllOfTwo(rx, items, now);
      if |items| == 1 {
        AdmitCache(rx, items[0], clock, now);
      } else {
        AdmitTwo(rx, items[0], items[1], clock, now);
      }
    }
  }

  lemma RevisitCache(rx: Rx, key: nat, g: ParkedGroup, clock: nat, now: nat, oldest: nat)
    requires CacheInv(rx, clock) && clock <= now
    ensures CacheInv(Revisit(rx, key, g, now, oldest).0, now)
  {
    EvaluateCache(rx, g.shares, clock, now);
    var rx' := Revisit(rx, key, g, now, oldest).0;
    SameCache(Evaluate(rx, g.shares, now).0, rx', now, now);
  }

  lemma SettleCache(rx: Rx, key: nat, shares: Shares, clock: nat, now: nat, oldest: nat)
    requires CacheInv(rx, clock) && clock <= now
    ensures CacheInv(Settle(rx, key, shares, now, oldest).0, now)
  {
    EvaluateCache(rx, shares, clock, now);
    SameCache(Evaluate(rx, shares, now).0, Settle(rx, key, shares, now, oldest).0, now, now);
  }

  lemma RecheckCache(rx: Rx, s: nat, now: nat, oldest: nat)
    requires CacheInv(rx, now)
    ensures CacheInv(Recheck(rx, s, now, oldest).0, now)
  {
    if s in rx.parkedBySeq {
      var key := rx.parkedBySeq[s];
      var rx1 := rx.(parkedBySeq := rx.parkedBySeq - {s});
      SameCache(rx, rx1, now, now);
      if key in rx.parked {
        SameCache(rx, DropParked(rx1, key), now, now);
        RevisitCache(DropParked(rx1, key), key, rx.parked[key], now, now, oldest);
      }
    }
  }

  lemma DataCache(rx: Rx, s: nat, body: bytes, clock: nat, now: nat, oldest: nat)
    requires CacheInv(rx, clock) && clock <= now
    ensures CacheInv(ObserveData(rx, s, body, now, oldest).rx, now)
  {
    var base := NoteSeq(rx, s);
    NoteCache(rx, s, clock);
    if Seen(base, s) {
      SameCache(base, base, clock, now);
    } else {
      AdmitCache(base, (s, body), clock, now);
      DataIsAdmitted(rx, base, s, body, now, oldest);
      RecheckCache(Admit(base, (s, body), now), s, now, oldest);
    }
  }

  lemma ShareCache(rx: Rx, k: Kind, par: Parity, clock: nat, now: nat, oldest: nat)
    requires CacheInv(rx, clock) && clock <= now
    ensures CacheInv(TryRecover(rx, k, par, now, oldest).0, now)
  {
    var base, key := NoteSeq(rx, Highest(par.seqs)), par.seqs[0];
    NoteCache(rx, Highest(par.seqs), clock);
    SameCache(base, DropParked(base, key), clock, clock);
    SettleCache(DropParked(base, key), key, HeldShares(base, key).With(k, par), clock, now, oldest);
  }

  lemma StepCache(rx: Rx, e: Event, clock: nat)
    requires CacheInv(rx, clock) && clock <= e.now
    ensures CacheInv(Step(rx, e).rx, e.now)
  {
    match e
    case Data(s, body, now, oldest) => DataCache(rx, s, body, clock, now, oldest);
    case ParityShare(k, par, now, oldest) =>
      if WellFormed(par) {
        ShareCache(rx, k, par, clock, now, oldest);
      } else {
        SameCache(rx, rx, clock, now);
      }
    case Maintenance(now) => TickCache(rx, clock, now);
  }

  /** The clock does not go back. */
  ghost predicate InOrder(es: seq<Event>, start: nat) {
    es == [] || (InOrder(es[..|es| - 1], start) && ClockOf(es[..|es| - 1], start) <= es[|es| - 1].now)
  }

  lemma {:induction false} CacheAlways(parityCount: nat, start: nat, es: seq<Event>)
    requires InOrder(es, start)
    ensures CacheInv(RunTo(NewRx(parityCount, start), es), ClockOf(es, start))
  {
    if es == [] {
      assert SplitAt(NewRx(parityCount, start), 0);
    } else {
      var n := |es| - 1;
      CacheAlways(parityCount, start, es[..n]);
      StepCache(RunTo(NewRx(parityCount, start), es[..n]), es[n], ClockOf(es[..n], start));
    }
  }

  /** In every state of every run, restarts over parked groups and repeated members included,
      at most 4096 payloads are cached, listed once each and oldest first, and every one of
      them is still in a seen generation. */
  lemma ReachableState(parityCount: nat, start: nat, es: seq<Event>, rx: Rx)
    requires InOrder(es, start) && rx == RunTo(NewRx(parityCount, start), es)
    ensures forall s :: s in rx.payloads ==> Seen(rx, s)
    ensures Elements(rx.order) == rx.payloads.Keys && Distinct(rx.order) && |rx.order| <= MAX_PAYLOADS
    ensures forall i, j :: 0 <= i < j < |rx.order| ==>
              rx.order[i] in rx.payloads && rx.order[j] in rx.payloads
              && rx.payloads[rx.order[i]].at <= rx.payloads[rx.order[j]].at
  {
    CacheAlways(parityCount, start, es);
    forall s | s in rx.payloads ensures Seen(rx, s) {
      PayloadsAreSeen(rx, ClockOf(es, start), s);
    }
  }
}
