/** Parked groups: every step of the receiver keeps the parking index exact, and a late
    member never sends its group back to waiting. */
module FecParking {
  import opened Bytes
  import opened Common
  import opened FecGroup
  import opened FecReceiver
  import opened FecSafety

  /** Members are distinct and none is ahead of the highest sequence number noted. */
  ghost predicate SharesInv(rx: Rx, shares: Shares) {
    && shares.Any().Some?
    && Distinct(shares.Any().value.seqs)
    && forall i :: 0 <= i < |shares.Any().value.seqs| ==> shares.Any().value.seqs[i] <= rx.highest
  }

  /** A parked group still waits for at most the two members it lists. */
  ghost predicate GroupInv(rx: Rx, g: ParkedGroup) {
    && SharesInv(rx, g.shares)
    && |g.missing| == 2
    && forall i :: 0 <= i < |g.shares.Any().value.seqs| ==>
         Accounted(rx, g.shares.Any().value.seqs[i]) || g.shares.Any().value.seqs[i] in g.missing
  }

  ghost predicate IndexInv(rx: Rx) {
    forall s :: s in rx.parkedBySeq ==>
      rx.parkedBySeq[s] in rx.parked && s in rx.parked[rx.parkedBySeq[s]].missing
  }

  ghost predicate ParkedInv(rx: Rx) {
    && |rx.parked| <= MAX_PARKED_GROUPS
    && IndexInv(rx)
    && forall k :: k in rx.parked ==> GroupInv(rx, rx.parked[k])
  }

  /** The index is empty whenever nothing is parked. */
  lemma NoParkedNoIndex(rx: Rx)
    requires IndexInv(rx) && rx.parked == map[]
    ensures rx.parkedBySeq == map[]
  {
    assert forall s :: s in rx.parkedBySeq ==> rx.parkedBySeq[s] in rx.parked;
  }

  lemma GroupsKept(rx: Rx, rx': Rx)
    requires ParkedInv(rx) && Keeps(rx, rx') && rx.highest <= rx'.highest
    requires rx'.parked == rx.parked && rx'.parkedBySeq == rx.parkedBySeq
    ensures ParkedInv(rx')
  {
  }

  lemma DropKeeps(rx: Rx, key: nat)
    requires ParkedInv(rx)
    ensures ParkedInv(DropParked(rx, key)) && Keeps(rx, DropParked(rx, key))
    ensures key !in DropParked(rx, key).parked
    ensures key in rx.parked ==> |DropParked(rx, key).parked| == |rx.parked| - 1
  {
    if key in rx.parked {
      var rx' := DropParked(rx, key);
      assert rx'.parked.Keys == rx.parked.Keys - {key};
    }
  }

  // ----- evaluation

  lemma RecoveredAreMissing(rx: Rx, shares: Shares)
    requires Judge(rx, shares).Recovered?
    ensures shares.Any().Some?
    ensures var seqs := shares.Any().value.seqs;
            var missing := MissingBelow(rx, seqs, |seqs|);
            var items := Judge(rx, shares).items;
            && |items| == |missing|
            && forall i :: 0 <= i < |items| ==> items[i].0 == seqs[missing[i]]
  {
  }

  /** An evaluation recovers only frames that were outstanding, each once, and accounts
      for all of them. */
  lemma EvaluateInv(rx: Rx, shares: Shares, clock: nat, now: nat)
    requires TrackInv(rx, clock) && clock <= now && SharesInv(rx, shares)
    ensures var (rx', e) := Evaluate(rx, shares, now);
            var items := if e.Recovered? then e.items else [];
            && TrackInv(rx', now) && Advances(rx, rx', items) && DistinctFrames(items)
            && forall i :: 0 <= i < |items| ==> !Accounted(rx, items[i].0)
  {
    var e := Judge(rx, shares);
    if e.Recovered? {
      RecoveredAreMissing(rx, shares);
      forall i | 0 <= i < |e.items| ensures !Accounted(rx, e.items[i].0) {
        MissingIffUnaccounted(rx, clock, e.items[i].0);
      }
      TrackLater(rx, clock, now);
      AdmitAllInv(rx, e.items, now);
    }
  }

  // ----- parking

  /** The victim is an oldest parked group, should one have to go. */
  ghost predicate ValidOldest(rx: Rx, oldest: nat) {
    |rx.parked| >= MAX_PARKED_GROUPS ==> IsOldest(rx.parked, oldest)
  }

  lemma MakeRoomInv(rx: Rx, oldest: nat)
    requires ParkedInv(rx) && ValidOldest(rx, oldest)
    ensures var rx' := MakeRoom(rx, oldest);
            ParkedInv(rx') && Keeps(rx, rx') && |rx'.parked| < MAX_PARKED_GROUPS && rx'.parked.Keys <= rx.parked.Keys
  {
    DropKeeps(rx, oldest);
  }

  lemma WaitingMembers(rx: Rx, shares: Shares, clock: nat)
    requires TrackInv(rx, clock) && SharesInv(rx, shares) && Judge(rx, shares).NeedMore?
    ensures |Judge(rx, shares).missing| == 2
    ensures var seqs := shares.Any().value.seqs;
            forall i :: 0 <= i < |seqs| ==> Accounted(rx, seqs[i]) || seqs[i] in Judge(rx, shares).missing
  {
    var seqs := shares.Any().value.seqs;
    var idx := MissingBelow(rx, seqs, |seqs|);
    forall i | 0 <= i < |seqs| ensures Accounted(rx, seqs[i]) || seqs[i] in Judge(rx, shares).missing {
      MissingIffUnaccounted(rx, clock, seqs[i]);
      if i in idx {
        var j :| 0 <= j < |idx| && idx[j] == i;
        assert Judge(rx, shares).missing[j] == seqs[i];
      }
    }
  }

  lemma ParkInv(rx: Rx, rx': Rx, key: nat, shares: Shares, missing: seq<nat>, clock: nat, at: nat, oldest: nat)
    requires TrackInv(rx, clock) && ParkedInv(rx) && ValidOldest(rx, oldest) && key !in rx.parked
    requires SharesInv(rx, shares) && Judge(rx, shares) == NeedMore(missing)
    requires rx' == Park(rx, key, shares, missing, at, oldest)
    ensures ParkedInv(rx') && Keeps(rx, rx')
  {
    var room, g := MakeRoom(rx, oldest), ParkedGroup(at, shares, missing);
    WaitingMembers(rx, shares, clock);
    MakeRoomInv(rx, oldest);
    GroupKept(rx, room, g);
    ParkedInsert(room, rx', key, g);
  }

  lemma GroupKept(rx: Rx, rx': Rx, g: ParkedGroup)
    requires GroupInv(rx, g) && Keeps(rx, rx') && rx.highest <= rx'.highest
    ensures GroupInv(rx', g)
  {
  }

  lemma IndexInsert(rx: Rx, rx': Rx, key: nat, g: ParkedGroup)
    requires IndexInv(rx) && key !in rx.parked
    requires rx'.parkedBySeq == Indexed(rx.parkedBySeq, g.missing, key) && rx'.parked == rx.parked[key := g]
    ensures IndexInv(rx')
  {
    forall s | s in rx'.parkedBySeq
      ensures rx'.parkedBySeq[s] in rx'.parked && s in rx'.parked[rx'.parkedBySeq[s]].missing
    {
      if s !in g.missing {
        assert rx'.parkedBySeq[s] == rx.parkedBySeq[s];
      }
    }
  }

  lemma ParkedInsert(rx: Rx, rx': Rx, key: nat, g: ParkedGroup)
    requires ParkedInv(rx) && |rx.parked| < MAX_PARKED_GROUPS && key !in rx.parked && GroupInv(rx, g)
    requires Keeps(rx, rx') && rx.highest <= rx'.highest
    requires rx'.parkedBySeq == Indexed(rx.parkedBySeq, g.missing, key) && rx'.parked == rx.parked[key := g]
    ensures ParkedInv(rx')
  {
    assert rx'.parked.Keys == rx.parked.Keys + {key};
    IndexInsert(rx, rx', key, g);
    forall k | k in rx'.parked ensures GroupInv(rx', rx'.parked[k]) {
      GroupKept(rx, rx', if k == key then g else rx.parked[k]);
    }
  }

  lemma ExpireIndex(rx: Rx, now: nat)
    requires IndexInv(rx)
    ensures IndexInv(ExpireParked(rx, now)) && |ExpireParked(rx, now).parked| <= |rx.parked|
  {
    var rx', stale := ExpireParked(rx, now), StaleParked(rx, now);
    MapSubsetSize(rx.parked, rx'.parked);
    forall s | s in rx'.parkedBySeq ensures rx'.parkedBySeq[s] in rx'.parked
        && s in rx'.parked[rx'.parkedBySeq[s]].missing {
      assert rx.parkedBySeq[s] !in stale;
    }
  }

  lemma ExpireParkedInv(rx: Rx, now: nat)
    requires ParkedInv(rx)
    ensures ParkedInv(ExpireParked(rx, now))
  {
    var rx' := ExpireParked(rx, now);
    ExpireIndex(rx, now);
    forall k | k in rx'.parked ensures GroupInv(rx', rx'.parked[k]) {
      GroupKept(rx, rx', rx.parked[k]);
    }
  }

  lemma MapSubsetSize<K, V>(m: map<K, V>, m': map<K, V>)
    requires m'.Keys <= m.Keys
    ensures |m'| <= |m|
  {
    SetSize(m'.Keys, m.Keys);
  }

  // ----- the entry points

  ghost predicate RxInv(rx: Rx, clock: nat) {
    TrackInv(rx, clock) && ParkedInv(rx)
  }

  /** From `base`, the state once the sequence number is noted, a step keeps everything
      accounted for and recovers only what was outstanding, each frame once. */
  ghost predicate StepOk(base: Rx, rx': Rx, recovered: seq<Frame>, now: nat) {
    && RxInv(rx', now) && Keeps(base, rx') && DistinctFrames(recovered)
    && forall i :: 0 <= i < |recovered| ==> !Accounted(base, recovered[i].0) && Accounted(rx', recovered[i].0)
  }

  lemma LaterClock(rx: Rx, clock: nat, now: nat)
    requires RxInv(rx, clock) && clock <= now
    ensures RxInv(rx, now)
  {
  }

  /** Noting a sequence number keeps the invariant; a peer restart needs the parking to be
      empty, because it does not clear it. */
  lemma NoteInv(rx: Rx, s: nat, clock: nat)
    requires RxInv(rx, clock) && (Resets(rx, s) ==> rx.parked == map[])
    ensures RxInv(NoteSeq(rx, s), clock) && s <= NoteSeq(rx, s).highest
    ensures !Resets(rx, s) ==> Keeps(rx, NoteSeq(rx, s))
  {
    NoteSeqSeen(rx, s);
    var base := NoteSeq(rx, s);
    NoteCache(rx, s, clock);
    if !Resets(rx, s) {
      GroupsKept(rx, base);
    }
  }

  lemma NoteCache(rx: Rx, s: nat, clock: nat)
    requires CacheInv(rx, clock)
    ensures CacheInv(NoteSeq(rx, s), clock)
  {
    if Resets(rx, s) {
      assert SplitAt(NoteSeq(rx, s), 0);
    } else {
      var k: nat :| SplitAt(rx, k);
      assert SplitAt(NoteSeq(rx, s), k);
    }
  }

  lemma TwoOfTwo(m: seq<nat>, x: nat, y: nat)
    requires |m| == 2 && x in m && y in m && x != y
    ensures forall s :: s in m ==> s == x || s == y
  {
  }

  lemma WaitingPair(rx: Rx, shares: Shares, clock: nat) returns (x: nat, y: nat)
    requires TrackInv(rx, clock) && SharesInv(rx, shares) && Judge(rx, shares).NeedMore?
    ensures x != y && !Accounted(rx, x) && !Accounted(rx, y)
    ensures x in shares.Any().value.seqs && y in shares.Any().value.seqs
  {
    var seqs := shares.Any().value.seqs;
    var idx := MissingBelow(rx, seqs, |seqs|);
    x, y := seqs[idx[0]], seqs[idx[1]];
    MissingIffUnaccounted(rx, clock, x);
    MissingIffUnaccounted(rx, clock, y);
  }

  /** A group whose late member has arrived waits for at most one more: it is not parked again. */
  lemma LateMemberSettles(rx: Rx, g: ParkedGroup, s: nat, clock: nat)
    requires TrackInv(rx, clock) && GroupInv(rx, g) && s in g.missing && Accounted(rx, s)
    ensures !Judge(rx, g.shares).NeedMore?
  {
    if Judge(rx, g.shares).NeedMore? {
      var x, y := WaitingPair(rx, g.shares, clock);
      TwoOfTwo(g.missing, x, y);
    }
  }

  lemma CountingKeeps(base: Rx, rx: Rx, items: seq<Frame>, now: nat, rx': Rx)
    requires StepOk(base, rx, items, now) && rx' == rx.(givenUp := rx'.givenUp)
    ensures StepOk(base, rx', items, now)
  {
    SameTrack(rx, rx', now);
    GroupsKept(rx, rx');
  }

  lemma GroupsWithoutEntry(rx: Rx, rx1: Rx)
    requires ParkedInv(rx) && rx1 == rx.(parkedBySeq := rx1.parkedBySeq)
    requires rx1.parkedBySeq.Keys <= rx.parkedBySeq.Keys
    requires forall s :: s in rx1.parkedBySeq ==> rx1.parkedBySeq[s] == rx.parkedBySeq[s]
    ensures ParkedInv(rx1)
  {
    forall k | k in rx1.parked ensures GroupInv(rx1, rx1.parked[k]) {
      GroupKept(rx, rx1, rx.parked[k]);
    }
  }

  /** The invariant of the tracking part, and what is accounted for, depend on that part alone. */
  lemma SameTrack(rx: Rx, rx': Rx, clock: nat)
    requires TrackInv(rx, clock)
    requires rx' == rx.(parked := rx'.parked, parkedBySeq := rx'.parkedBySeq, givenUp := rx'.givenUp)
    ensures TrackInv(rx', clock) && Keeps(rx, rx') && Keeps(rx', rx)
  {
    var k: nat :| SplitAt(rx, k);
    assert SplitAt(rx', k);
  }

  /** Evaluation from a state that accounts for the same frames as `base`. */
  lemma EvaluateOk(base: Rx, rx: Rx, shares: Shares, clock: nat, now: nat)
    requires RxInv(rx, clock) && clock <= now && SharesInv(rx, shares)
    requires Keeps(base, rx)
    ensures var (rx', e) := Evaluate(rx, shares, now);
            StepOk(base, rx', if e.Recovered? then e.items else [], now)
  {
    EvaluateInv(rx, shares, clock, now);
    GroupsKept(rx, Evaluate(rx, shares, now).0);
  }

  lemma RevisitOk(base: Rx, rx: Rx, key: nat, g: ParkedGroup, s: nat, clock: nat, now: nat, oldest: nat)
    requires RxInv(rx, clock) && clock <= now && GroupInv(rx, g) && s in g.missing && Accounted(rx, s)
    requires Keeps(base, rx)
    ensures var (rx', late) := Revisit(rx, key, g, now, oldest); StepOk(base, rx', late, now)
  {
    LateMemberSettles(rx, g, s, clock);
    EvaluateOk(base, rx, g.shares, clock, now);
    var (rx', e) := Evaluate(rx, g.shares, now);
    if e.Unrecoverable? {
      CountingKeeps(base, rx', [], now, rx'.(givenUp := rx'.givenUp + 1));
    }
  }

  /** Taking a group off the parking, with or without its index entry for `s`. */
  lemma TakeOff(rx: Rx, rx1: Rx, key: nat, clock: nat)
    requires RxInv(rx, clock) && ParkedInv(rx1) && rx1 == rx.(parkedBySeq := rx1.parkedBySeq)
    ensures RxInv(DropParked(rx1, key), clock)
    ensures Keeps(rx, DropParked(rx1, key)) && Keeps(DropParked(rx1, key), rx)
    ensures key in rx.parked ==> GroupInv(DropParked(rx1, key), rx.parked[key])
  {
    DropKeeps(rx1, key);
    SameTrack(rx, DropParked(rx1, key), clock);
    if key in rx.parked {
      GroupKept(rx, DropParked(rx1, key), rx.parked[key]);
    }
  }

  lemma RecheckOk(rx: Rx, s: nat, clock: nat, now: nat, oldest: nat)
    requires RxInv(rx, clock) && clock <= now && Accounted(rx, s)
    ensures var (rx', late) := Recheck(rx, s, now, oldest); StepOk(rx, rx', late, now)
  {
    if s !in rx.parkedBySeq {
      LaterClock(rx, clock, now);
    } else {
      var key := rx.parkedBySeq[s];
      var rx1 := rx.(parkedBySeq := rx.parkedBySeq - {s});
      GroupsWithoutEntry(rx, rx1);
      TakeOff(rx, rx1, key, clock);
      RevisitOk(rx, DropParked(rx1, key), key, rx.parked[key], s, clock, now, oldest);
    }
  }
}
