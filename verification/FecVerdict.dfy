/** What the receiver answers to a share, in plain terms: which members are in the cache, which
    are still to come, and how many shares are held decide, and nothing else. */
module FecVerdict {
  import opened Bytes
  import opened Common
  import opened FecGroup
  import opened FecReceiver
  import opened FecRecovery
  import opened FecSafety
  import opened FecParking
  import opened FecRuns
  import opened FecTracking
  import opened FecOnce
  import opened FecOpenRuns
  import opened FecSoundness
  import opened FecCompletion
  import opened FecRetention

  /** Not cached, in neither seen generation, above the floor, and less than 65536 behind `top`. */
  ghost predicate ToCome(rx: Rx, top: nat, s: nat) {
    && s !in rx.payloads && s !in rx.current && s !in rx.previous
    && (rx.floor.Some? ==> rx.floor.value < s) && top < s + 65_536
  }

  /** The share is the stream's, and is not read as a restart of the peer. */
  ghost predicate Arrives(st: Stream, rx: Rx, k: Kind, par: Parity, top: nat) {
    && SoundInv(st, rx) && SentShare(st, par.seqs[0], k, par)
    && rx.highest < Highest(par.seqs) + 16_777_216 && top == Max(rx.highest, Highest(par.seqs))
  }

  ghost predicate HoldsOther(rx: Rx, key: nat, k: Kind) {
    key in rx.parked && (if k.P? then rx.parked[key].shares.q else rx.parked[key].shares.p).Some?
  }

  // ----- from the cache to the promise

  lemma NotedState(st: Stream, rx: Rx, base: Rx, k: Kind, par: Parity, top: nat)
    requires Arrives(st, rx, k, par, top) && base == NoteSeq(rx, Highest(par.seqs))
    ensures SoundInv(st, base) && base.parked == rx.parked && base.payloads == rx.payloads
        && base.parityCount == rx.parityCount
    ensures forall s: nat :: Outstanding(base, s) <==> ToCome(rx, top, s)
  {
    NoteSound(st, rx, Highest(par.seqs));
  }

  /** The marked positions below `n`. */
  ghost function Positions(marks: seq<bool>, n: nat): seq<nat>
    requires n <= |marks|
  {
    if n == 0 then [] else Positions(marks, n - 1) + if marks[n - 1] then [n - 1] else []
  }

  lemma {:induction false} LackingIsPositions(rx: Rx, seqs: seq<nat>, marks: seq<bool>, n: nat)
    requires n <= |seqs| == |marks| && forall i :: 0 <= i < |seqs| ==> (Outstanding(rx, seqs[i]) <==> marks[i])
    ensures Lacking(rx, seqs, n) == Positions(marks, n)
  {
    if n > 0 {
      LackingIsPositions(rx, seqs, marks, n - 1);
    }
  }

  lemma {:induction false} OnePosition(marks: seq<bool>, a: nat, n: nat)
    requires n <= |marks| && forall i :: 0 <= i < |marks| ==> (marks[i] <==> i == a)
    ensures Positions(marks, n) == if a < n then [a] else []
  {
    if n > 0 {
      OnePosition(marks, a, n - 1);
    }
  }

  lemma {:induction false} TwoPositions(marks: seq<bool>, a: nat, b: nat, n: nat)
    requires n <= |marks| && a < b && forall i :: 0 <= i < |marks| ==> (marks[i] <==> i == a || i == b)
    ensures Positions(marks, n) == if b < n then [a, b] else if a < n then [a] else []
  {
    if n > 0 {
      TwoPositions(marks, a, b, n - 1);
    }
  }

  lemma LackingOne(rx: Rx, seqs: seq<nat>, a: nat)
    requires a < |seqs| && forall i :: 0 <= i < |seqs| ==> (Outstanding(rx, seqs[i]) <==> i == a)
    ensures Lacking(rx, seqs, |seqs|) == [a]
  {
    var marks := seq(|seqs|, i => i == a);
    LackingIsPositions(rx, seqs, marks, |seqs|);
    OnePosition(marks, a, |seqs|);
  }

  lemma LackingTwo(rx: Rx, seqs: seq<nat>, a: nat, b: nat)
    requires a < b < |seqs| && forall i :: 0 <= i < |seqs| ==> (Outstanding(rx, seqs[i]) <==> i == a || i == b)
    ensures Lacking(rx, seqs, |seqs|) == [a, b]
  {
    var marks := seq(|seqs|, i => i == a || i == b);
    LackingIsPositions(rx, seqs, marks, |seqs|);
    TwoPositions(marks, a, b, |seqs|);
  }

  lemma {:induction false} LackingNone(rx: Rx, seqs: seq<nat>, n: nat)
    requires n <= |seqs| && forall i :: 0 <= i < |seqs| ==> !Outstanding(rx, seqs[i])
    ensures Lacking(rx, seqs, n) == []
  {
    if n > 0 {
      LackingNone(rx, seqs, n - 1);
    }
  }

  /** How many of three positions lie below `n`. */
  ghost function CountBelow(n: nat, a: nat, b: nat, c: nat): nat {
    (if a < n then 1 else 0) + (if b < n then 1 else 0) + if c < n then 1 else 0
  }

  lemma {:induction false} LackingAtLeast(rx: Rx, seqs: seq<nat>, a: nat, b: nat, c: nat, n: nat)
    requires n <= |seqs| && a < b < c
    requires forall i :: 0 <= i < |seqs| && (i == a || i == b || i == c) ==> Outstanding(rx, seqs[i])
    ensures |Lacking(rx, seqs, n)| >= CountBelow(n, a, b, c)
  {
    if n > 0 {
      LackingAtLeast(rx, seqs, a, b, c, n - 1);
    }
  }

  lemma OneFramePromised(truth: Truth, seqs: seq<nat>, a: nat, b: nat)
    requires Covers(truth, seqs) && a < |seqs| && b < |seqs|
    ensures FramesAt(truth, seqs, [a]) == [(seqs[a], truth[seqs[a]])]
    ensures FramesAt(truth, seqs, [a, b]) == [(seqs[a], truth[seqs[a]]), (seqs[b], truth[seqs[b]])]
  {
  }

  lemma HeldCount(rx: Rx, key: nat, k: Kind, par: Parity)
    ensures ShareCount(HeldShares(rx, key).With(k, par)) == if HoldsOther(rx, key, k) then 2 else 1
  {
  }

  /** The answer, from the outstanding positions, whether some payload is lost, and the number of
      shares held. */
  ghost function Verdict(truth: Truth, seqs: seq<nat>, lacking: seq<nat>, lost: bool, held: nat,
                         parityCount: nat): Outcome
    requires Covers(truth, seqs) && forall i :: 0 <= i < |lacking| ==> lacking[i] < |seqs|
  {
    if lacking == [] then OutComplete
    else if lost || |lacking| > (if parityCount >= 2 then 2 else 1) then OutUnrecoverable
    else if |lacking| > held then OutPending
    else OutRecovered(FramesAt(truth, seqs, lacking))
  }

  lemma PromiseIsVerdict(rx: Rx, shares: Shares, truth: Truth, seqs: seq<nat>)
    requires shares.Any().Some? && shares.Any().value.seqs == seqs && Covers(truth, seqs)
    ensures OutcomeOf(Promised(rx, shares, truth))
            == Verdict(truth, seqs, Lacking(rx, seqs, |seqs|), Lost(rx, seqs), ShareCount(shares), rx.parityCount)
  {
  }

  lemma Answer(st: Stream, rx: Rx, base: Rx, k: Kind, par: Parity, top: nat, now: nat, oldest: nat)
    requires Arrives(st, rx, k, par, top) && base == NoteSeq(rx, Highest(par.seqs))
    ensures Covers(st.frames, par.seqs)
    ensures TryRecover(rx, k, par, now, oldest).1
            == Verdict(st.frames, par.seqs, Lacking(base, par.seqs, |par.seqs|), Lost(base, par.seqs),
                       if HoldsOther(rx, par.seqs[0], k) then 2 else 1, rx.parityCount)
  {
    var shares := HeldShares(base, par.seqs[0]).With(k, par);
    NotedState(st, rx, base, k, par, top);
    ShareOutcome(st, rx, base, k, par, shares, now, oldest);
    PromiseIsVerdict(base, shares, st.frames, par.seqs);
    HeldCount(base, par.seqs[0], k, par);
  }

  lemma LacksOne(st: Stream, rx: Rx, base: Rx, k: Kind, par: Parity, top: nat, a: nat)
    requires Arrives(st, rx, k, par, top) && base == NoteSeq(rx, Highest(par.seqs))
    requires a < |par.seqs| && ToCome(rx, top, par.seqs[a]) && forall i :: 0 <= i < |par.seqs| && i != a ==> par.seqs[i] in rx.payloads
    ensures Lacking(base, par.seqs, |par.seqs|) == [a] && !Lost(base, par.seqs)
  {
    NotedState(st, rx, base, k, par, top);
    LackingOne(base, par.seqs, a);
  }

  lemma LacksTwo(st: Stream, rx: Rx, base: Rx, k: Kind, par: Parity, top: nat, a: nat, b: nat)
    requires Arrives(st, rx, k, par, top) && base == NoteSeq(rx, Highest(par.seqs)) && a < b < |par.seqs|
    requires ToCome(rx, top, par.seqs[a]) && ToCome(rx, top, par.seqs[b])
    requires forall i :: 0 <= i < |par.seqs| && i != a && i != b ==> par.seqs[i] in rx.payloads
    ensures Lacking(base, par.seqs, |par.seqs|) == [a, b] && !Lost(base, par.seqs)
  {
    NotedState(st, rx, base, k, par, top);
    LackingTwo(base, par.seqs, a, b);
  }

  // ----- the verdicts

  /** One member to come and all others cached: any share of the group recovers it. */
  lemma RecoversOne(st: Stream, rx: Rx, k: Kind, par: Parity, top: nat, a: nat, now: nat, oldest: nat)
    requires Arrives(st, rx, k, par, top) && a < |par.seqs| && ToCome(rx, top, par.seqs[a])
    requires forall i :: 0 <= i < |par.seqs| && i != a ==> par.seqs[i] in rx.payloads
    ensures par.seqs[a] in st.frames
    ensures TryRecover(rx, k, par, now, oldest).1 == OutRecovered([(par.seqs[a], st.frames[par.seqs[a]])])
  {
    var base, seqs := NoteSeq(rx, Highest(par.seqs)), par.seqs;
    LacksOne(st, rx, base, k, par, top, a);
    Answer(st, rx, base, k, par, top, now, oldest);
    OneFramePromised(st.frames, seqs, a, a);
  }

  /** Two members to come, all others cached and the other share held: both are recovered. */
  lemma RecoversTwo(st: Stream, rx: Rx, k: Kind, par: Parity, top: nat, a: nat, b: nat, now: nat, oldest: nat)
    requires Arrives(st, rx, k, par, top) && a < b < |par.seqs| && ToCome(rx, top, par.seqs[a])
        && ToCome(rx, top, par.seqs[b])
    requires forall i :: 0 <= i < |par.seqs| && i != a && i != b ==> par.seqs[i] in rx.payloads
    requires HoldsOther(rx, par.seqs[0], k) && rx.parityCount >= 2
    ensures par.seqs[a] in st.frames && par.seqs[b] in st.frames
    ensures TryRecover(rx, k, par, now, oldest).1
            == OutRecovered([(par.seqs[a], st.frames[par.seqs[a]]), (par.seqs[b], st.frames[par.seqs[b]])])
  {
    var base, seqs := NoteSeq(rx, Highest(par.seqs)), par.seqs;
    LacksTwo(st, rx, base, k, par, top, a, b);
    Answer(st, rx, base, k, par, top, now, oldest);
    OneFramePromised(st.frames, seqs, a, b);
  }

  /** The same without the other share: the group waits for exactly these two. */
  lemma WaitsForTwo(st: Stream, rx: Rx, k: Kind, par: Parity, top: nat, a: nat, b: nat, now: nat, oldest: nat)
    requires Arrives(st, rx, k, par, top) && a < b < |par.seqs| && ToCome(rx, top, par.seqs[a])
        && ToCome(rx, top, par.seqs[b])
    requires forall i :: 0 <= i < |par.seqs| && i != a && i != b ==> par.seqs[i] in rx.payloads
    requires !HoldsOther(rx, par.seqs[0], k) && rx.parityCount >= 2
    ensures var (rx', out) := TryRecover(rx, k, par, now, oldest);
            && out == OutPending && par.seqs[0] in rx'.parked
            && rx'.parked[par.seqs[0]].missing == [par.seqs[a], par.seqs[b]] && rx'.parked[par.seqs[0]].at == now
  {
    var base, seqs := NoteSeq(rx, Highest(par.seqs)), par.seqs;
    NotedState(st, rx, base, k, par, top);
    LacksTwo(st, rx, base, k, par, top, a, b);
    Answer(st, rx, base, k, par, top, now, oldest);
    WaitedPair(st, rx, base, DropParked(base, seqs[0]), k, par, HeldShares(base, seqs[0]).With(k, par), a, b, now, oldest);
  }

  lemma WaitedPair(st: Stream, rx: Rx, base: Rx, off: Rx, k: Kind, par: Parity, shares: Shares, a: nat, b: nat,
                   now: nat, oldest: nat)
    requires base == NoteSeq(rx, Highest(par.seqs)) && shares == HeldShares(base, par.seqs[0]).With(k, par)
    requires SoundInv(st, base) && SentShare(st, par.seqs[0], k, par) && off == DropParked(base, par.seqs[0])
    requires a < b < |par.seqs| && Lacking(base, par.seqs, |par.seqs|) == [a, b]
    requires TryRecover(rx, k, par, now, oldest).1 == OutPending
    ensures var rx' := TryRecover(rx, k, par, now, oldest).0;
            par.seqs[0] in rx'.parked && rx'.parked[par.seqs[0]] == ParkedGroup(now, shares, [par.seqs[a], par.seqs[b]])
  {
    var key := par.seqs[0];
    MergeSent(st, base, k, par);
    SharesList(st, key, shares);
    ShareIsSettled(rx, base, k, par, now, oldest);
    SettleOutcome(off, key, shares, now, oldest);
    SameMissing(base, off, par.seqs, |par.seqs|);
    LackingIsMissing(base, par.seqs, |par.seqs|);
    NeededPair(off, shares, par.seqs, a, b);
  }

  lemma NeededPair(rx: Rx, shares: Shares, seqs: seq<nat>, a: nat, b: nat)
    requires Judge(rx, shares).NeedMore? && shares.Any().Some? && shares.Any().value.seqs == seqs && a < b < |seqs|
    requires MissingBelow(rx, seqs, |seqs|) == [a, b]
    ensures Judge(rx, shares).missing == [seqs[a], seqs[b]]
  {
    assert SeqsAt(seqs, [a, b]) == [seqs[a], seqs[b]];
  }

  /** Three members to come, or two where only one share is ever sent: nothing is recovered. */
  lemma TooManyToCome(st: Stream, rx: Rx, k: Kind, par: Parity, top: nat, a: nat, b: nat, c: nat, now: nat, oldest: nat)
    requires Arrives(st, rx, k, par, top) && a < b < c && b < |par.seqs| && (c < |par.seqs| || rx.parityCount < 2)
    requires ToCome(rx, top, par.seqs[a]) && ToCome(rx, top, par.seqs[b]) && (c < |par.seqs|
        ==> ToCome(rx, top, par.seqs[c]))
    ensures TryRecover(rx, k, par, now, oldest).1 == OutUnrecoverable
  {
    var base, seqs := NoteSeq(rx, Highest(par.seqs)), par.seqs;
    NotedState(st, rx, base, k, par, top);
    Answer(st, rx, base, k, par, top, now, oldest);
    LackingAtLeast(base, seqs, a, b, c, |seqs|);
  }

  /** A member to come, and one that is neither that nor cached: nothing is recovered. */
  lemma PayloadGone(st: Stream, rx: Rx, k: Kind, par: Parity, top: nat, a: nat, i: nat, now: nat, oldest: nat)
    requires Arrives(st, rx, k, par, top) && a < |par.seqs| && i < |par.seqs| && ToCome(rx, top, par.seqs[a])
    requires par.seqs[i] !in rx.payloads && !ToCome(rx, top, par.seqs[i])
    ensures TryRecover(rx, k, par, now, oldest).1 == OutUnrecoverable
  {
    var base, seqs := NoteSeq(rx, Highest(par.seqs)), par.seqs;
    NotedState(st, rx, base, k, par, top);
    Answer(st, rx, base, k, par, top, now, oldest);
    assert Outstanding(base, seqs[a]);
    LackingSome(base, seqs, a, |seqs|);
    assert seqs[i] !in base.payloads && !Outstanding(base, seqs[i]);
  }

  lemma {:induction false} LackingSome(rx: Rx, seqs: seq<nat>, a: nat, n: nat)
    requires n <= |seqs| && a < |seqs| && Outstanding(rx, seqs[a])
    ensures a < n ==> Lacking(rx, seqs, n) != []
  {
    if n > 0 {
      LackingSome(rx, seqs, a, n - 1);
    }
  }

  /** No member to come: the group is complete. */
  lemma NothingToCome(st: Stream, rx: Rx, k: Kind, par: Parity, top: nat, now: nat, oldest: nat)
    requires Arrives(st, rx, k, par, top) && forall i :: 0 <= i < |par.seqs| ==> !ToCome(rx, top, par.seqs[i])
    ensures TryRecover(rx, k, par, now, oldest).1 == OutComplete
  {
    var base, seqs := NoteSeq(rx, Highest(par.seqs)), par.seqs;
    NotedState(st, rx, base, k, par, top);
    Answer(st, rx, base, k, par, top, now, oldest);
    LackingNone(base, seqs, |seqs|);
  }

  // ----- shares that do not fit

  /** Two shares that disagree on the members, their lengths or their own size. */
  ghost predicate Disagree(shares: Shares) {
    shares.p.Some? && shares.q.Some? &&
    (shares.p.value.seqs != shares.q.value.seqs || shares.p.value.lens != shares.q.value.lens
     || |shares.p.value.parity| != |shares.q.value.parity|)
  }

  /** Shares that disagree are never combined, and a member announced longer than the share is
      never recovered: whatever the peer sends, sound or not. */
  lemma NeverCombined(rx: Rx, shares: Shares, a: nat)
    requires shares.Any().Some? && a < |shares.Any().value.seqs|
    requires Disagree(shares) || (Outstanding(rx, shares.Any().value.seqs[a])
        && shares.Any().value.lens[a] > |shares.Any().value.parity|)
    ensures !Judge(rx, shares).Recovered?
  {
    OutstandingIsMissing(rx, shares.Any().value.seqs[a]);
  }

  // ----- over runs

  lemma TickUnseen(rx: Rx, now: nat, s: nat)
    requires !Seen(rx, s)
    ensures !Seen(Tick(rx, now).0, s)
  {
    ExpireSameSeen(rx, now);
    ExpireParkedSameSeen(ExpirePayloads(rx, now), now);
  }

  lemma {:induction false} ExpireSameSeen(rx: Rx, now: nat)
    ensures ExpirePayloads(rx, now).current == rx.current && ExpirePayloads(rx, now).previous == rx.previous
    decreases |rx.order|
  {
    if rx.order != [] && Expired(rx, rx.order[0], now) {
      ExpireSameSeen(rx.(payloads := rx.payloads - {rx.order[0]}, order := rx.order[1..]), now);
    }
  }

  lemma ExpireParkedSameSeen(rx: Rx, now: nat)
    ensures ExpireParked(rx, now).current == rx.current && ExpireParked(rx, now).previous == rx.previous
  {
  }

  lemma TickStepUnseen(rx: Rx, now: nat, s: nat)
    requires s !in rx.payloads && !Seen(rx, s)
    ensures s !in Tick(rx, now).0.payloads && !Seen(Tick(rx, now).0, s)
  {
    TickUnseen(rx, now, s);
    ExpireShrinks(rx, now, s);
    TickIsExpiry(rx, now);
  }

  lemma BaseUnseen(rx: Rx, e: Event, s: nat)
    requires (s !in rx.payloads && !Seen(rx, s)) || Restarts(rx, e)
    ensures s !in Base(rx, e).payloads && !Seen(Base(rx, e), s)
  {
  }

  lemma AdmitStepUnseen(rx: Rx, e: Event, base: Rx, items: seq<Frame>, s: nat, rx': Rx)
    requires !e.Maintenance? && base == Base(rx, e) && s !in base.payloads && !Seen(base, s) && rx' == Step(rx, e).rx
    requires items == Admitted(rx, e) && forall i :: 0 <= i < |items| ==> items[i].0 != s
    ensures s !in rx'.payloads && !Seen(rx', s)
  {
    AdmitAllUnseen(base, items, e.now, s);
    AdmitAllGone(base, items, e.now, s);
    StepTracking(rx, e);
  }

  /** A frame never handed on since the last restart is in neither seen generation and not cached. */
  lemma StepUnseen(rx: Rx, e: Event, items: seq<Frame>, s: nat, rx': Rx)
    requires (s !in rx.payloads && !Seen(rx, s)) || Restarts(rx, e)
    requires items == Admitted(rx, e) && (forall i :: 0 <= i < |items| ==> items[i].0 != s) && rx' == Step(rx, e).rx
    ensures s !in rx'.payloads && !Seen(rx', s)
  {
    if e.Maintenance? {
      TickStepUnseen(rx, e.now, s);
    } else {
      BaseUnseen(rx, e, s);
      AdmitStepUnseen(rx, e, Base(rx, e), items, s, rx');
    }
  }

  lemma NotAdmitted(rx: Rx, e: Event, next: Next, s: nat)
    requires next == Step(rx, e) && s !in OptSet(next.delivered) && s !in SeqSet(next.recovered)
    ensures forall i :: 0 <= i < |Admitted(rx, e)| ==> Admitted(rx, e)[i].0 != s
  {
    DeliversItself(rx, e);
    SeqSetMisses(next.recovered, s);
  }

  lemma DeliversItself(rx: Rx, e: Event)
    ensures e.Data? && Step(rx, e).delivered.Some? ==> Step(rx, e).delivered.value == e.seqno
  {
  }

  lemma SeqSetMisses(items: seq<Frame>, s: nat)
    requires s !in SeqSet(items)
    ensures forall i :: 0 <= i < |items| ==> items[i].0 != s
  {
    forall i | 0 <= i < |items| ensures items[i].0 != s {
      assert items[i].0 in SeqSet(items);
    }
  }

  lemma {:induction false} NeverHanded(parityCount: nat, start: nat, es: seq<Event>, s: nat)
    requires s !in Handed(NewRx(parityCount, start), es)
    ensures var rx := RunTo(NewRx(parityCount, start), es); s !in rx.payloads && !Seen(rx, s)
  {
    if es != [] {
      var n := |es| - 1;
      var before := RunTo(NewRx(parityCount, start), es[..n]);
      if !Restarts(before, es[n]) {
        NeverHanded(parityCount, start, es[..n], s);
      }
      NotAdmitted(before, es[n], Step(before, es[n]), s);
      StepUnseen(before, es[n], Admitted(before, es[n]), s, Step(before, es[n]).rx);
    }
  }

  /** Runs from two states that meet before their last event meet after it. */
  lemma SameLast(rx: Rx, es: seq<Event>, rx': Rx, es': seq<Event>, front: seq<Event>, front': seq<Event>)
    requires es != [] && es' != [] && es[|es| - 1] == es'[|es'| - 1] && front == es[..|es| - 1]
        && front' == es'[..|es'| - 1]
    ensures RunTo(rx, front) == RunTo(rx', front') ==> RunTo(rx, es) == RunTo(rx', es')
  {
  }

  lemma Slices(es: seq<Event>, p: nat, k: nat)
    requires p < k <= |es|
    ensures es[..k][..k - 1] == es[..k - 1] && es[p..k][..k - p - 1] == es[p..k - 1]
        && es[..k][k - 1] == es[p..k][k - p - 1]
  {
  }

  lemma {:induction false} RunSplit(rx: Rx, es: seq<Event>, p: nat, k: nat, mid: Rx)
    requires p <= k <= |es| && mid == RunTo(rx, es[..p])
    ensures RunTo(rx, es[..k]) == RunTo(mid, es[p..k])
    decreases k
  {
    if k == p {
      assert es[p..k] == [];
    } else {
      RunSplit(rx, es, p, k - 1, mid);
      Slices(es, p, k);
      SameLast(rx, es[..k], mid, es[p..k], es[..k - 1], es[p..k - 1]);
    }
  }

  /** The event at `p` handed on frame `s` as its `j`-th, and its bytes are still cached. */
  ghost predicate HandedAt(parityCount: nat, start: nat, es: seq<Event>, p: nat, j: nat, s: nat) {
    && p < |es|
    && var before := RunTo(NewRx(parityCount, start), es[..p]);
       var items, mid, post := Admitted(before, es[p]), Step(before, es[p]).rx, es[p + 1..];
       && j < |items| && items[j].0 == s
           && HandedIn(parityCount, start, es[..p], before, es[p], items, j, items[j], mid, post)
       && AfterIt(items, j, mid, post) < 4096
       && AllInTime(post, es[p].now + 2_000_000_000)
  }

  /** Delivered or recovered, with no restart and fewer than 4096 frames since, and no tick two
      seconds later. */
  ghost predicate StillCached(parityCount: nat, start: nat, es: seq<Event>, s: nat) {
    exists p: nat, j: nat :: HandedAt(parityCount, start, es, p, j, s)
  }

  lemma SplitAfter(rx: Rx, es: seq<Event>, p: nat, mid: Rx)
    requires p < |es| && mid == Step(RunTo(rx, es[..p]), es[p]).rx
    ensures RunTo(rx, es) == RunTo(mid, es[p + 1..])
  {
    assert es[..p + 1][..p] == es[..p] && es[..|es|] == es && es[p + 1..|es|] == es[p + 1..];
    RunSplit(rx, es, p + 1, |es|, mid);
  }

  lemma CachedSince(parityCount: nat, start: nat, es: seq<Event>, p: nat, before: Rx, items: seq<Frame>, mid: Rx,
                    j: nat)
    requires p < |es| && j < |items|
        && HandedIn(parityCount, start, es[..p], before, es[p], items, j, items[j], mid, es[p + 1..])
    requires AfterIt(items, j, mid, es[p + 1..]) < 4096 && AllInTime(es[p + 1..], es[p].now + 2_000_000_000)
    ensures items[j].0 in RunTo(NewRx(parityCount, start), es).payloads
  {
    SplitAfter(NewRx(parityCount, start), es, p, mid);
    FrameKept(parityCount, start, es[..p], before, es[p], items, j, items[j], mid, es[p + 1..]);
  }

  lemma CachedInRun(parityCount: nat, start: nat, es: seq<Event>, s: nat)
    requires StillCached(parityCount, start, es, s)
    ensures s in RunTo(NewRx(parityCount, start), es).payloads
  {
    var p: nat, j: nat :| HandedAt(parityCount, start, es, p, j, s);
    var before := RunTo(NewRx(parityCount, start), es[..p]);
    CachedSince(parityCount, start, es, p, before, Admitted(before, es[p]), Step(before, es[p]).rx, j);
  }

  /** A run over one stream, then a share of it that is not read as a restart. */
  ghost predicate RunThenShare(st: Stream, parityCount: nat, start: nat, es: seq<Event>, rx: Rx, k: Kind,
                               par: Parity, top: nat) {
    && (forall i :: 0 <= i < |es| ==> Sent(st, es[i])) && rx == RunTo(NewRx(parityCount, start), es)
    && SentShare(st, par.seqs[0], k, par)
    && rx.highest < Highest(par.seqs) + 16_777_216 && top == Max(rx.highest, Highest(par.seqs))
  }

  lemma ArrivesInRun(st: Stream, parityCount: nat, start: nat, es: seq<Event>, rx: Rx, k: Kind, par: Parity, top: nat)
    requires RunThenShare(st, parityCount, start, es, rx, k, par, top)
    ensures Arrives(st, rx, k, par, top)
  {
    var rx0 := NewRx(parityCount, start);
    FollowsOne(rx0, es, st);
    RunSound(rx0, es, seq(|es|, _ => st));
  }

  /** Never handed on, above the floor and inside the window. */
  ghost predicate NeverCame(parityCount: nat, start: nat, es: seq<Event>, rx: Rx, top: nat, s: nat) {
    && s !in Handed(NewRx(parityCount, start), es)
    && (rx.floor.Some? ==> rx.floor.value < s) && top < s + 65_536
  }

  /** In every run over a stream: all members but one were delivered or recovered and are still
      cached, that one never was. Then a share recovers it with its bytes. */
  lemma RunRecoversOne(st: Stream, parityCount: nat, start: nat, es: seq<Event>, rx: Rx, k: Kind, par: Parity,
                       top: nat, a: nat, now: nat, oldest: nat)
    requires RunThenShare(st, parityCount, start, es, rx, k, par, top)
    requires a < |par.seqs| && NeverCame(parityCount, start, es, rx, top, par.seqs[a])
    requires forall i :: 0 <= i < |par.seqs| && i != a ==> StillCached(parityCount, start, es, par.seqs[i])
    ensures par.seqs[a] in st.frames
    ensures TryRecover(rx, k, par, now, oldest).1 == OutRecovered([(par.seqs[a], st.frames[par.seqs[a]])])
  {
    ArrivesInRun(st, parityCount, start, es, rx, k, par, top);
    NeverHanded(parityCount, start, es, par.seqs[a]);
    forall i | 0 <= i < |par.seqs| && i != a ensures par.seqs[i] in rx.payloads {
      CachedInRun(parityCount, start, es, par.seqs[i]);
    }
    RecoversOne(st, rx, k, par, top, a, now, oldest);
  }

  /** The same with two members that never came, when the group's other share is held. */
  lemma RunRecoversTwo(st: Stream, parityCount: nat, start: nat, es: seq<Event>, rx: Rx, k: Kind, par: Parity,
                       top: nat, a: nat, b: nat, now: nat, oldest: nat)
    requires RunThenShare(st, parityCount, start, es, rx, k, par, top) && parityCount >= 2
        && HoldsOther(rx, par.seqs[0], k)
    requires a < b < |par.seqs|
    requires NeverCame(parityCount, start, es, rx, top, par.seqs[a])
        && NeverCame(parityCount, start, es, rx, top, par.seqs[b])
    requires forall i :: 0 <= i < |par.seqs| && i != a && i != b ==> StillCached(parityCount, start, es, par.seqs[i])
    ensures par.seqs[a] in st.frames && par.seqs[b] in st.frames
    ensures TryRecover(rx, k, par, now, oldest).1
            == OutRecovered([(par.seqs[a], st.frames[par.seqs[a]]), (par.seqs[b], st.frames[par.seqs[b]])])
  {
    ArrivesInRun(st, parityCount, start, es, rx, k, par, top);
    NeverHanded(parityCount, start, es, par.seqs[a]);
    NeverHanded(parityCount, start, es, par.seqs[b]);
    forall i | 0 <= i < |par.seqs| && i != a && i != b ensures par.seqs[i] in rx.payloads {
      CachedInRun(parityCount, start, es, par.seqs[i]);
    }
    RunLimits(NewRx(parityCount, start), es);
    RecoversTwo(st, rx, k, par, top, a, b, now, oldest);
  }
}
