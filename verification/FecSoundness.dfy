/** End-to-end soundness: whatever is lost, delayed or reordered, every recovered frame is
    byte for byte what the sender accumulated under that sequence number. */
module FecSoundness {
  import opened Bytes
  import opened FecGroup
  import opened FecReceiver
  import opened FecRecovery
  import opened FecSafety
  import opened FecParking
  import opened FecRuns
  import opened FecOpenRuns

  /** One incarnation of the peer's stream: its frames, and the groups by first member. */
  datatype Stream = Stream(frames: Truth, groups: map<nat, seq<nat>>)

  /** A share this stream's sender emits for the group that starts at `key`. */
  ghost predicate SentShare(st: Stream, key: nat, k: Kind, par: ParityData) {
    && key in st.groups && par.seqs == st.groups[key]
    && Genuine(st.frames, k, par)
  }

  ghost predicate SentShares(st: Stream, key: nat, shares: Shares) {
    && shares.Any().Some?
    && (shares.p.Some? ==> SentShare(st, key, P, shares.p.value))
    && (shares.q.Some? ==> SentShare(st, key, Q, shares.q.value))
  }

  /** The group was parked for another stream, and this one has no group of that key and no
      frame it waits for. */
  ghost predicate Foreign(st: Stream, key: nat, g: ParkedGroup) {
    key !in st.groups && forall s :: s in g.missing ==> s !in st.frames
  }

  ghost predicate Fits(st: Stream, key: nat, g: ParkedGroup) {
    SentShares(st, key, g.shares) || Foreign(st, key, g)
  }

  ghost predicate AllFit(st: Stream, rx: Rx) {
    forall k :: k in rx.parked ==> Fits(st, k, rx.parked[k])
  }

  ghost predicate SoundInv(st: Stream, rx: Rx) {
    Faithful(st.frames, rx) && AllFit(st, rx)
  }

  lemma OwnGroup(st: Stream, rx: Rx, key: nat)
    requires SoundInv(st, rx) && key in rx.parked && key in st.groups
    ensures SentShares(st, key, rx.parked[key].shares)
  {
    assert Fits(st, key, rx.parked[key]);
  }

  /** The event carries something this stream's sender sent. */
  ghost predicate Sent(st: Stream, e: Event) {
    match e
    case Data(s, body, _, _) => s in st.frames && st.frames[s] == body
    case ParityShare(k, par, _, _) => WellFormed(par) ==> SentShare(st, par.seqs[0], k, par)
    case Maintenance(_) => true
  }

  ghost predicate TrueFrames(st: Stream, items: seq<Frame>) {
    forall i :: 0 <= i < |items| ==> items[i].0 in st.frames && st.frames[items[i].0] == items[i].1
  }

  // ----- how the pieces keep soundness

  lemma AdmitFaithful(truth: Truth, rx: Rx, f: Frame, now: nat)
    requires Faithful(truth, rx) && f.0 in truth && truth[f.0] == f.1
    ensures Faithful(truth, Admit(rx, f, now)) && Admit(rx, f, now).parked == rx.parked
  {
  }

  lemma {:induction false} AdmitAllFaithful(st: Stream, rx: Rx, items: seq<Frame>, now: nat)
    requires Faithful(st.frames, rx) && TrueFrames(st, items)
    ensures Faithful(st.frames, AdmitAll(rx, items, now)) && AdmitAll(rx, items, now).parked == rx.parked
  {
    if items != [] {
      var n := |items| - 1;
      AdmitAllFaithful(st, rx, items[..n], now);
      AdmitFaithful(st.frames, AdmitAll(rx, items[..n], now), items[n], now);
    }
  }

  lemma SentAreGenuine(st: Stream, key: nat, shares: Shares)
    requires SentShares(st, key, shares)
    ensures GenuineShares(st.frames, shares)
  {
  }

  lemma EvaluateSound(st: Stream, rx: Rx, key: nat, shares: Shares, now: nat)
    requires SoundInv(st, rx) && SentShares(st, key, shares)
    ensures var (rx', e) := Evaluate(rx, shares, now);
            SoundInv(st, rx') && (e.Recovered? ==> TrueFrames(st, e.items))
  {
    SentAreGenuine(st, key, shares);
    JudgeKeepsPromise(rx, shares, st.frames);
    var e := Judge(rx, shares);
    if e.Recovered? {
      AdmitAllFaithful(st, rx, e.items, now);
    }
  }

  lemma ParkSound(st: Stream, rx: Rx, key: nat, shares: Shares, missing: seq<nat>, at: nat, oldest: nat)
    requires SoundInv(st, rx) && SentShares(st, key, shares)
    ensures SoundInv(st, Park(rx, key, shares, missing, at, oldest))
  {
  }

  lemma SettleSound(st: Stream, rx: Rx, key: nat, shares: Shares, now: nat, oldest: nat)
    requires SoundInv(st, rx) && SentShares(st, key, shares)
    ensures var (rx', out) := Settle(rx, key, shares, now, oldest);
            SoundInv(st, rx') && (out.OutRecovered? ==> TrueFrames(st, out.items))
  {
    EvaluateSound(st, rx, key, shares, now);
    var (rx', e) := Evaluate(rx, shares, now);
    if e.NeedMore? {
      ParkSound(st, rx', key, shares, e.missing, now, oldest);
    }
  }

  lemma RevisitSound(st: Stream, rx: Rx, key: nat, g: ParkedGroup, now: nat, oldest: nat)
    requires SoundInv(st, rx) && SentShares(st, key, g.shares)
    ensures var (rx', late) := Revisit(rx, key, g, now, oldest); SoundInv(st, rx') && TrueFrames(st, late)
  {
    EvaluateSound(st, rx, key, g.shares, now);
    var (rx', e) := Evaluate(rx, g.shares, now);
    if e.NeedMore? {
      ParkSound(st, rx', key, g.shares, e.missing, g.at, oldest);
    }
  }

  /** A frame of this stream only ever leads to a group of this stream. */
  lemma RecheckSound(st: Stream, rx: Rx, s: nat, now: nat, oldest: nat)
    requires SoundInv(st, rx) && IndexInv(rx) && s in st.frames
    ensures var (rx', late) := Recheck(rx, s, now, oldest); SoundInv(st, rx') && TrueFrames(st, late)
  {
    if s in rx.parkedBySeq {
      var key := rx.parkedBySeq[s];
      var rx1 := rx.(parkedBySeq := rx.parkedBySeq - {s});
      assert Fits(st, key, rx.parked[key]);
      RevisitSound(st, DropParked(rx1, key), key, rx.parked[key], now, oldest);
    }
  }

  lemma {:induction false} ExpireFaithful(truth: Truth, rx: Rx, now: nat)
    requires Faithful(truth, rx)
    ensures Faithful(truth, ExpirePayloads(rx, now))
    decreases |rx.order|
  {
    if rx.order != [] && Expired(rx, rx.order[0], now) {
      ExpireFaithful(truth, rx.(order := rx.order[1..], payloads := rx.payloads - {rx.order[0]}), now);
    }
  }

  lemma TickSound(st: Stream, rx: Rx, now: nat)
    requires SoundInv(st, rx)
    ensures SoundInv(st, Tick(rx, now).0)
  {
    ExpireFaithful(st.frames, rx, now);
    ExpireSameParked(rx, now);
  }

  lemma MergeSent(st: Stream, rx: Rx, k: Kind, par: Parity)
    requires SoundInv(st, rx) && SentShare(st, par.seqs[0], k, par)
    ensures SentShares(st, par.seqs[0], HeldShares(rx, par.seqs[0]).With(k, par))
  {
    if par.seqs[0] in rx.parked {
      OwnGroup(st, rx, par.seqs[0]);
    }
  }

  lemma DataSound(st: Stream, rx: Rx, base: Rx, s: nat, body: bytes, now: nat, oldest: nat)
    requires SoundInv(st, base) && IndexInv(base) && base == NoteSeq(rx, s) && s in st.frames && st.frames[s] == body
    ensures var o := ObserveData(rx, s, body, now, oldest); SoundInv(st, o.rx) && TrueFrames(st, o.late)
  {
    if !Seen(base, s) {
      DataIsAdmitted(rx, base, s, body, now, oldest);
      AdmitFaithful(st.frames, base, (s, body), now);
      RecheckSound(st, Admit(base, (s, body), now), s, now, oldest);
    }
  }

  lemma ShareSound(st: Stream, rx: Rx, base: Rx, k: Kind, par: Parity, now: nat, oldest: nat)
    requires SoundInv(st, base) && base == NoteSeq(rx, Highest(par.seqs)) && SentShare(st, par.seqs[0], k, par)
    ensures var (rx', out) := TryRecover(rx, k, par, now, oldest);
            SoundInv(st, rx') && (out.OutRecovered? ==> TrueFrames(st, out.items))
  {
    var key := par.seqs[0];
    MergeSent(st, base, k, par);
    ShareIsSettled(rx, base, k, par, now, oldest);
    SettleSound(st, DropParked(base, key), key, HeldShares(base, key).With(k, par), now, oldest);
  }

  /** One event of the stream, from any state that is sound for it once the number is noted. */
  lemma StepSound(st: Stream, rx: Rx, e: Event)
    requires SoundInv(st, Base(rx, e)) && IndexInv(rx) && Sent(st, e)
    ensures SoundInv(st, Step(rx, e).rx) && TrueFrames(st, Step(rx, e).recovered)
  {
    match e
    case Data(s, body, now, oldest) => DataSound(st, rx, Base(rx, e), s, body, now, oldest);
    case ParityShare(k, par, now, oldest) =>
      if WellFormed(par) {
        ShareSound(st, rx, Base(rx, e), k, par, now, oldest);
      }
    case Maintenance(now) => TickSound(st, rx, now);
  }

  /** A restart is sound for every following stream that the parked groups fit. */
  lemma RestartSound(st: Stream, rx: Rx, s: nat)
    requires Resets(rx, s) && AllFit(st, rx)
    ensures SoundInv(st, NoteSeq(rx, s))
  {
  }

  // ----- runs

  /** `sts[i]` is the stream that event `i` belongs to. It changes only at an event that is
      read as a restart, to a stream that every group still parked fits. */
  ghost predicate Follows(rx: Rx, es: seq<Event>, sts: seq<Stream>)
    requires |sts| == |es|
  {
    es == [] ||
    var n := |es| - 1;
    var before := RunTo(rx, es[..n]);
    && Follows(rx, es[..n], sts[..n])
    && Sent(sts[n], es[n])
    && (n == 0 || sts[n] == sts[n - 1] || (Restarts(before, es[n]) && AllFit(sts[n], before)))
  }

  lemma NoteSound(st: Stream, rx: Rx, s: nat)
    requires SoundInv(st, rx)
    ensures SoundInv(st, NoteSeq(rx, s)) && NoteSeq(rx, s).parked == rx.parked
  {
  }

  lemma BaseSound(st: Stream, rx: Rx, e: Event)
    requires SoundInv(st, rx)
    ensures SoundInv(st, Base(rx, e))
  {
    if Noted(e).Some? {
      NoteSound(st, rx, Noted(e).value);
    }
  }

  lemma NextSound(before: Rx, e: Event, st: Stream, was: Stream)
    requires SoundInv(was, before) && IndexInv(before) && Sent(st, e)
    requires st == was || (Restarts(before, e) && AllFit(st, before))
    ensures SoundInv(st, Step(before, e).rx) && TrueFrames(st, Step(before, e).recovered) && IndexInv(Step(before, e).rx)
  {
    StepIndex(before, e);
    if st == was {
      BaseSound(st, before, e);
    } else {
      RestartSound(st, before, Noted(e).value);
    }
    StepSound(st, before, e);
  }

  /** Through restarts and changes of stream, whatever an event recovers is what the stream
      it belongs to sent. */
  lemma {:induction false} RunSound(rx: Rx, es: seq<Event>, sts: seq<Stream>)
    requires |sts| == |es| && Follows(rx, es, sts)
    requires rx.payloads == map[] && rx.parked == map[] && rx.parkedBySeq == map[]
    ensures IndexInv(RunTo(rx, es))
    ensures es != [] ==> SoundInv(sts[|es| - 1], RunTo(rx, es))
    ensures es != [] ==> TrueFrames(sts[|es| - 1], Step(RunTo(rx, es[..|es| - 1]), es[|es| - 1]).recovered)
  {
    if es != [] {
      var n := |es| - 1;
      var before, was := RunTo(rx, es[..n]), if n == 0 then sts[n] else sts[n - 1];
      RunSound(rx, es[..n], sts[..n]);
      assert SoundInv(was, before);
      NextSound(before, es[n], sts[n], was);
    }
  }

  lemma {:induction false} FollowsOne(rx: Rx, es: seq<Event>, st: Stream)
    requires forall i :: 0 <= i < |es| ==> Sent(st, es[i])
    ensures Follows(rx, es, seq(|es|, _ => st))
  {
    if es != [] {
      var n := |es| - 1;
      FollowsOne(rx, es[..n], st);
      assert seq(|es|, _ => st)[..n] == seq(n, _ => st);
    }
  }
}
