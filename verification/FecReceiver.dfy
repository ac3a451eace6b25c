/** The receiver side of forward error correction, as a state machine on values. Times are
    nanoseconds of a monotone clock, read once per operation; the choice among equally old
    parked groups, which a hash map leaves open, is an argument. */
module FecReceiver {
  import opened Bytes
  import opened Common
  import opened Gf
  import opened GfTables
  import opened FecGroup

  const PAYLOAD_TTL: nat := 2_000_000_000
  const MAX_PAYLOADS: nat := 4096
  const SEEN_GENERATION: nat := 2_000_000_000
  const MAX_SEEN_PER_GENERATION: nat := 131_072
  const STALE_SEQ_WINDOW: nat := 65_536
  const SEQ_RESET_GAP: nat := 16_777_216
  const MAX_PARKED_GROUPS: nat := 512

  datatype Shares = Shares(p: Option<Parity>, q: Option<Parity>) {
    /** The share the group's member list is read from. */
    function Any(): Option<Parity> {
      if p.Some? then p else q
    }
    function With(k: Kind, parity: Parity): Shares {
      if k.P? then Shares(Some(parity), q) else Shares(p, Some(parity))
    }
  }

  datatype ParkedGroup = ParkedGroup(at: nat, shares: Shares, missing: seq<nat>)

  datatype Stored = Stored(at: nat, body: bytes)

  datatype Rx = Rx(
    payloadTtl: nat, seenGeneration: nat, parityCount: nat,
    payloads: map<nat, Stored>, order: seq<nat>,
    current: set<nat>, previous: set<nat>, rotatedAt: nat,
    floor: Option<nat>, rotationHigh: Option<nat>, highest: nat,
    parked: map<nat, ParkedGroup>, parkedBySeq: map<nat, nat>, givenUp: nat)

  datatype MemberState = Known | Handled | Missing

  datatype Eval =
    | Recovered(items: seq<Frame>)
    | AlreadyComplete
    | Unrecoverable
    | NeedMore(missing: seq<nat>)

  datatype Outcome = OutRecovered(items: seq<Frame>) | OutUnrecoverable | OutComplete | OutPending

  function NewRx(parityCount: nat, now: nat): Rx {
    Rx(PAYLOAD_TTL, SEEN_GENERATION, parityCount, map[], [], {}, {}, now, None, None, 0, map[], map[], 0)
  }

  // ----- sequence tracking

  /** A sequence number this far below the highest one means that the peer restarted. */
  predicate Resets(rx: Rx, seqno: nat) {
    seqno <= rx.highest && rx.highest - seqno >= SEQ_RESET_GAP
  }

  function NoteSeq(rx: Rx, seqno: nat): Rx {
    if seqno > rx.highest then rx.(highest := seqno)
    else if Resets(rx, seqno) then
      rx.(payloads := map[], order := [], current := {}, previous := {},
          floor := None, rotationHigh := None, highest := seqno)
    else rx
  }

  function RotateSeen(rx: Rx, now: nat): Rx {
    rx.(previous := rx.current, current := {}, floor := rx.rotationHigh,
        rotationHigh := Some(rx.highest), rotatedAt := now)
  }

  function MarkSeen(rx: Rx, seqno: nat, now: nat): Rx {
    var rx' := rx.(current := rx.current + {seqno});
    if |rx'.current| > MAX_SEEN_PER_GENERATION then RotateSeen(rx', now) else rx'
  }

  predicate Seen(rx: Rx, seqno: nat) {
    seqno in rx.current || seqno in rx.previous
  }

  function StateOf(rx: Rx, seqno: nat): MemberState {
    if seqno in rx.payloads then Known
    else if Seen(rx, seqno) then Handled
    else if rx.floor.Some? && seqno <= rx.floor.value then Handled
    else if seqno + STALE_SEQ_WINDOW <= rx.highest then Handled
    else Missing
  }

  // ----- payload cache

  /** Oldest-first eviction down to the count limit. */
  function Evicted(rx: Rx): Rx {
    if |rx.order| > MAX_PAYLOADS then
      var k := |rx.order| - MAX_PAYLOADS;
      rx.(payloads := rx.payloads - Elements(rx.order[..k]), order := rx.order[k..])
    else rx
  }

  function InsertPayload(rx: Rx, seqno: nat, body: bytes, now: nat): Rx {
    Evicted(rx.(payloads := rx.payloads[seqno := Stored(now, body)],
                order := if seqno in rx.payloads then rx.order else rx.order + [seqno]))
  }

  /** Mark a frame as accounted for and keep its plaintext. */
  function Admit(rx: Rx, f: Frame, now: nat): Rx {
    InsertPayload(MarkSeen(rx, f.0, now), f.0, f.1, now)
  }

  function AdmitAll(rx: Rx, items: seq<Frame>, now: nat): Rx {
    if items == [] then rx
    else Admit(AdmitAll(rx, items[..|items| - 1], now), items[|items| - 1], now)
  }

  // ----- reconstruction

  /** Positions below `n` whose member is missing. */
  function MissingBelow(rx: Rx, seqs: seq<nat>, n: nat): (r: seq<nat>)
    requires n <= |seqs|
    ensures forall j :: 0 <= j < |r| ==> r[j] < n && StateOf(rx, seqs[r[j]]).Missing?
    ensures forall i, j :: 0 <= i < j < |r| ==> r[i] < r[j]
    ensures forall i :: 0 <= i < n && StateOf(rx, seqs[i]).Missing? ==> i in r
  {
    if n == 0 then []
    else
      var r := MissingBelow(rx, seqs, n - 1);
      if StateOf(rx, seqs[n - 1]).Missing? then r + [n - 1] else r
  }

  predicate AnyHandled(rx: Rx, seqs: seq<nat>) {
    exists i :: 0 <= i < |seqs| && StateOf(rx, seqs[i]).Handled?
  }

  /** A share with the contribution of every member below `n` that is not missing removed.
      `None` when a payload is gone or wider than the share. */
  function Stripped(rx: Rx, k: Kind, share: bytes, seqs: seq<nat>, missing: seq<nat>, n: nat): (r: Option<bytes>)
    requires n <= |seqs|
    ensures r.Some? ==> |r.value| == |share|
  {
    if n == 0 then Some(share)
    else
      var rest := Stripped(rx, k, share, seqs, missing, n - 1);
      if rest.None? then None
      else if n - 1 in missing then rest
      else if seqs[n - 1] !in rx.payloads then None
      else if |rx.payloads[seqs[n - 1]].body| > |share| then None
      else Some(Accumulated(rest.value, rx.payloads[seqs[n - 1]].body, Coef(k, n - 1)))
  }

  function Truncated(b: bytes, n: nat): bytes {
    if n < |b| then b[..n] else b
  }

  /** The single missing member `a`, from whichever share is at hand. */
  ghost function SolvedOne(p': Option<bytes>, q': Option<bytes>, a: nat): Option<bytes> {
    if p'.Some? then p'
    else if q'.Some? then
      PowerNonZero(a);
      Some(Scaled(q'.value, Inv(Power(a))))
    else None
  }

  /** Missing members `a` and `b` from both shares. */
  ghost function SolvedTwo(p': bytes, q': bytes, a: nat, b: nat): (bytes, bytes)
    requires |p'| == |q'|
    requires a < b < 255
  {
    PowerDistinct(a, b);
    XorCancel(Power(a), Power(b));
    var db := Scaled(Accumulated(q', p', Power(a)), Inv(Add(Power(a), Power(b))));
    (Accumulated(p', db, 1), db)
  }

  function SeqsAt(seqs: seq<nat>, idx: seq<nat>): (r: seq<nat>)
    requires forall j :: 0 <= j < |idx| ==> idx[j] < |seqs|
    ensures |r| == |idx|
  {
    seq(|idx|, j requires 0 <= j < |idx| => seqs[idx[j]])
  }

  /** Two shares can only be combined when they describe the same group. */
  predicate Consistent(shares: Shares) {
    shares.p.Some? && shares.q.Some? ==>
      && |shares.p.value.parity| == |shares.q.value.parity|
      && shares.p.value.seqs == shares.q.value.seqs
      && shares.p.value.lens == shares.q.value.lens
  }

  /** The reconstruction once classification and consistency checks have passed. */
  ghost function Reconstruct(rx: Rx, shares: Shares, missing: seq<nat>): Eval
    requires shares.Any().Some? && Consistent(shares)
    requires missing == MissingBelow(rx, shares.Any().value.seqs, |shares.Any().value.seqs|)
    requires |missing| == 1 || (|missing| == 2 && shares.p.Some? && shares.q.Some?)
  {
    var any := shares.Any().value;
    var n := |any.seqs|;
    var p' := if shares.p.Some? then Stripped(rx, P, shares.p.value.parity, any.seqs, missing, n) else None;
    var q' := if shares.q.Some? then Stripped(rx, Q, shares.q.value.parity, any.seqs, missing, n) else None;
    if (shares.p.Some? && p'.None?) || (shares.q.Some? && q'.None?) then Unrecoverable
    else if |missing| == 1 then
      var a := missing[0];
      Recovered([(any.seqs[a], Truncated(SolvedOne(p', q', a).value, any.lens[a]))])
    else
      var a, b := missing[0], missing[1];
      var (da, db) := SolvedTwo(p'.value, q'.value, a, b);
      Recovered([(any.seqs[a], Truncated(da, any.lens[a])), (any.seqs[b], Truncated(db, any.lens[b]))])
  }

  /** The verdict on a group, given the shares held for it. */
  ghost function Judge(rx: Rx, shares: Shares): Eval {
    if shares.Any().None? then Unrecoverable
    else
      var any := shares.Any().value;
      var missing := MissingBelow(rx, any.seqs, |any.seqs|);
      if missing == [] then AlreadyComplete
      else if |missing| > (if rx.parityCount >= 2 then 2 else 1) || AnyHandled(rx, any.seqs) then Unrecoverable
      else if |missing| == 2 && !(shares.p.Some? && shares.q.Some?) then NeedMore(SeqsAt(any.seqs, missing))
      else if !Consistent(shares) then Unrecoverable
      else if exists i :: i in missing && any.lens[i] > |any.parity| then Unrecoverable
      else Reconstruct(rx, shares, missing)
  }

  ghost function Evaluate(rx: Rx, shares: Shares, now: nat): (Rx, Eval) {
    var e := Judge(rx, shares);
    (if e.Recovered? then AdmitAll(rx, e.items, now) else rx, e)
  }

  // ----- parked groups

  /** Forget a parked group and every index entry of its missing members. */
  function DropParked(rx: Rx, key: nat): Rx {
    if key in rx.parked then
      rx.(parked := rx.parked - {key}, parkedBySeq := rx.parkedBySeq - Elements(rx.parked[key].missing))
    else rx
  }

  predicate IsOldest(parked: map<nat, ParkedGroup>, key: nat) {
    key in parked && forall k :: k in parked ==> parked[key].at <= parked[k].at
  }

  function MakeRoom(rx: Rx, oldest: nat): Rx {
    if |rx.parked| >= MAX_PARKED_GROUPS then
      var rx' := DropParked(rx, oldest);
      rx'.(givenUp := rx'.givenUp + 1)
    else rx
  }

  function Indexed(m: map<nat, nat>, missing: seq<nat>, key: nat): (r: map<nat, nat>) {
    m + map s | s in missing :: key
  }

  function Park(rx: Rx, key: nat, shares: Shares, missing: seq<nat>, at: nat, oldest: nat): Rx {
    var rx' := MakeRoom(rx, oldest);
    rx'.(parkedBySeq := Indexed(rx'.parkedBySeq, missing, key),
         parked := rx'.parked[key := ParkedGroup(at, shares, missing)])
  }

  // ----- the three entry points

  function Highest(seqs: seq<nat>): (m: nat)
    requires seqs != []
    ensures m in seqs && forall i :: 0 <= i < |seqs| ==> seqs[i] <= m
  {
    if |seqs| == 1 then seqs[0]
    else
      var m := Highest(seqs[1..]);
      if seqs[0] > m then seqs[0] else m
  }

  /** The shares of a group evaluated, and parked if a further share may complete them. */
  ghost function Settle(rx: Rx, key: nat, shares: Shares, now: nat, oldest: nat): (Rx, Outcome) {
    var (rx', e) := Evaluate(rx, shares, now);
    match e
    case Recovered(items) => (rx', OutRecovered(items))
    case AlreadyComplete => (rx', OutComplete)
    case Unrecoverable => (rx', OutUnrecoverable)
    case NeedMore(missing) => (Park(rx', key, shares, missing, now, oldest), OutPending)
  }

  /** The shares already held for the group with this first member. */
  function HeldShares(rx: Rx, key: nat): Shares {
    if key in rx.parked then rx.parked[key].shares else Shares(None, None)
  }

  /** A share arrives. */
  ghost function TryRecover(rx: Rx, k: Kind, parity: WireParity, now: nat, oldest: nat): (Rx, Outcome) {
    if |parity.seqs| != |parity.lens| || parity.seqs == [] then (rx, OutUnrecoverable)
    else
      var rx1 := NoteSeq(rx, Highest(parity.seqs));
      var key := parity.seqs[0];
      Settle(DropParked(rx1, key), key, HeldShares(rx1, key).With(k, parity), now, oldest)
  }

  /** A parked group `g`, already taken off the parking, looked at once more. */
  ghost function Revisit(rx: Rx, key: nat, g: ParkedGroup, now: nat, oldest: nat): (Rx, seq<Frame>) {
    var (rx', e) := Evaluate(rx, g.shares, now);
    match e
    case Recovered(items) => (rx', items)
    case AlreadyComplete => (rx', [])
    case Unrecoverable => (rx'.(givenUp := rx'.givenUp + 1), [])
    case NeedMore(missing) => (Park(rx', key, g.shares, missing, g.at, oldest), [])
  }

  /** A late frame may complete the parked group that waits for it; the second component is
      what that recovers. */
  ghost function Recheck(rx: Rx, seqno: nat, now: nat, oldest: nat): (Rx, seq<Frame>) {
    if seqno !in rx.parkedBySeq then (rx, [])
    else
      var key := rx.parkedBySeq[seqno];
      var rx1 := rx.(parkedBySeq := rx.parkedBySeq - {seqno});
      if key !in rx1.parked then (rx1, [])
      else Revisit(DropParked(rx1, key), key, rx1.parked[key], now, oldest)
  }

  datatype Observed = Observed(rx: Rx, deliver: bool, late: seq<Frame>)

  /** A Data frame arrives: whether to deliver it, and what it lets a parked group recover. */
  ghost function ObserveData(rx: Rx, seqno: nat, body: bytes, now: nat, oldest: nat): Observed {
    var rx1 := NoteSeq(rx, seqno);
    if Seen(rx1, seqno) then Observed(rx1, false, [])
    else
      var rx2 := Admit(rx1, (seqno, body), now);
      var (rx3, late) := if |rx2.parked| == 0 then (rx2, []) else Recheck(rx2, seqno, now, oldest);
      Observed(rx3, true, late)
  }

  // ----- periodic maintenance

  predicate Expired(rx: Rx, seqno: nat, now: nat) {
    seqno in rx.payloads ==> now >= rx.payloads[seqno].at + rx.payloadTtl
  }

  function ExpirePayloads(rx: Rx, now: nat): Rx
    decreases |rx.order|
  {
    if rx.order != [] && Expired(rx, rx.order[0], now) then
      ExpirePayloads(rx.(order := rx.order[1..], payloads := rx.payloads - {rx.order[0]}), now)
    else rx
  }

  function StaleParked(rx: Rx, now: nat): set<nat> {
    set k | k in rx.parked && now >= rx.parked[k].at + rx.payloadTtl
  }

  /** The members that the parked groups `keys` wait for. */
  function WaitedBy(rx: Rx, keys: set<nat>): set<nat>
    requires keys <= rx.parked.Keys
  {
    set k, s | k in keys && s in rx.parked[k].missing :: s
  }

  function ExpireParked(rx: Rx, now: nat): Rx {
    var stale := StaleParked(rx, now);
    rx.(parked := rx.parked - stale,
        parkedBySeq := rx.parkedBySeq - WaitedBy(rx, stale),
        givenUp := rx.givenUp + |stale|)
  }

  function RotateIfDue(rx: Rx, now: nat): Rx {
    if now >= rx.rotatedAt + rx.seenGeneration then RotateSeen(rx, now) else rx
  }

  /** Returns the number of groups given up since the last tick. */
  function Tick(rx: Rx, now: nat): (Rx, nat) {
    var rx' := RotateIfDue(ExpireParked(ExpirePayloads(rx, now), now), now);
    (rx'.(givenUp := 0), rx'.givenUp)
  }
}
