/** The sender and the receiver as the objects that update their buffers, maps and sets in
    place. Each method computes the step of the value-level machine. */
module FecBuffer {
  import opened Bytes
  import opened Common
  import opened Gf
  import opened GfTables
  import FecGroup
  import R = FecReceiver

  type Frame = FecGroup.Frame
  type Kind = FecGroup.Kind

  /** Zero-extend a buffer; a buffer that is long enough is kept. */
  method Resize(a: array<byte>, n: nat) returns (b: array<byte>)
    ensures b == a || fresh(b)
    ensures b[..] == FecGroup.Resized(a[..], n)
  {
    if n > a.Length {
      b := new byte[n](i requires 0 <= i reads a => if i < a.Length then a[i] else 0);
    } else {
      b := a;
    }
  }

  class FecSender {
    const groupSize: nat
    const withQ: bool
    var seqs: seq<nat>
    var lens: seq<nat>
    var links: seq<nat>
    var parity: array<byte>
    var q: array<byte>

    ghost predicate Valid()
      reads this
    {
      parity != q
    }

    ghost function View(): FecGroup.Sender
      reads this, parity, q
    {
      FecGroup.Sender(groupSize, withQ, seqs, lens, links, parity[..], q[..])
    }

    constructor (groupSize: nat, parityCount: nat)
      ensures Valid() && fresh(parity) && fresh(q)
      ensures View() == FecGroup.NewSender(groupSize, parityCount)
    {
      this.groupSize := groupSize;
      this.withQ := parityCount >= 2;
      seqs, lens, links := [], [], [];
      parity := new byte[0];
      q := new byte[0];
    }

    /** Add one frame's contribution to the shares. */
    method Fold(t: Tables, plaintext: bytes)
      requires Valid() && t.Valid()
      modifies this`parity, this`q, parity, q
      ensures Valid()
      ensures parity == old(parity) || fresh(parity)
      ensures q == old(q) || fresh(q)
      ensures parity[..] == Accumulated(FecGroup.Resized(old(parity[..]), |plaintext|), plaintext, 1)
      ensures q[..] == if withQ then Accumulated(FecGroup.Resized(old(q[..]), |plaintext|), plaintext, Power(|seqs|))
                       else old(q[..])
    {
      parity := Resize(parity, |plaintext|);
      XorInto(parity, plaintext);
      if withQ {
        q := Resize(q, |plaintext|);
        MulAcc(t, q, plaintext, Pow2Table(t, |seqs|));
      }
    }

    /** Fold one frame into the group; the completed group when it was the last member. */
    method Accumulate(t: Tables, seqno: nat, plaintext: bytes, link: nat) returns (g: Option<FecGroup.Group>)
      requires Valid() && t.Valid()
      modifies this, parity, q
      ensures Valid()
      ensures parity == old(parity) || fresh(parity)
      ensures q == old(q) || fresh(q)
      ensures (View(), g) == FecGroup.Accumulate(old(View()), seqno, plaintext, link)
    {
      Fold(t, plaintext);
      seqs := seqs + [seqno];
      links := links + [link];
      lens := lens + [|plaintext| % 65536];
      if |seqs| < groupSize {
        return None;
      }
      var qShare := if withQ then Some(FecGroup.Parity(seqs, lens, q[..])) else None;
      g := Some(FecGroup.Group(FecGroup.Parity(seqs, lens, parity[..]), qShare, links));
      seqs, lens, links := [], [], [];
      parity := new byte[0];
      if withQ {
        q := new byte[0];
      }
      assert parity[..] == [] && (withQ ==> q[..] == []);
    }
  }

  /** A share that cannot be stripped below `i` cannot be stripped at all. */
  lemma {:induction false} StrippedNone(rx: R.Rx, k: Kind, share: bytes, seqs: seq<nat>, missing: seq<nat>, i: nat,
                                        n: nat)
    requires i <= n <= |seqs| && R.Stripped(rx, k, share, seqs, missing, i).None?
    ensures R.Stripped(rx, k, share, seqs, missing, n).None?
    decreases n - i
  {
    if i < n {
      StrippedNone(rx, k, share, seqs, missing, i + 1, n);
    }
  }

  ghost function StrippedShare(rx: R.Rx, k: Kind, share: Option<FecGroup.Parity>, seqs: seq<nat>, missing: seq<nat>,
                               n: nat): Option<bytes>
    requires n <= |seqs|
  {
    if share.Some? then R.Stripped(rx, k, share.value.parity, seqs, missing, n) else None
  }

  method ToArray(b: bytes) returns (a: array<byte>)
    ensures fresh(a) && a[..] == b
  {
    a := new byte[|b|](i requires 0 <= i < |b| => b[i]);
  }

  /** The single missing member, in place in whichever stripped share is at hand. */
  method SolveOneInPlace(t: Tables, haveP: bool, pp: array<byte>, qp: array<byte>, a: nat) returns (data: bytes)
    requires t.Valid()
    modifies qp
    ensures data == R.SolvedOne(if haveP then Some(old(pp[..])) else None, Some(old(qp[..])), a).value
  {
    if haveP {
      data := pp[..];
    } else {
      PowerNonZero(a);
      Scale(t, qp, InvTable(t, Pow2Table(t, a)));
      data := qp[..];
    }
  }

  /** Both missing members, solved in place. */
  method SolveTwoInPlace(t: Tables, pp: array<byte>, qp: array<byte>, a: nat, b: nat) returns (da: bytes, db: bytes)
    requires t.Valid() && pp != qp && pp.Length == qp.Length && a < b < 255
    modifies pp, qp
    ensures (da, db) == R.SolvedTwo(old(pp[..]), old(qp[..]), a, b)
  {
    var ga, gb := Pow2Table(t, a), Pow2Table(t, b);
    PowerDistinct(a, b);
    XorCancel(ga, gb);
    MulAcc(t, qp, pp[..], ga);
    Scale(t, qp, InvTable(t, Add(ga, gb)));
    db := qp[..];
    XorInto(pp, db);
    da := pp[..];
  }

  class FecRecoveryBuffer {
    const payloadTtl: nat
    const seenGeneration: nat
    const parityCount: nat
    var payloads: map<nat, R.Stored>
    var payloadOrder: seq<nat>
    var seenCurrent: set<nat>
    var seenPrevious: set<nat>
    var seenRotatedAt: nat
    var seenFloor: Option<nat>
    var seenRotationHigh: Option<nat>
    var highestSeq: nat
    var parked: map<nat, R.ParkedGroup>
    var parkedBySeq: map<nat, nat>
    var lateRecoveries: seq<Frame>
    var givenUp: nat

    ghost function View(): R.Rx
      reads this
    {
      R.Rx(payloadTtl, seenGeneration, parityCount, payloads, payloadOrder, seenCurrent, seenPrevious,
           seenRotatedAt, seenFloor, seenRotationHigh, highestSeq, parked, parkedBySeq, givenUp)
    }

    constructor (parityCount: nat, now: nat)
      ensures View() == R.NewRx(parityCount, now) && lateRecoveries == []
    {
      this.payloadTtl := R.PAYLOAD_TTL;
      this.seenGeneration := R.SEEN_GENERATION;
      this.parityCount := parityCount;
      payloads, payloadOrder := map[], [];
      seenCurrent, seenPrevious, seenRotatedAt := {}, {}, now;
      seenFloor, seenRotationHigh, highestSeq := None, None, 0;
      parked, parkedBySeq, lateRecoveries, givenUp := map[], map[], [], 0;
    }

    function MemberState(s: nat): (r: R.MemberState)
      reads this
      ensures r == R.StateOf(View(), s)
    {
      if s in payloads then R.Known
      else if s in seenCurrent || s in seenPrevious then R.Handled
      else if seenFloor.Some? && s <= seenFloor.value then R.Handled
      else if s + R.STALE_SEQ_WINDOW <= highestSeq then R.Handled
      else R.Missing
    }

    method NoteSeq(s: nat)
      modifies this
      ensures View() == R.NoteSeq(old(View()), s) && lateRecoveries == old(lateRecoveries)
    {
      if s > highestSeq {
        highestSeq := s;
        return;
      }
      if highestSeq - s >= R.SEQ_RESET_GAP {
        payloads, payloadOrder := map[], [];
        seenCurrent, seenPrevious := {}, {};
        seenFloor, seenRotationHigh := None, None;
        highestSeq := s;
      }
    }

    method RotateSeen(now: nat)
      modifies this
      ensures View() == R.RotateSeen(old(View()), now) && lateRecoveries == old(lateRecoveries)
    {
      seenPrevious, seenCurrent := seenCurrent, {};
      seenFloor := seenRotationHigh;
      seenRotationHigh := Some(highestSeq);
      seenRotatedAt := now;
    }

    method MarkSeen(s: nat, now: nat)
      modifies this
      ensures View() == R.MarkSeen(old(View()), s, now) && lateRecoveries == old(lateRecoveries)
    {
      seenCurrent := seenCurrent + {s};
      if |seenCurrent| > R.MAX_SEEN_PER_GENERATION {
        RotateSeen(now);
      }
    }

    /** Evict oldest-first down to the limit. */
    method EvictOldest()
      modifies this`payloads, this`payloadOrder
      ensures View() == R.Evicted(old(View()))
    {
      ghost var all, k := payloadOrder, 0;
      assert all[..0] == [] && all[0..] == all;
      while |payloadOrder| > R.MAX_PAYLOADS
        invariant k <= |all| && payloadOrder == all[k..] && payloads == old(payloads) - Elements(all[..k])
        invariant k == 0 || |all| - k >= R.MAX_PAYLOADS
        decreases |payloadOrder|
      {
        ElementsNext(all, k);
        MinusTwice(old(payloads), Elements(all[..k]), {all[k]});
        payloads := payloads - {payloadOrder[0]};
        payloadOrder := payloadOrder[1..];
        k := k + 1;
      }
    }

    method InsertPayload(s: nat, body: bytes, now: nat)
      modifies this`payloads, this`payloadOrder
      ensures View() == R.InsertPayload(old(View()), s, body, now)
    {
      if s !in payloads {
        payloadOrder := payloadOrder + [s];
      }
      payloads := payloads[s := R.Stored(now, body)];
      EvictOldest();
    }

    /** Classify the members: the positions of the missing ones, and how many are only handled. */
    method Classify(seqs: seq<nat>) returns (missing: seq<nat>, handled: nat)
      ensures missing == R.MissingBelow(View(), seqs, |seqs|)
      ensures handled > 0 <==> R.AnyHandled(View(), seqs)
    {
      missing, handled := [], 0;
      for i := 0 to |seqs|
        invariant missing == R.MissingBelow(View(), seqs, i)
        invariant handled > 0 <==> exists j :: 0 <= j < i && R.StateOf(View(), seqs[j]).Handled?
      {
        match MemberState(seqs[i])
        case Known =>
        case Handled => handled := handled + 1;
        case Missing => missing := missing + [i];
      }
    }
  
    /** Takes the cached members out of whichever shares are held, walking the group once. */
    method Strip(t: Tables, shares: R.Shares, seqs: seq<nat>, missing: seq<nat>, width: nat)
      returns (ok: bool, pp: array<byte>, qp: array<byte>)
      requires t.Valid()
      requires shares.p.Some? || shares.q.Some?
      requires (shares.p.Some? ==> |shares.p.value.parity| == width) && (shares.q.Some?
          ==> |shares.q.value.parity| == width)
      ensures fresh(pp) && fresh(qp) && pp != qp
      ensures var p' := StrippedShare(View(), FecGroup.P, shares.p, seqs, missing, |seqs|);
              var q' := StrippedShare(View(), FecGroup.Q, shares.q, seqs, missing, |seqs|);
              && (ok <==> (shares.p.Some? ==> p'.Some?) && (shares.q.Some? ==> q'.Some?))
              && (ok && shares.p.Some? ==> p' == Some(pp[..]))
              && (ok && shares.q.Some? ==> q' == Some(qp[..]))
    {
      pp := ToArray(if shares.p.Some? then shares.p.value.parity else []);
      qp := ToArray(if shares.q.Some? then shares.q.value.parity else []);
      ghost var rx := View();
      var i := 0;
      while i < |seqs|
        invariant 0 <= i <= |seqs| && View() == rx && fresh(pp) && fresh(qp) && pp != qp
        invariant shares.p.Some? ==> StrippedShare(rx, FecGroup.P, shares.p, seqs, missing, i) == Some(pp[..]) && pp.Length == width
        invariant shares.q.Some? ==> StrippedShare(rx, FecGroup.Q, shares.q, seqs, missing, i) == Some(qp[..]) && qp.Length == width
      {
        if i !in missing {
          if seqs[i] !in payloads || |payloads[seqs[i]].body| > width {
            if shares.p.Some? {
              StrippedNone(rx, FecGroup.P, shares.p.value.parity, seqs, missing, i + 1, |seqs|);
            }
            if shares.q.Some? {
              StrippedNone(rx, FecGroup.Q, shares.q.value.parity, seqs, missing, i + 1, |seqs|);
            }
            return false, pp, qp;
          }
          if shares.p.Some? {
            XorInto(pp, payloads[seqs[i]].body);
          }
          if shares.q.Some? {
            MulAcc(t, qp, payloads[seqs[i]].body, Pow2Table(t, i));
          }
        }
        i := i + 1;
      }
      ok := true;
    }
  
    /** Reconstruct the missing members from consistent shares. */
    method Reconstruct(t: Tables, shares: R.Shares, missing: seq<nat>) returns (e: R.Eval)
      requires t.Valid()
      requires shares.Any().Some? && R.Consistent(shares)
      requires missing == R.MissingBelow(View(), shares.Any().value.seqs, |shares.Any().value.seqs|)
      requires |missing| == 1 || (|missing| == 2 && shares.p.Some? && shares.q.Some?)
      ensures e == R.Reconstruct(View(), shares, missing)
    {
      var any := shares.Any().value;
      var ok, pp, qp := Strip(t, shares, any.seqs, missing, |any.parity|);
      if !ok {
        return R.Unrecoverable;
      }
      if |missing| == 1 {
        var a := missing[0];
        var data := SolveOneInPlace(t, shares.p.Some?, pp, qp, a);
        e := R.Recovered([(any.seqs[a], R.Truncated(data, any.lens[a]))]);
      } else {
        var a, b := missing[0], missing[1];
        var da, db := SolveTwoInPlace(t, pp, qp, a, b);
        e := R.Recovered([(any.seqs[a], R.Truncated(da, any.lens[a])), (any.seqs[b], R.Truncated(db, any.lens[b]))]);
      }
    }

    /** Mark each recovered frame handled and keep its plaintext. */
    method AdmitAll(items: seq<Frame>, now: nat)
      modifies this
      ensures View() == R.AdmitAll(old(View()), items, now) && lateRecoveries == old(lateRecoveries)
    {
      ghost var before := View();
      var i := 0;
      while i < |items|
        invariant 0 <= i <= |items| && View() == R.AdmitAll(before, items[..i], now)
        invariant lateRecoveries == old(lateRecoveries)
      {
        MarkSeen(items[i].0, now);
        InsertPayload(items[i].0, items[i].1, now);
        assert items[..i + 1][..i] == items[..i];
        i := i + 1;
      }
      assert items[..i] == items;
    }

    /** Classify the members and reconstruct whatever the shares allow. */
    method Evaluate(t: Tables, shares: R.Shares, now: nat) returns (e: R.Eval)
      requires t.Valid()
      modifies this
      ensures (View(), e) == R.Evaluate(old(View()), shares, now) && lateRecoveries == old(lateRecoveries)
    {
      ghost var rx := View();
      if shares.Any().None? {
        return R.Unrecoverable;
      }
      var any := shares.Any().value;
      var missing, handled := Classify(any.seqs);
      if missing == [] {
        return R.AlreadyComplete;
      }
      var maxErasures := if parityCount >= 2 then 2 else 1;
      if |missing| > maxErasures || handled > 0 {
        return R.Unrecoverable;
      }
      if |missing| == 2 && !(shares.p.Some? && shares.q.Some?) {
        return R.NeedMore(R.SeqsAt(any.seqs, missing));
      }
      if !R.Consistent(shares) {
        return R.Unrecoverable;
      }
      if exists i :: i in missing && any.lens[i] > |any.parity| {
        return R.Unrecoverable;
      }
      e := Reconstruct(t, shares, missing);
      if e.Recovered? {
        AdmitAll(e.items, now);
      }
    }
  
    // ----- parked groups

    method DropParked(key: nat)
      modifies this`parked, this`parkedBySeq
      ensures View() == R.DropParked(old(View()), key)
    {
      if key in parked {
        var missing := parked[key].missing;
        parked := parked - {key};
        ghost var index := parkedBySeq;
        var i := 0;
        while i < |missing|
          invariant 0 <= i <= |missing| && parkedBySeq == index - Elements(missing[..i])
          invariant parked == old(parked) - {key}
        {
          ElementsNext(missing, i);
          parkedBySeq := parkedBySeq - {missing[i]};
          i := i + 1;
        }
        assert missing[..i] == missing;
      }
    }

    method OldestParked() returns (oldest: nat)
      requires parked != map[]
      ensures R.IsOldest(parked, oldest)
    {
      var rest := parked.Keys;
      oldest :| oldest in rest;
      rest := rest - {oldest};
      while rest != {}
        invariant rest <= parked.Keys && oldest in parked
        invariant forall k :: k in parked && k !in rest ==> parked[oldest].at <= parked[k].at
        decreases rest
      {
        var k :| k in rest;
        if parked[k].at < parked[oldest].at {
          oldest := k;
        }
        rest := rest - {k};
      }
    }

    method MakeRoom() returns (ghost oldest: nat)
      modifies this`parked, this`parkedBySeq, this`givenUp
      ensures |old(parked)| >= R.MAX_PARKED_GROUPS ==> R.IsOldest(old(parked), oldest)
      ensures View() == R.MakeRoom(old(View()), oldest)
    {
      oldest := 0;
      if |parked| >= R.MAX_PARKED_GROUPS {
        var victim := OldestParked();
        oldest := victim;
        DropParked(victim);
        givenUp := givenUp + 1;
      }
    }

    method Index(missing: seq<nat>, key: nat)
      modifies this`parkedBySeq
      ensures parkedBySeq == R.Indexed(old(parkedBySeq), missing, key)
    {
      var i := 0;
      while i < |missing|
        invariant 0 <= i <= |missing| && parkedBySeq == R.Indexed(old(parkedBySeq), missing[..i], key)
      {
        IndexedNext(old(parkedBySeq), missing, key, i);
        parkedBySeq := parkedBySeq[missing[i] := key];
        i := i + 1;
      }
      assert missing[..i] == missing;
    }

    method Park(key: nat, shares: R.Shares, missing: seq<nat>, at: nat) returns (ghost oldest: nat)
      modifies this`parked, this`parkedBySeq, this`givenUp
      ensures |old(parked)| >= R.MAX_PARKED_GROUPS ==> R.IsOldest(old(parked), oldest)
      ensures View() == R.Park(old(View()), key, shares, missing, at, oldest)
    {
      oldest := MakeRoom();
      Index(missing, key);
      parked := parked[key := R.ParkedGroup(at, shares, missing)];
    }

    // ----- entry points

    /** Evaluate a group's shares and park them if a further share may complete them. */
    method Settle(t: Tables, key: nat, shares: R.Shares, now: nat) returns (out: R.Outcome, ghost oldest: nat)
      requires t.Valid()
      modifies this
      ensures (View(), out) == R.Settle(old(View()), key, shares, now, oldest)
      ensures out == R.OutPending ==> ValidVictim(old(parked), oldest)
      ensures lateRecoveries == old(lateRecoveries)
    {
      oldest := 0;
      var e := Evaluate(t, shares, now);
      match e
      case Recovered(items) => out := R.OutRecovered(items);
      case AlreadyComplete => out := R.OutComplete;
      case Unrecoverable => out := R.OutUnrecoverable;
      case NeedMore(missing) =>
        oldest := Park(key, shares, missing, now);
        out := R.OutPending;
    }

    /** Takes a group off the parking and returns the shares it held. */
    method TakeShares(key: nat) returns (held: R.Shares)
      modifies this`parked, this`parkedBySeq
      ensures View() == R.DropParked(old(View()), key) && held == R.HeldShares(old(View()), key)
      ensures parked == old(parked) - {key}
    {
      held := if key in parked then parked[key].shares else R.Shares(None, None);
      DropParked(key);
    }

    /** A share arrives. */
    method TryRecover(t: Tables, kind: Kind, parity: FecGroup.WireParity, now: nat)
      returns (out: R.Outcome, ghost oldest: nat)
      requires t.Valid()
      modifies this
      ensures (View(), out) == R.TryRecover(old(View()), kind, parity, now, oldest)
      ensures lateRecoveries == old(lateRecoveries)
      ensures out == R.OutPending ==> parity.seqs != [] && ValidVictim(old(parked) - {parity.seqs[0]}, oldest)
    {
      oldest := 0;
      if |parity.seqs| != |parity.lens| || parity.seqs == [] {
        return R.OutUnrecoverable, 0;
      }
      NoteSeq(R.Highest(parity.seqs));
      var held := TakeShares(parity.seqs[0]);
      out, oldest := Settle(t, parity.seqs[0], held.With(kind, parity), now);
    }

    method Revisit(t: Tables, key: nat, g: R.ParkedGroup, now: nat) returns (ghost oldest: nat)
      requires t.Valid()
      modifies this
      ensures var (rx', late) := R.Revisit(old(View()), key, g, now, oldest);
              View() == rx' && lateRecoveries == old(lateRecoveries) + late
    {
      oldest := 0;
      var e := Evaluate(t, g.shares, now);
      match e
      case Recovered(items) => lateRecoveries := lateRecoveries + items;
      case AlreadyComplete =>
      case Unrecoverable => givenUp := givenUp + 1;
      case NeedMore(missing) => oldest := Park(key, g.shares, missing, g.at);
    }

    /** A late frame landed: if a parked group was waiting for it, look at that group again. */
    method RecheckParkedFor(t: Tables, s: nat, now: nat) returns (ghost oldest: nat)
      requires t.Valid()
      modifies this
      ensures var (rx', late) := R.Recheck(old(View()), s, now, oldest);
              View() == rx' && lateRecoveries == old(lateRecoveries) + late
    {
      oldest := 0;
      if s !in parkedBySeq {
        return;
      }
      var key := parkedBySeq[s];
      parkedBySeq := parkedBySeq - {s};
      if key !in parked {
        return;
      }
      var g := parked[key];
      DropParked(key);
      oldest := Revisit(t, key, g, now);
    }

    /** A Data frame arrives: whether it is to be delivered. */
    method ObserveData(t: Tables, s: nat, body: bytes, now: nat) returns (deliver: bool, ghost oldest: nat)
      requires t.Valid()
      modifies this
      ensures var o := R.ObserveData(old(View()), s, body, now, oldest);
              View() == o.rx && deliver == o.deliver && lateRecoveries == old(lateRecoveries) + o.late
    {
      oldest := 0;
      NoteSeq(s);
      if s in seenCurrent || s in seenPrevious {
        return false, 0;
      }
      MarkSeen(s, now);
      InsertPayload(s, body, now);
      if |parked| != 0 {
        oldest := RecheckParkedFor(t, s, now);
      }
      deliver := true;
    }

    method TakeLateRecoveries() returns (late: seq<Frame>)
      modifies this`lateRecoveries
      ensures late == old(lateRecoveries) && lateRecoveries == []
    {
      late := lateRecoveries;
      lateRecoveries := [];
    }

    // ----- maintenance

    method ExpirePayloads(now: nat)
      modifies this`payloads, this`payloadOrder
      ensures View() == R.ExpirePayloads(old(View()), now)
    {
      while payloadOrder != [] && (payloadOrder[0] in payloads ==> now >= payloads[payloadOrder[0]].at + payloadTtl)
        invariant R.ExpirePayloads(View(), now) == R.ExpirePayloads(old(View()), now)
        decreases |payloadOrder|
      {
        payloads := payloads - {payloadOrder[0]};
        payloadOrder := payloadOrder[1..];
      }
    }

    method GiveUp(key: nat)
      requires key in parked
      modifies this`parked, this`parkedBySeq, this`givenUp
      ensures parked == old(parked) - {key}
      ensures parkedBySeq == old(parkedBySeq) - Elements(old(parked[key].missing))
      ensures givenUp == old(givenUp) + 1
    {
      DropParked(key);
      givenUp := givenUp + 1;
    }

    method GiveUpAll(keys: set<nat>)
      requires keys <= parked.Keys
      modifies this`parked, this`parkedBySeq, this`givenUp
      ensures GivenUp(old(View()), keys, parked, parkedBySeq, givenUp)
    {
      ghost var rx := View();
      var rest := keys;
      GivenUpNone(rx);
      assert keys - rest == {};
      while rest != {}
        invariant rest <= keys && GivenUp(rx, keys - rest, parked, parkedBySeq, givenUp)
        decreases rest
      {
        var key :| key in rest;
        GivenUpNext(rx, keys - rest, parked, parkedBySeq, givenUp, key);
        assert keys - rest + {key} == keys - (rest - {key});
        GiveUp(key);
        rest := rest - {key};
      }
      assert keys - rest == keys;
    }

    method ExpireParked(now: nat)
      modifies this`parked, this`parkedBySeq, this`givenUp
      ensures View() == R.ExpireParked(old(View()), now)
    {
      GiveUpAll(set k | k in parked && now >= parked[k].at + payloadTtl);
    }

    /** Periodic maintenance; the number of groups given up since the last call. */
    method Tick(now: nat) returns (n: nat)
      modifies this
      ensures (View(), n) == R.Tick(old(View()), now) && lateRecoveries == old(lateRecoveries)
    {
      ExpirePayloads(now);
      ExpireParked(now);
      if now >= seenRotatedAt + seenGeneration {
        RotateSeen(now);
      }
      n := givenUp;
      givenUp := 0;
    }
  }

  ghost predicate ValidVictim(parked: map<nat, R.ParkedGroup>, oldest: nat) {
    |parked| >= R.MAX_PARKED_GROUPS ==> R.IsOldest(parked, oldest)
  }

  lemma WaitedByNext(rx: R.Rx, done: set<nat>, key: nat)
    requires done <= rx.parked.Keys && key in rx.parked
    ensures R.WaitedBy(rx, done + {key}) == R.WaitedBy(rx, done) + Elements(rx.parked[key].missing)
  {
  }

  /** What is left once the groups `done` have been given up. */
  ghost predicate GivenUp(rx: R.Rx, done: set<nat>, parked: map<nat, R.ParkedGroup>, index: map<nat, nat>, n: nat) {
    && done <= rx.parked.Keys
    && parked == rx.parked - done
    && index == rx.parkedBySeq - R.WaitedBy(rx, done)
    && n == rx.givenUp + |done|
  }

  lemma GivenUpNone(rx: R.Rx)
    ensures GivenUp(rx, {}, rx.parked, rx.parkedBySeq, rx.givenUp)
  {
    assert R.WaitedBy(rx, {}) == {};
  }

  lemma GivenUpNext(rx: R.Rx, done: set<nat>, parked: map<nat, R.ParkedGroup>, index: map<nat, nat>, n: nat, key: nat)
    requires GivenUp(rx, done, parked, index, n) && key in rx.parked && key !in done
    ensures key in parked && parked[key] == rx.parked[key]
    ensures GivenUp(rx, done + {key}, parked - {key}, index - Elements(rx.parked[key].missing), n + 1)
  {
    WaitedByNext(rx, done, key);
    MinusTwice(rx.parked, done, {key});
    MinusTwice(rx.parkedBySeq, R.WaitedBy(rx, done), Elements(rx.parked[key].missing));
  }

  lemma MinusTwice<V>(m: map<nat, V>, a: set<nat>, b: set<nat>)
    ensures m - a - b == m - (a + b)
  {
  }

  lemma ElementsNext(s: seq<nat>, k: nat)
    requires k < |s|
    ensures Elements(s[..k + 1]) == Elements(s[..k]) + {s[k]}
  {
    assert s[..k + 1] == s[..k] + [s[k]];
  }

  lemma IndexedNext(m: map<nat, nat>, missing: seq<nat>, key: nat, i: nat)
    requires i < |missing|
    ensures R.Indexed(m, missing[..i + 1], key) == R.Indexed(m, missing[..i], key)[missing[i] := key]
  {
    assert missing[..i + 1] == missing[..i] + [missing[i]];
  }
}
