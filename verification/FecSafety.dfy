/** What every step of the receiver keeps: a frame once accounted for stays so, cached
    payloads never outlive the seen generations, and the parked-group index is exact. */
module FecSafety {
  import opened Bytes
  import opened Common
  import opened FecGroup
  import opened FecReceiver

  // ----- accounting

  /** Never to be recovered again: seen, at or below the floor, or too far behind. */
  ghost predicate Accounted(rx: Rx, s: nat) {
    || Seen(rx, s)
    || (rx.floor.Some? && s <= rx.floor.value)
    || s + STALE_SEQ_WINDOW <= rx.highest
  }

  /** Nothing accounted for in `rx` is outstanding in `rx'`. */
  ghost predicate Keeps(rx: Rx, rx': Rx) {
    forall s: nat :: Accounted(rx, s) ==> Accounted(rx', s)
  }

  /** The floor argument: whatever the next rotation forgets is at or below the bound it
      promotes to floor. */
  ghost predicate SeenInv(rx: Rx) {
    && (forall s :: s in rx.current ==> s <= rx.highest)
    && (forall s :: s in rx.previous ==> rx.rotationHigh.Some? && s <= rx.rotationHigh.value)
    && (rx.rotationHigh.Some? ==> rx.rotationHigh.value <= rx.highest)
    && (rx.floor.Some? ==> rx.rotationHigh.Some? && rx.floor.value <= rx.rotationHigh.value)
    && |rx.current| <= MAX_SEEN_PER_GENERATION
  }

  lemma NoteSeqSeen(rx: Rx, s: nat)
    requires SeenInv(rx)
    ensures SeenInv(NoteSeq(rx, s)) && s <= NoteSeq(rx, s).highest
    ensures !Resets(rx, s) ==> Keeps(rx, NoteSeq(rx, s))
  {
  }

  lemma RotateSeenInv(rx: Rx, now: nat)
    requires SeenInv(rx.(current := {}))
    requires forall s :: s in rx.current ==> s <= rx.highest
    ensures SeenInv(RotateSeen(rx, now)) && Keeps(rx, RotateSeen(rx, now))
  {
  }

  lemma MarkSeenInv(rx: Rx, s: nat, now: nat)
    requires SeenInv(rx) && s <= rx.highest
    ensures SeenInv(MarkSeen(rx, s, now)) && Keeps(rx, MarkSeen(rx, s, now))
    ensures Seen(MarkSeen(rx, s, now), s)
  {
    var rx' := rx.(current := rx.current + {s});
    assert Keeps(rx, rx');
    if |rx'.current| > MAX_SEEN_PER_GENERATION {
      RotateSeenInv(rx', now);
    }
  }

  // ----- the payload cache

  ghost predicate Distinct(s: seq<nat>) {
    forall i, j :: 0 <= i < j < |s| ==> s[i] != s[j]
  }

  /** `order` lists the payload keys once each, oldest first. */
  ghost predicate OrderInv(rx: Rx, clock: nat) {
    && Distinct(rx.order)
    && (forall i :: 0 <= i < |rx.order| ==> rx.order[i] in rx.payloads)
    && (forall s :: s in rx.payloads ==> s in rx.order && rx.payloads[s].at <= clock)
    && (forall i, j :: 0 <= i < j < |rx.order| ==> rx.payloads[rx.order[i]].at <= rx.payloads[rx.order[j]].at)
  }

  /** The first `k` payloads date from before the last rotation, the others from after it;
      unless the former are all gone, none of the latter has been evicted. */
  ghost predicate SplitAt(rx: Rx, k: nat) {
    && k <= |rx.order|
    && (forall i :: 0 <= i < k ==> rx.order[i] in rx.payloads && rx.order[i] in rx.previous
                                   && rx.payloads[rx.order[i]].at <= rx.rotatedAt)
    && (forall i :: k <= i < |rx.order| ==> rx.order[i] in rx.current)
    && (k == 0 || |rx.current| == |rx.order| - k)
  }

  ghost predicate CacheInv(rx: Rx, clock: nat) {
    && OrderInv(rx, clock)
    && |rx.order| <= MAX_PAYLOADS
    && rx.rotatedAt <= clock
    && rx.payloadTtl <= rx.seenGeneration
    && exists k: nat :: SplitAt(rx, k)
  }

  /** Seen outlives payloads. */
  lemma PayloadsAreSeen(rx: Rx, clock: nat, s: nat)
    requires CacheInv(rx, clock) && s in rx.payloads
    ensures Seen(rx, s)
  {
    var k: nat :| SplitAt(rx, k);
    var i :| 0 <= i < |rx.order| && rx.order[i] == s;
  }

  /** So a member is missing exactly when it is not accounted for. */
  lemma MissingIffUnaccounted(rx: Rx, clock: nat, s: nat)
    requires CacheInv(rx, clock)
    ensures StateOf(rx, s).Missing? <==> !Accounted(rx, s)
  {
    if s in rx.payloads {
      PayloadsAreSeen(rx, clock, s);
    }
  }

  function Pushed(rx: Rx, s: nat, body: bytes, now: nat): Rx {
    rx.(payloads := rx.payloads[s := Stored(now, body)], order := rx.order + [s])
  }

  function Popped(rx: Rx): Rx
    requires rx.order != []
  {
    rx.(order := rx.order[1..], payloads := rx.payloads - {rx.order[0]})
  }

  /** An insertion pushes, and pops at most once. */
  lemma InsertIsPush(rx: Rx, s: nat, body: bytes, now: nat)
    requires |rx.order| <= MAX_PAYLOADS && s !in rx.payloads
    ensures var p := Pushed(rx, s, body, now);
            InsertPayload(rx, s, body, now) == if |p.order| <= MAX_PAYLOADS then p else Popped(p)
  {
    var p := Pushed(rx, s, body, now);
    if |p.order| > MAX_PAYLOADS {
      assert Elements(p.order[..1]) == {p.order[0]};
    }
  }

  lemma PushOrder(rx: Rx, s: nat, body: bytes, clock: nat, now: nat)
    requires OrderInv(rx, clock) && clock <= now && s !in rx.payloads
    ensures OrderInv(Pushed(rx, s, body, now), now)
  {
    var p := Pushed(rx, s, body, now);
    forall t | t in p.payloads ensures t in p.order {
      if t == s {
        assert p.order[|rx.order|] == s;
      } else {
        assert t in rx.order;
      }
    }
  }

  lemma PopOrder(rx: Rx, clock: nat)
    requires OrderInv(rx, clock) && rx.order != []
    ensures OrderInv(Popped(rx), clock)
  {
    var p := Popped(rx);
    forall t | t in p.payloads ensures t in p.order {
      var i :| 0 <= i < |rx.order| && rx.order[i] == t;
      assert p.order[i - 1] == t;
    }
  }

  lemma PopSplit(rx: Rx, clock: nat, k: nat)
    requires OrderInv(rx, clock) && rx.order != [] && SplitAt(rx, k)
    ensures SplitAt(Popped(rx), if k == 0 then 0 else k - 1)
  {
  }

  /** A frame of the current generation joins the newer part. */
  lemma PushSplit(rx: Rx, s: nat, body: bytes, now: nat, k: nat)
    requires s !in rx.current && s !in rx.payloads
    requires SplitAt(rx, k)
    ensures SplitAt(Pushed(rx.(current := rx.current + {s}), s, body, now), k)
  {
  }

  /** A rotation turns a cache of current frames into one of previous frames. */
  lemma RotateSplit(rx: Rx, clock: nat, now: nat)
    requires OrderInv(rx, clock) && clock <= now && SplitAt(rx, 0)
    ensures SplitAt(RotateSeen(rx, now), |rx.order|)
  {
  }

  lemma PushPrevious(rx: Rx, s: nat, body: bytes, now: nat)
    requires s !in rx.payloads && s in rx.previous && rx.rotatedAt == now && rx.current == {}
    requires SplitAt(rx, |rx.order|)
    ensures SplitAt(Pushed(rx, s, body, now), |rx.order| + 1)
  {
  }

  lemma InsertPrevious(rx: Rx, f: Frame, clock: nat, now: nat)
    requires OrderInv(rx, clock) && clock <= now && f.0 !in rx.payloads && |rx.order| <= MAX_PAYLOADS
    requires rx.payloadTtl <= rx.seenGeneration && rx.rotatedAt == now
    requires f.0 in rx.previous && rx.current == {} && SplitAt(rx, |rx.order|)
    ensures CacheInv(InsertPayload(rx, f.0, f.1, now), now)
  {
    PushPrevious(rx, f.0, f.1, now);
    InsertCache(rx, f, clock, now, |rx.order| + 1);
  }

  /** A mark that fills the generation: by then every cached payload is of that generation. */
  lemma AdmitFull(rx: Rx, f: Frame, clock: nat, now: nat, k: nat)
    requires CacheInv(rx, clock) && clock <= now && !Seen(rx, f.0) && f.0 !in rx.payloads && SplitAt(rx, k)
    requires |rx.current| >= MAX_SEEN_PER_GENERATION
    ensures CacheInv(Admit(rx, f, now), now)
  {
    var marked := rx.(current := rx.current + {f.0});
    assert k == 0;
    RotateSplit(marked, clock, now);
    assert MarkSeen(rx, f.0, now) == RotateSeen(marked, now);
    InsertPrevious(RotateSeen(marked, now), f, clock, now);
  }

  /** Marking and caching a frame not yet seen keeps the cache invariant. */
  lemma AdmitCache(rx: Rx, f: Frame, clock: nat, now: nat)
    requires CacheInv(rx, clock) && clock <= now && !Seen(rx, f.0)
    ensures CacheInv(Admit(rx, f, now), now)
  {
    if f.0 in rx.payloads {
      PayloadsAreSeen(rx, clock, f.0);
    }
    var k: nat :| SplitAt(rx, k);
    if |rx.current| >= MAX_SEEN_PER_GENERATION {
      AdmitFull(rx, f, clock, now, k);
    } else {
      PushSplit(rx, f.0, f.1, now, k);
      InsertCache(rx.(current := rx.current + {f.0}), f, clock, now, k);
    }
  }

  lemma InsertCache(rx: Rx, f: Frame, clock: nat, now: nat, k: nat)
    requires OrderInv(rx, clock) && clock <= now && f.0 !in rx.payloads && |rx.order| <= MAX_PAYLOADS
    requires rx.rotatedAt <= now && rx.payloadTtl <= rx.seenGeneration
    requires SplitAt(Pushed(rx, f.0, f.1, now), k)
    ensures CacheInv(InsertPayload(rx, f.0, f.1, now), now)
  {
    InsertIsPush(rx, f.0, f.1, now);
    PushOrder(rx, f.0, f.1, clock, now);
    var p := Pushed(rx, f.0, f.1, now);
    if |p.order| > MAX_PAYLOADS {
      PopOrder(p, now);
      PopSplit(p, now, k);
    }
  }

  // ----- expiry

  lemma {:induction false} ExpireCache(rx: Rx, clock: nat, now: nat, k: nat) returns (k': nat)
    requires OrderInv(rx, clock) && SplitAt(rx, k)
    ensures var rx' := ExpirePayloads(rx, now);
            && OrderInv(rx', clock) && SplitAt(rx', k') && |rx'.order| <= |rx.order|
            && rx' == rx.(order := rx'.order, payloads := rx'.payloads)
            && (rx'.order == [] || !Expired(rx', rx'.order[0], now))
    decreases |rx.order|
  {
    if rx.order != [] && Expired(rx, rx.order[0], now) {
      PopOrder(rx, clock);
      PopSplit(rx, clock, k);
      k' := ExpireCache(Popped(rx), clock, now, if k == 0 then 0 else k - 1);
    } else {
      k' := k;
    }
  }

  /** A timed rotation finds no payload of the generation it is about to drop. */
  lemma ExpireThenRotate(rx: Rx, clock: nat, now: nat, k: nat)
    requires SplitAt(rx, k) && rx.payloadTtl <= rx.seenGeneration
    requires rx.order == [] || !Expired(rx, rx.order[0], now)
    requires now >= rx.rotatedAt + rx.seenGeneration
    ensures k == 0
  {
  }

  lemma TickCache(rx: Rx, clock: nat, now: nat)
    requires CacheInv(rx, clock) && clock <= now
    ensures CacheInv(Tick(rx, now).0, now)
  {
    var k: nat :| SplitAt(rx, k);
    var k' := ExpireCache(rx, clock, now, k);
    var rx1 := ExpireParked(ExpirePayloads(rx, now), now);
    assert SplitAt(rx1, k') && OrderInv(rx1, clock);
    RotatedCache(rx1, Tick(rx, now).0, clock, now, k');
  }

  lemma RotatedCache(rx1: Rx, rx': Rx, clock: nat, now: nat, k: nat)
    requires OrderInv(rx1, clock) && SplitAt(rx1, k) && clock <= now && |rx1.order| <= MAX_PAYLOADS
        && rx1.rotatedAt <= clock
    requires rx1.payloadTtl <= rx1.seenGeneration && (rx1.order == [] || !Expired(rx1, rx1.order[0], now))
    requires rx' == RotateIfDue(rx1, now).(givenUp := 0)
    ensures CacheInv(rx', now)
  {
    if now >= rx1.rotatedAt + rx1.seenGeneration {
      ExpireThenRotate(rx1, clock, now, k);
      RotateSplit(rx1, clock, now);
      assert SplitAt(rx', |rx1.order|);
    } else {
      assert SplitAt(rx', k);
    }
  }

  lemma ExpireSeen(rx: Rx, clock: nat, now: nat)
    requires CacheInv(rx, clock)
    ensures var rx1 := ExpireParked(ExpirePayloads(rx, now), now);
            && rx1.current == rx.current && rx1.previous == rx.previous && rx1.highest == rx.highest
            && rx1.floor == rx.floor && rx1.rotationHigh == rx.rotationHigh
  {
    var k: nat :| SplitAt(rx, k);
    var k' := ExpireCache(rx, clock, now, k);
  }

  lemma TickSeen(rx: Rx, clock: nat, now: nat)
    requires CacheInv(rx, clock) && SeenInv(rx)
    ensures SeenInv(Tick(rx, now).0) && Keeps(rx, Tick(rx, now).0)
  {
    ExpireSeen(rx, clock, now);
    var rx1 := ExpireParked(ExpirePayloads(rx, now), now);
    RotateSeenInv(rx1, now);
  }

  // ----- recovered frames enter the cache

  /** Sequence tracking and payload cache together. */
  ghost predicate TrackInv(rx: Rx, clock: nat) {
    SeenInv(rx) && CacheInv(rx, clock)
  }

  /** `rx'` accounts for `items` on top of everything `rx` does, and differs in nothing but
      the tracking of frames. */
  ghost predicate Advances(rx: Rx, rx': Rx, items: seq<Frame>) {
    && Keeps(rx, rx')
    && (forall i :: 0 <= i < |items| ==> Accounted(rx', items[i].0))
    && rx'.highest == rx.highest && SameParked(rx, rx')
  }

  lemma AdvancesTwice(rx: Rx, mid: Rx, rx': Rx, items: seq<Frame>, f: Frame)
    requires Advances(rx, mid, items) && Advances(mid, rx', [f])
    ensures Advances(rx, rx', items + [f])
  {
    assert [f][0] == f;
  }

  lemma AdmitInv(rx: Rx, f: Frame, clock: nat, now: nat)
    requires TrackInv(rx, clock) && clock <= now && !Seen(rx, f.0) && f.0 <= rx.highest
    ensures TrackInv(Admit(rx, f, now), now) && Advances(rx, Admit(rx, f, now), [f])
  {
    AdmitCache(rx, f, clock, now);
    MarkSeenInv(rx, f.0, now);
    InsertSame(MarkSeen(rx, f.0, now), f, now);
  }

  /** Parking, and the configured limits, are untouched. */
  ghost predicate SameParked(rx: Rx, rx': Rx) {
    && rx'.parked == rx.parked && rx'.parkedBySeq == rx.parkedBySeq && rx'.givenUp == rx.givenUp
    && rx'.parityCount == rx.parityCount && rx'.payloadTtl == rx.payloadTtl && rx'.seenGeneration == rx.seenGeneration
  }

  lemma InsertSame(rx: Rx, f: Frame, now: nat)
    ensures var rx' := InsertPayload(rx, f.0, f.1, now);
            && rx'.current == rx.current && rx'.previous == rx.previous && rx'.highest == rx.highest
            && rx'.floor == rx.floor && rx'.rotationHigh == rx.rotationHigh && SameParked(rx, rx')
  {
  }

  lemma {:induction false} AdmitAllSameParked(rx: Rx, items: seq<Frame>, now: nat)
    ensures SameParked(rx, AdmitAll(rx, items, now))
  {
    if items != [] {
      var n := |items| - 1;
      AdmitAllSameParked(rx, items[..n], now);
      InsertSame(MarkSeen(AdmitAll(rx, items[..n], now), items[n].0, now), items[n], now);
    }
  }

  ghost predicate DistinctFrames(items: seq<Frame>) {
    forall i, j :: 0 <= i < j < |items| ==> items[i].0 != items[j].0
  }

  /** Only the admitted frames become seen. */
  lemma {:induction false} AdmitAllUnseen(rx: Rx, items: seq<Frame>, now: nat, t: nat)
    requires !Seen(rx, t) && forall f :: f in items ==> f.0 != t
    ensures !Seen(AdmitAll(rx, items, now), t)
  {
    if items != [] {
      var n := |items| - 1;
      AdmitAllUnseen(rx, items[..n], now, t);
      InsertSame(MarkSeen(AdmitAll(rx, items[..n], now), items[n].0, now), items[n], now);
    }
  }

  /** The frames of a recovery: distinct, unseen, and not ahead of the stream. */
  ghost predicate Admittable(rx: Rx, items: seq<Frame>) {
    && DistinctFrames(items)
    && forall i :: 0 <= i < |items| ==> !Seen(rx, items[i].0) && items[i].0 <= rx.highest
  }

  lemma AdmittablePrefix(rx: Rx, items: seq<Frame>, n: nat)
    requires Admittable(rx, items) && n == |items| - 1
    ensures Admittable(rx, items[..n]) && !Seen(rx, items[n].0) && items[n].0 <= rx.highest
    ensures forall f :: f in items[..n] ==> f.0 != items[n].0
  {
  }

  lemma {:induction false} AdmitAllInv(rx: Rx, items: seq<Frame>, now: nat)
    requires TrackInv(rx, now) && Admittable(rx, items)
    ensures TrackInv(AdmitAll(rx, items, now), now) && Advances(rx, AdmitAll(rx, items, now), items)
  {
    if items != [] {
      var n := |items| - 1;
      AdmittablePrefix(rx, items, n);
      AdmitAllInv(rx, items[..n], now);
      AdmitAllUnseen(rx, items[..n], now, items[n].0);
      AdmitLast(rx, AdmitAll(rx, items[..n], now), items[..n], items[n], now);
      assert items[..n] + [items[n]] == items;
    }
  }

  lemma AdmitLast(rx: Rx, mid: Rx, items: seq<Frame>, f: Frame, now: nat)
    requires TrackInv(mid, now) && Advances(rx, mid, items)
    requires !Seen(mid, f.0) && f.0 <= rx.highest
    ensures TrackInv(Admit(mid, f, now), now) && Advances(rx, Admit(mid, f, now), items + [f])
  {
    AdmitInv(mid, f, now, now);
    AdvancesTwice(rx, mid, Admit(mid, f, now), items, f);
  }

  lemma TrackLater(rx: Rx, clock: nat, now: nat)
    requires TrackInv(rx, clock) && clock <= now
    ensures TrackInv(rx, now)
  {
  }
}
