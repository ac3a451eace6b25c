/** How long a frame stays at hand: a payload is cached, bytes and all, until a tick two seconds
    after it was admitted or until 4096 frames were admitted after it, and not a moment less. */
module FecRetention {
  import opened Bytes
  import opened FecGroup
  import opened FecReceiver
  import opened FecSafety
  import opened FecParking
  import opened FecRuns
  import opened FecTracking
  import opened FecOnce

  // ----- a tick

  /** Expiry drops exactly the payloads that are too old. */
  lemma {:induction false} ExpireIff(rx: Rx, rx': Rx, clock: nat, now: nat, s: nat)
    requires OrderInv(rx, clock) && s in rx.payloads && rx' == ExpirePayloads(rx, now)
    ensures s in rx'.payloads <==> now < rx.payloads[s].at + rx.payloadTtl
    ensures s in rx'.payloads ==> rx'.payloads[s] == rx.payloads[s]
    decreases |rx.order|
  {
    var i :| 0 <= i < |rx.order| && rx.order[i] == s;
    var first := rx.order[0];
    assert rx.payloads[first].at <= rx.payloads[s].at;
    if now >= rx.payloads[first].at + rx.payloadTtl {
      PopOrder(rx, clock);
      if s == first {
        ExpireShrinks(Popped(rx), now, s);
      } else {
        ExpireIff(Popped(rx), rx', clock, now, s);
      }
    }
  }

  lemma {:induction false} ExpireShrinks(rx: Rx, now: nat, s: nat)
    requires s !in rx.payloads
    ensures s !in ExpirePayloads(rx, now).payloads
    decreases |rx.order|
  {
    if rx.order != [] && Expired(rx, rx.order[0], now) {
      ExpireShrinks(rx.(order := rx.order[1..], payloads := rx.payloads - {rx.order[0]}), now, s);
    }
  }

  /** From any state of any run: a tick keeps a payload, unchanged, if and only if it is younger
      than the limit. */
  lemma TickKeepsIff(rx: Rx, rx': Rx, clock: nat, now: nat, s: nat)
    requires CacheInv(rx, clock) && s in rx.payloads && rx' == Tick(rx, now).0
    ensures s in rx'.payloads <==> now < rx.payloads[s].at + rx.payloadTtl
    ensures s in rx'.payloads ==> rx'.payloads[s] == rx.payloads[s]
  {
    ExpireIff(rx, ExpirePayloads(rx, now), clock, now, s);
  }

  /** And a parked group. */
  lemma TickParksIff(rx: Rx, rx': Rx, now: nat, key: nat)
    requires key in rx.parked && rx' == Tick(rx, now).0
    ensures key in rx'.parked <==> now < rx.parked[key].at + rx.payloadTtl
    ensures key in rx'.parked ==> rx'.parked[key] == rx.parked[key]
  {
    ExpireSameParked(rx, now);
    TickFields(rx, now);
  }

  lemma {:induction false} ExpireSuffix(rx: Rx, now: nat) returns (k: nat)
    ensures k <= |rx.order| && ExpirePayloads(rx, now).order == rx.order[k..]
    decreases |rx.order|
  {
    k := 0;
    if rx.order != [] && Expired(rx, rx.order[0], now) {
      var j := ExpireSuffix(rx.(order := rx.order[1..], payloads := rx.payloads - {rx.order[0]}), now);
      k := j + 1;
    }
  }

  // ----- the place of a payload

  /** `s` is cached as `c`, and `n` frames were admitted after it. */
  ghost predicate CachedAt(rx: Rx, s: nat, c: Stored, n: nat) {
    && n < |rx.order| && rx.order[|rx.order| - 1 - n] == s
    && s in rx.payloads && rx.payloads[s] == c
  }

  /** Cached with `n` frames after it, or gone. */
  ghost predicate Place(rx: Rx, s: nat, c: Stored, n: nat, kept: bool) {
    if kept then CachedAt(rx, s, c, n) else s !in rx.payloads
  }

  lemma InsertPlace(rx: Rx, f: Frame, clock: nat, now: nat, s: nat, c: Stored, n: nat)
    requires OrderInv(rx, clock) && |rx.order| <= 4096 && f.0 !in rx.payloads && f.0 != s && CachedAt(rx, s, c, n)
    ensures Place(InsertPayload(rx, f.0, f.1, now), s, c, n + 1, n + 1 < 4096)
  {
    InsertIsPush(rx, f.0, f.1, now);
    PushPlace(rx, Pushed(rx, f.0, f.1, now), f.0, s, c, n);
    if |rx.order| == 4096 {
      PopPlace(Pushed(rx, f.0, f.1, now), s, c, n + 1);
    }
  }

  lemma PushPlace(rx: Rx, rx': Rx, t: nat, s: nat, c: Stored, n: nat)
    requires CachedAt(rx, s, c, n) && t != s && rx'.order == rx.order + [t]
    requires s in rx'.payloads && rx'.payloads[s] == rx.payloads[s]
    ensures CachedAt(rx', s, c, n + 1)
  {
  }

  /** Taking out the oldest payload loses just the one that all others came after. */
  lemma PopPlace(rx: Rx, s: nat, c: Stored, n: nat)
    requires |rx.order| == 4097 && Distinct(rx.order) && CachedAt(rx, s, c, n)
    ensures Place(Popped(rx), s, c, n, n < 4096)
  {
    assert rx.order[0] == s <==> n == 4096;
  }

  lemma AdmitPlace(rx: Rx, f: Frame, now: nat, s: nat, c: Stored, n: nat)
    requires CacheInv(rx, now) && !Seen(rx, f.0) && f.0 != s && CachedAt(rx, s, c, n)
    ensures Place(Admit(rx, f, now), s, c, n + 1, n + 1 < 4096)
  {
    if f.0 in rx.payloads {
      PayloadsAreSeen(rx, now, f.0);
    }
    InsertPlace(MarkSeen(rx, f.0, now), f, now, now, s, c, n);
  }

  lemma AdmitGone(rx: Rx, f: Frame, now: nat, s: nat)
    requires s !in rx.payloads && f.0 != s
    ensures s !in Admit(rx, f, now).payloads
  {
  }

  /** Frames not seen so far, each once. */
  ghost predicate New(rx: Rx, items: seq<Frame>) {
    DistinctFrames(items) && forall i :: 0 <= i < |items| ==> !Seen(rx, items[i].0)
  }

  lemma NewPrefix(rx: Rx, items: seq<Frame>, m: nat)
    requires New(rx, items) && m == |items| - 1
    ensures New(rx, items[..m]) && !Seen(rx, items[m].0) && forall f :: f in items[..m] ==> f.0 != items[m].0
  {
  }

  lemma {:induction false} AdmitAllCache(rx: Rx, items: seq<Frame>, now: nat)
    requires CacheInv(rx, now) && New(rx, items)
    ensures CacheInv(AdmitAll(rx, items, now), now)
  {
    if items != [] {
      var m := |items| - 1;
      NewPrefix(rx, items, m);
      AdmitAllCache(rx, items[..m], now);
      AdmitAllUnseen(rx, items[..m], now, items[m].0);
      AdmitCache(AdmitAll(rx, items[..m], now), items[m], now, now);
    }
  }

  lemma LastPlace(mid: Rx, rx': Rx, f: Frame, now: nat, s: nat, c: Stored, n: nat)
    requires CacheInv(mid, now) && !Seen(mid, f.0) && f.0 != s && Place(mid, s, c, n, n < 4096)
        && rx' == Admit(mid, f, now)
    ensures Place(rx', s, c, n + 1, n + 1 < 4096)
  {
    if n < 4096 {
      AdmitPlace(mid, f, now, s, c, n);
    } else {
      AdmitGone(mid, f, now, s);
    }
  }

  lemma {:induction false} AdmitAllPlace(rx: Rx, items: seq<Frame>, now: nat, s: nat, c: Stored, n: nat)
    requires CacheInv(rx, now) && New(rx, items) && CachedAt(rx, s, c, n) && forall f :: f in items ==> f.0 != s
    ensures Place(AdmitAll(rx, items, now), s, c, n + |items|, n + |items| < 4096)
  {
    if items == [] {
      assert |rx.order| <= MAX_PAYLOADS;
    } else {
      var m := |items| - 1;
      NewPrefix(rx, items, m);
      AdmitAllCache(rx, items[..m], now);
      AdmitAllUnseen(rx, items[..m], now, items[m].0);
      AdmitAllPlace(rx, items[..m], now, s, c, n);
      LastPlace(AdmitAll(rx, items[..m], now), AdmitAll(rx, items, now), items[m], now, s, c, n + m);
    }
  }

  lemma {:induction false} AdmitAllGone(rx: Rx, items: seq<Frame>, now: nat, s: nat)
    requires s !in rx.payloads && forall f :: f in items ==> f.0 != s
    ensures s !in AdmitAll(rx, items, now).payloads
  {
    if items != [] {
      var m := |items| - 1;
      AdmitAllGone(rx, items[..m], now, s);
      AdmitGone(AdmitAll(rx, items[..m], now), items[m], now, s);
    }
  }

  /** The frame itself, once admitted, is the newest. */
  lemma AdmittedPlace(rx: Rx, f: Frame, now: nat)
    requires CacheInv(rx, now) && !Seen(rx, f.0)
    ensures CachedAt(Admit(rx, f, now), f.0, Stored(now, f.1), 0)
  {
    if f.0 in rx.payloads {
      PayloadsAreSeen(rx, now, f.0);
    }
    var m := MarkSeen(rx, f.0, now);
    InsertIsPush(m, f.0, f.1, now);
    assert f.0 !in rx.order;
  }

  // ----- events

  /** What an event admits is new. */
  lemma AdmittedIsNew(rx: Rx, base: Rx, e: Event, clock: nat)
    requires OnceInv(rx, clock) && Regular(rx, e, clock) && base == Base(rx, e)
    ensures New(base, Admitted(rx, e)) && CacheInv(base, e.now)
  {
    StepOnce(rx, e, clock);
    BaseCache(rx, base, e, clock);
    NewList(base, Step(rx, e), if e.Data? then e.seqno else 0, if e.Data? then e.body else [], e.now);
  }

  lemma BaseCache(rx: Rx, base: Rx, e: Event, clock: nat)
    requires CacheInv(rx, clock) && clock <= e.now && base == Base(rx, e)
    ensures CacheInv(base, e.now)
  {
    if Noted(e).Some? {
      NoteCache(rx, Noted(e).value, clock);
    }
    var k: nat :| SplitAt(base, k);
  }

  lemma NewList(base: Rx, next: Next, s: nat, body: bytes, now: nat)
    requires OnceOk(base, next.rx, next.recovered, now)
    requires next.delivered.Some? ==> next.delivered.value == s && !Seen(base, s)
    requires next.delivered.Some? ==> forall i :: 0 <= i < |next.recovered| ==> next.recovered[i].0 != s
    ensures New(base, (if next.delivered.Some? then [(s, body)] else []) + next.recovered)
  {
  }

  /** The event marks `s`: it hands on a frame of that number. */
  ghost predicate Hands(rx: Rx, e: Event, s: nat) {
    exists i :: 0 <= i < |Admitted(rx, e)| && Admitted(rx, e)[i].0 == s
  }

  lemma SeenNotHanded(rx: Rx, e: Event, clock: nat, s: nat)
    requires OnceInv(rx, clock) && Regular(rx, e, clock) && !Restarts(rx, e) && Seen(rx, s)
    ensures !Hands(rx, e, s)
  {
    AdmittedIsNew(rx, Base(rx, e), e, clock);
    assert Seen(Base(rx, e), s);
  }

  /** The event is no tick at or after `limit`. */
  ghost predicate InTime(e: Event, limit: nat) {
    e.Maintenance? ==> e.now < limit
  }

  lemma TickIsExpiry(rx: Rx, now: nat)
    ensures Tick(rx, now).0.order == ExpirePayloads(rx, now).order
        && Tick(rx, now).0.payloads == ExpirePayloads(rx, now).payloads
  {
  }

  lemma SuffixKept(rx: Rx, rx': Rx, k: nat, s: nat, c: Stored, n: nat, kept: bool)
    requires Distinct(rx.order) && CachedAt(rx, s, c, n) && k <= |rx.order| && rx'.order == rx.order[k..]
    requires (s in rx'.payloads <==> kept) && (s in rx'.payloads ==> rx'.payloads[s] == c && s in rx'.order)
    ensures Place(rx', s, c, n, kept)
  {
    if kept {
      SuffixPlace(rx.order, rx'.order, k, s, n);
    }
  }

  lemma ExpirePlace(rx: Rx, rx': Rx, clock: nat, now: nat, s: nat, c: Stored, n: nat)
    requires OrderInv(rx, clock) && CachedAt(rx, s, c, n) && rx' == ExpirePayloads(rx, now)
    ensures Place(rx', s, c, n, now < c.at + rx.payloadTtl)
  {
    ExpireIff(rx, rx', clock, now, s);
    ExpireOrder(rx, clock, now);
    var k := ExpireSuffix(rx, now);
    SuffixKept(rx, rx', k, s, c, n, now < c.at + rx.payloadTtl);
  }

  lemma TickPlace(rx: Rx, clock: nat, now: nat, s: nat, c: Stored, n: nat)
    requires CacheInv(rx, clock) && CachedAt(rx, s, c, n)
    ensures Place(Tick(rx, now).0, s, c, n, now < c.at + rx.payloadTtl)
  {
    var rx' := ExpirePayloads(rx, now);
    ExpirePlace(rx, rx', clock, now, s, c, n);
    TickIsExpiry(rx, now);
    SamePlace(rx', Tick(rx, now).0, s, c, n, now < c.at + rx.payloadTtl);
  }

  lemma {:induction false} ExpireOrder(rx: Rx, clock: nat, now: nat)
    requires OrderInv(rx, clock)
    ensures OrderInv(ExpirePayloads(rx, now), clock)
    decreases |rx.order|
  {
    if rx.order != [] && Expired(rx, rx.order[0], now) {
      PopOrder(rx, clock);
      ExpireOrder(Popped(rx), clock, now);
    }
  }

  lemma SuffixPlace(order: seq<nat>, rest: seq<nat>, k: nat, s: nat, n: nat)
    requires Distinct(order) && k <= |order| && rest == order[k..] && n < |order| && order[|order| - 1 - n] == s
        && s in rest
    ensures n < |rest| && rest[|rest| - 1 - n] == s
  {
    var i :| 0 <= i < |rest| && rest[i] == s;
    assert order[k + i] == s;
    assert k + i == |order| - 1 - n;
  }

  lemma SamePlace(rx: Rx, rx': Rx, s: nat, c: Stored, n: nat, kept: bool)
    requires rx'.order == rx.order && rx'.payloads == rx.payloads && Place(rx, s, c, n, kept)
    ensures Place(rx', s, c, n, kept)
  {
  }

  lemma BaseSame(rx: Rx, base: Rx, e: Event)
    requires base == Base(rx, e) && !Restarts(rx, e)
    ensures base.order == rx.order && base.payloads == rx.payloads
  {
  }

  lemma AdmitStepPlace(rx: Rx, base: Rx, rx': Rx, e: Event, items: seq<Frame>, clock: nat, s: nat, c: Stored, n: nat)
    requires OnceInv(rx, clock) && Regular(rx, e, clock) && !Restarts(rx, e) && CachedAt(rx, s, c, n) && !e.Maintenance?
    requires base == Base(rx, e) && items == Admitted(rx, e) && rx' == Step(rx, e).rx
    ensures Place(rx', s, c, n + |items|, n + |items| < 4096)
  {
    PayloadsAreSeen(rx, clock, s);
    SeenNotHanded(rx, e, clock, s);
    AdmittedIsNew(rx, base, e, clock);
    BaseSame(rx, base, e);
    SamePlace(rx, base, s, c, n, true);
    AdmitAllPlace(base, items, e.now, s, c, n);
    StepTracking(rx, e);
    SamePlace(AdmitAll(base, items, e.now), rx', s, c, n + |items|, n + |items| < 4096);
  }

  /** One event: a cached payload stays exactly when fewer than 4096 frames have been admitted
      after it and the event is no tick at its limit or later. */
  lemma StepPlace(rx: Rx, e: Event, clock: nat, s: nat, c: Stored, n: nat)
    requires OnceInv(rx, clock) && Regular(rx, e, clock) && !Restarts(rx, e) && CachedAt(rx, s, c, n)
    ensures var m := n + |Admitted(rx, e)|;
            Place(Step(rx, e).rx, s, c, m, m < 4096 && InTime(e, c.at + rx.payloadTtl))
  {
    if e.Maintenance? {
      assert |rx.order| <= MAX_PAYLOADS;
      TickPlace(rx, clock, e.now, s, c, n);
    } else {
      AdmitStepPlace(rx, Base(rx, e), Step(rx, e).rx, e, Admitted(rx, e), clock, s, c, n);
    }
  }

  lemma NotedGone(rx: Rx, e: Event, s: nat)
    requires s !in rx.payloads
    ensures s !in Base(rx, e).payloads
  {
  }

  lemma StepGone(rx: Rx, e: Event, items: seq<Frame>, s: nat)
    requires s !in rx.payloads && !Hands(rx, e, s) && items == Admitted(rx, e)
    ensures s !in Step(rx, e).rx.payloads
  {
    if e.Maintenance? {
      ExpireShrinks(rx, e.now, s);
      TickIsExpiry(rx, e.now);
    } else {
      NotedGone(rx, e, s);
      AdmitAllGone(Base(rx, e), items, e.now, s);
      StepTracking(rx, e);
    }
  }

  // ----- runs

  /** The frames a run admits. */
  ghost function Admissions(rx: Rx, es: seq<Event>): nat {
    if es == [] then 0
    else Admissions(rx, es[..|es| - 1]) + |Admitted(RunTo(rx, es[..|es| - 1]), es[|es| - 1])|
  }

  ghost predicate AllInTime(es: seq<Event>, limit: nat) {
    forall i :: 0 <= i < |es| ==> InTime(es[i], limit)
  }

  /** No event of the run hands on a frame numbered `s`. */
  ghost predicate NotHanded(rx: Rx, es: seq<Event>, s: nat) {
    es == [] || (NotHanded(rx, es[..|es| - 1], s) && !Hands(RunTo(rx, es[..|es| - 1]), es[|es| - 1], s))
  }

  /** From `before` to `after`, `k` frames are admitted, and the payload is kept if `inTime`. */
  ghost predicate Moves(before: Rx, after: Rx, k: nat, inTime: bool, s: nat, c: Stored) {
    forall n: nat :: CachedAt(before, s, c, n) ==> Place(after, s, c, n + k, n + k < 4096 && inTime)
  }

  lemma StepMoves(rx: Rx, after: Rx, e: Event, k: nat, clock: nat, limit: nat, s: nat, c: Stored)
    requires OnceInv(rx, clock) && Regular(rx, e, clock) && !Restarts(rx, e) && limit == c.at + rx.payloadTtl
    requires after == Step(rx, e).rx && k == |Admitted(rx, e)|
    ensures Moves(rx, after, k, InTime(e, limit), s, c)
  {
    forall n: nat | CachedAt(rx, s, c, n) ensures Place(after, s, c, n + k, n + k < 4096 && InTime(e, limit)) {
      StepPlace(rx, e, clock, s, c, n);
    }
  }

  lemma LastMoves(rx: Rx, es: seq<Event>, clock: nat, before: Rx, s: nat, c: Stored)
    requires OnceInv(rx, clock) && es != [] && RegularRun(rx, es, clock) && RestartFree(rx, es)
    requires before == RunTo(rx, es[..|es| - 1])
    ensures var m := |es| - 1;
            Moves(before, RunTo(rx, es), |Admitted(before, es[m])|, InTime(es[m], c.at + rx.payloadTtl), s, c)
  {
    var m := |es| - 1;
    RunKeeps(rx, es[..m], clock);
    RunLimits(rx, es[..m]);
    StepMoves(before, Step(before, es[m]).rx, es[m], |Admitted(before, es[m])|, ClockOf(es[..m], clock), c.at + rx.payloadTtl, s, c);
  }

  /** The states of a run, the frames admitted until then, and the frames not handed on. */
  ghost predicate TraceOf(rx: Rx, es: seq<Event>, limit: nat, s: nat, c: Stored, states: seq<Rx>, counts: seq<nat>) {
    && |states| == |counts| == |es| + 1 && states[0] == rx && counts[0] == 0
    && forall i :: 0 <= i < |es| ==> counts[i] <= counts[i + 1]
                                     && Moves(states[i], states[i + 1], counts[i + 1] - counts[i], InTime(es[i], limit), s, c)
  }

  lemma {:induction false} TraceKeeps(rx: Rx, es: seq<Event>, limit: nat, s: nat, c: Stored, n: nat,
                                      states: seq<Rx>, counts: seq<nat>, k: nat)
    requires TraceOf(rx, es, limit, s, c, states, counts) && CachedAt(rx, s, c, n) && k <= |es|
    requires n + counts[k] < 4096 && forall i :: 0 <= i < k ==> InTime(es[i], limit)
    ensures CachedAt(states[k], s, c, n + counts[k])
  {
    if k > 0 {
      TraceKeeps(rx, es, limit, s, c, n, states, counts, k - 1);
    }
  }

  lemma {:induction false} TraceDrops(rx: Rx, es: seq<Event>, limit: nat, s: nat, c: Stored, n: nat,
                                      states: seq<Rx>, counts: seq<nat>, k: nat)
    requires TraceOf(rx, es, limit, s, c, states, counts) && CachedAt(rx, s, c, n) && n < 4096 && k <= |es|
    requires n + counts[k] >= 4096 || exists i :: 0 <= i < k && !InTime(es[i], limit)
    requires StaysGone(states, s)
    ensures s !in states[k].payloads
  {
    if k > 0 {
      if n + counts[k - 1] >= 4096 || exists i :: 0 <= i < k - 1 && !InTime(es[i], limit) {
        TraceDrops(rx, es, limit, s, c, n, states, counts, k - 1);
      } else {
        TraceKeeps(rx, es, limit, s, c, n, states, counts, k - 1);
      }
    }
  }

  /** No state of the trace without the payload is followed by one with it. */
  ghost predicate StaysGone(states: seq<Rx>, s: nat) {
    forall i :: 0 <= i < |states| - 1 && s !in states[i].payloads ==> s !in states[i + 1].payloads
  }

  lemma {:induction false} RunTrace(rx: Rx, es: seq<Event>, clock: nat, s: nat, c: Stored)
    returns (states: seq<Rx>, counts: seq<nat>)
    requires OnceInv(rx, clock) && RegularRun(rx, es, clock) && RestartFree(rx, es)
    ensures TraceOf(rx, es, c.at + rx.payloadTtl, s, c, states, counts)
    ensures states[|es|] == RunTo(rx, es) && counts[|es|] == Admissions(rx, es)
    ensures NotHanded(rx, es, s) ==> StaysGone(states, s)
  {
    if es == [] {
      states, counts := [rx], [0];
    } else {
      var m := |es| - 1;
      var states', counts' := RunTrace(rx, es[..m], clock, s, c);
      var before, after := states'[m], RunTo(rx, es);
      LastMoves(rx, es, clock, before, s, c);
      LastGone(rx, es, before, s);
      states, counts := Extended(rx, es, m, c.at + rx.payloadTtl, s, c, states', counts', after, |Admitted(before, es[m])|);
    }
  }

  lemma Extended(rx: Rx, es: seq<Event>, m: nat, limit: nat, s: nat, c: Stored, states': seq<Rx>, counts': seq<nat>,
                 after: Rx, k: nat)
    returns (states: seq<Rx>, counts: seq<nat>)
    requires m == |es| - 1 && TraceOf(rx, es[..m], limit, s, c, states', counts')
    requires Moves(states'[m], after, k, InTime(es[m], limit), s, c)
    ensures TraceOf(rx, es, limit, s, c, states, counts)
    ensures states[|es|] == after && counts[|es|] == counts'[m] + k
    ensures StaysGone(states', s) && (s !in states'[m].payloads ==> s !in after.payloads) ==> StaysGone(states, s)
  {
    states, counts := states' + [after], counts' + [counts'[m] + k];
    TraceNext(rx, es, m, limit, s, c, states', counts', states, counts);
  }

  lemma LastGone(rx: Rx, es: seq<Event>, before: Rx, s: nat)
    requires es != [] && before == RunTo(rx, es[..|es| - 1])
    ensures NotHanded(rx, es, s) && s !in before.payloads ==> s !in RunTo(rx, es).payloads
  {
    if NotHanded(rx, es, s) && s !in before.payloads {
      StepGone(before, es[|es| - 1], Admitted(before, es[|es| - 1]), s);
    }
  }

  lemma TraceNext(rx: Rx, es: seq<Event>, m: nat, limit: nat, s: nat, c: Stored, states: seq<Rx>, counts: seq<nat>,
                  states': seq<Rx>, counts': seq<nat>)
    requires m == |es| - 1 && TraceOf(rx, es[..m], limit, s, c, states, counts)
    requires |states'| == |counts'| == m + 2 && states'[..m + 1] == states && counts'[..m + 1] == counts
    requires counts'[m] <= counts'[m + 1]
    requires Moves(states'[m], states'[m + 1], counts'[m + 1] - counts'[m], InTime(es[m], limit), s, c)
    ensures TraceOf(rx, es, limit, s, c, states', counts')
  {
    assert states'[0] == states[0] && counts'[0] == counts[0];
    forall i | 0 <= i < m
      ensures counts'[i] <= counts'[i + 1]
      ensures Moves(states'[i], states'[i + 1], counts'[i + 1] - counts'[i], InTime(es[i], limit), s, c)
    {
      assert states'[i] == states[i] && states'[i + 1] == states[i + 1] && counts'[i] == counts[i]
          && counts'[i + 1] == counts[i + 1];
      assert es[..m][i] == es[i];
    }
  }

  lemma TraceDecides(rx: Rx, es: seq<Event>, limit: nat, s: nat, c: Stored, n: nat, states: seq<Rx>,
                     counts: seq<nat>, last: Rx, total: nat)
    requires TraceOf(rx, es, limit, s, c, states, counts) && CachedAt(rx, s, c, n) && n < 4096
    requires last == states[|es|] && total == counts[|es|]
    ensures n + total < 4096 && AllInTime(es, limit) ==> s in last.payloads && last.payloads[s] == c
    ensures !(n + total < 4096 && AllInTime(es, limit)) && StaysGone(states, s) ==> s !in last.payloads
  {
    if n + total < 4096 && AllInTime(es, limit) {
      TraceKeeps(rx, es, limit, s, c, n, states, counts, |es|);
    } else if StaysGone(states, s) {
      TraceDrops(rx, es, limit, s, c, n, states, counts, |es|);
    }
  }

  // ----- from the event that admits a frame

  /** A frame admitted at position `j` of an event's list has the rest of the list after it. */
  lemma {:induction false} ListPlace(rx: Rx, items: seq<Frame>, now: nat, j: nat)
    requires CacheInv(rx, now) && New(rx, items) && j < |items| <= 3
    ensures CachedAt(AdmitAll(rx, items, now), items[j].0, Stored(now, items[j].1), |items| - 1 - j)
  {
    var m := |items| - 1;
    NewPrefix(rx, items, m);
    if j < m {
      ListPlace(rx, items[..m], now, j);
    }
    ListNext(rx, AdmitAll(rx, items[..m], now), items, m, now, j);
  }

  lemma ListNext(rx: Rx, mid: Rx, items: seq<Frame>, m: nat, now: nat, j: nat)
    requires CacheInv(rx, now) && New(rx, items) && m == |items| - 1 <= 2 && j <= m
        && mid == AdmitAll(rx, items[..m], now)
    requires j < m ==> CachedAt(mid, items[j].0, Stored(now, items[j].1), m - 1 - j)
    ensures CachedAt(Admit(mid, items[m], now), items[j].0, Stored(now, items[j].1), m - j)
  {
    NewPrefix(rx, items, m);
    BeforeLast(rx, mid, items[..m], now, items[m].0);
    if j == m {
      AdmittedPlace(mid, items[m], now);
    } else {
      assert items[j] == items[..m][j];
      AdmitPlace(mid, items[m], now, items[j].0, Stored(now, items[j].1), m - 1 - j);
    }
  }

  lemma BeforeLast(rx: Rx, mid: Rx, items: seq<Frame>, now: nat, t: nat)
    requires CacheInv(rx, now) && New(rx, items) && !Seen(rx, t) && mid == AdmitAll(rx, items, now)
    requires forall f :: f in items ==> f.0 != t
    ensures CacheInv(mid, now) && !Seen(mid, t)
  {
    AdmitAllCache(rx, items, now);
    AdmitAllUnseen(rx, items, now, t);
  }

  lemma AtMostThree(rx: Rx, e: Event)
    ensures |Step(rx, e).recovered| <= 2 && |Admitted(rx, e)| <= 3
  {
    var base := Base(rx, e);
    match e
    case Data(s, body, now, oldest) =>
      if !Seen(base, s) {
        DataIsAdmitted(rx, base, s, body, now, oldest);
        RecheckAtMostTwo(Admit(base, (s, body), now), s, now, oldest);
      }
    case ParityShare(k, par, now, oldest) =>
      if WellFormed(par) {
        ShareIsSettled(rx, base, k, par, now, oldest);
        JudgeAtMostTwo(DropParked(base, par.seqs[0]), HeldShares(base, par.seqs[0]).With(k, par));
      }
    case Maintenance(_) =>
  }

  lemma JudgeAtMostTwo(rx: Rx, shares: Shares)
    ensures Judge(rx, shares).Recovered? ==> |Judge(rx, shares).items| <= 2
  {
  }

  lemma RecheckAtMostTwo(rx: Rx, t: nat, now: nat, oldest: nat)
    ensures |Recheck(rx, t, now, oldest).1| <= 2
  {
    if t in rx.parkedBySeq && rx.parkedBySeq[t] in rx.parked {
      var key := rx.parkedBySeq[t];
      JudgeAtMostTwo(DropParked(rx.(parkedBySeq := rx.parkedBySeq - {t}), key), rx.parked[key].shares);
    }
  }

  lemma TicksHandNothing(rx: Rx, e: Event)
    ensures e.Maintenance? ==> Admitted(rx, e) == []
  {
  }

  lemma ListedPlace(base: Rx, rx': Rx, items: seq<Frame>, now: nat, j: nat)
    requires j < |items| <= 3
    ensures CacheInv(base, now) && New(base, items) && SameTracking(AdmitAll(base, items, now), rx') ==>
              CachedAt(rx', items[j].0, Stored(now, items[j].1), |items| - 1 - j)
  {
    if CacheInv(base, now) && New(base, items) {
      ListPlace(base, items, now, j);
    }
  }

  /** Handed on by an event, a frame is cached from then on. */
  lemma HandedPlace(rx: Rx, rx': Rx, e: Event, items: seq<Frame>, clock: nat, j: nat)
    requires OnceInv(rx, clock) && Regular(rx, e, clock) && j < |items|
    requires items == Admitted(rx, e) && rx' == Step(rx, e).rx
    ensures CachedAt(rx', items[j].0, Stored(e.now, items[j].1), |items| - 1 - j)
  {
    TicksHandNothing(rx, e);
    AdmittedIsNew(rx, Base(rx, e), e, clock);
    AtMostThree(rx, e);
    StepTracking(rx, e);
    ListedPlace(Base(rx, e), rx', items, e.now, j);
  }

  lemma AfterEvent(parityCount: nat, start: nat, pre: seq<Event>, e: Event, before: Rx, mid: Rx)
    requires before == RunTo(NewRx(parityCount, start), pre) && mid == Step(before, e).rx
    requires RegularRun(NewRx(parityCount, start), pre, start) && Regular(before, e, ClockOf(pre, start))
    ensures OnceInv(before, ClockOf(pre, start)) && OnceInv(mid, e.now)
    ensures mid.payloadTtl == 2_000_000_000
  {
    RunOnce(parityCount, start, pre);
    StepOnce(before, e, ClockOf(pre, start));
    RunLimits(NewRx(parityCount, start), pre);
    StepLimits(before, e);
  }

  /** A run `pre` to `before`, an event that hands on `items`, `f` at position `j`, and a run
      `post` without a restart. */
  ghost predicate HandedIn(parityCount: nat, start: nat, pre: seq<Event>, before: Rx, e: Event, items: seq<Frame>,
                           j: nat, f: Frame, mid: Rx, post: seq<Event>) {
    && before == RunTo(NewRx(parityCount, start), pre) && items == Admitted(before, e) && mid == Step(before, e).rx
    && RegularRun(NewRx(parityCount, start), pre, start) && Regular(before, e, ClockOf(pre, start))
    && j < |items| && items[j] == f
    && RegularRun(mid, post, e.now) && RestartFree(mid, post)
  }

  /** How many frames were admitted after `f`: by the event that handed it on, and since. */
  ghost function AfterIt(items: seq<Frame>, j: nat, mid: Rx, post: seq<Event>): int {
    |items| - 1 - j + Admissions(mid, post)
  }

  /** `f` is cached since `now`, `n` frames came after it, and a run goes on to `rx`. */
  ghost predicate GoesOn(mid: Rx, now: nat, f: Frame, n: nat, post: seq<Event>, rx: Rx) {
    && CachedAt(mid, f.0, Stored(now, f.1), n) && n < 4096 && OnceInv(mid, now) && mid.payloadTtl == 2_000_000_000
    && RegularRun(mid, post, now) && RestartFree(mid, post) && rx == RunTo(mid, post)
  }

  lemma HandedFrame(parityCount: nat, start: nat, pre: seq<Event>, before: Rx, e: Event, items: seq<Frame>, j: nat,
                    f: Frame, mid: Rx, post: seq<Event>)
    requires j < |items|
    ensures HandedIn(parityCount, start, pre, before, e, items, j, f, mid, post) ==>
              GoesOn(mid, e.now, f, |items| - 1 - j, post, RunTo(mid, post))
  {
    if HandedIn(parityCount, start, pre, before, e, items, j, f, mid, post) {
      AfterEvent(parityCount, start, pre, e, before, mid);
      AtMostThree(before, e);
      HandedPlace(before, mid, e, items, ClockOf(pre, start), j);
    }
  }

  lemma KeptFrom(mid: Rx, now: nat, f: Frame, n: nat, post: seq<Event>, rx: Rx)
    ensures GoesOn(mid, now, f, n, post, rx) ==>
              if n + Admissions(mid, post) < 4096 && AllInTime(post, now + 2_000_000_000)
              then f.0 in rx.payloads && rx.payloads[f.0] == Stored(now, f.1)
              else NotHanded(mid, post, f.0) ==> f.0 !in rx.payloads
  {
    if GoesOn(mid, now, f, n, post, rx) {
      var states, counts := RunTrace(mid, post, now, f.0, Stored(now, f.1));
      TraceDecides(mid, post, now + 2_000_000_000, f.0, Stored(now, f.1), n, states, counts, rx, Admissions(mid, post));
    }
  }

  /** In every run: a frame handed on, delivered or recovered, is at hand with its bytes until
      4096 frames were admitted after it, a tick came two seconds later, or the peer restarted. */
  lemma FrameKept(parityCount: nat, start: nat, pre: seq<Event>, before: Rx, e: Event, items: seq<Frame>, j: nat,
                  f: Frame, mid: Rx, post: seq<Event>)
    requires HandedIn(parityCount, start, pre, before, e, items, j, f, mid, post)
    requires AfterIt(items, j, mid, post) < 4096 && AllInTime(post, e.now + 2_000_000_000)
    ensures var rx := RunTo(mid, post); f.0 in rx.payloads && rx.payloads[f.0] == Stored(e.now, f.1)
  {
    HandedFrame(parityCount, start, pre, before, e, items, j, f, mid, post);
    KeptFrom(mid, e.now, f, |items| - 1 - j, post, RunTo(mid, post));
  }

  /** And then it is at hand no longer, unless it is handed on once more. */
  lemma FrameDropped(parityCount: nat, start: nat, pre: seq<Event>, before: Rx, e: Event, items: seq<Frame>, j: nat,
                     f: Frame, mid: Rx, post: seq<Event>)
    requires HandedIn(parityCount, start, pre, before, e, items, j, f, mid, post) && NotHanded(mid, post, f.0)
    requires AfterIt(items, j, mid, post) >= 4096 || !AllInTime(post, e.now + 2_000_000_000)
    ensures f.0 !in RunTo(mid, post).payloads
  {
    HandedFrame(parityCount, start, pre, before, e, items, j, f, mid, post);
    KeptFrom(mid, e.now, f, |items| - 1 - j, post, RunTo(mid, post));
  }
}
