/** The event detector's counter side, in place: every observation moves each key's counter by
    one step of `Counters` and reports exactly the flushes due, in key order. */
module CounterEvents {
  import opened Bytes
  import opened Common
  import opened Counters

  const REORDER_WARN_MIN: nat := 50
  const GLOBAL: nat := 0xffff_ffff_ffff_ffff

  /** The counter-driven kinds, in the order of their names. */
  datatype Kind =
    | FecRecovery | FecUnrecoverable | OutboundQueueDrop | ReorderWarning | Reroute
    | SendFailure | TunDrop | TxQueueFull | WireguardError

  predicate PerLink(k: Kind) {
    k.Reroute? || k.SendFailure? || k.TxQueueFull? || k.WireguardError?
  }

  function Rank(k: Kind): nat {
    match k
    case FecRecovery => 0
    case FecUnrecoverable => 1
    case OutboundQueueDrop => 2
    case ReorderWarning => 3
    case Reroute => 4
    case SendFailure => 5
    case TunDrop => 6
    case TxQueueFull => 7
    case WireguardError => 8
  }

  datatype Key = Key(kind: Kind, link: nat)

  predicate IsKey(key: Key) {
    PerLink(key.kind) || key.link == GLOBAL
  }

  predicate Before(a: Key, b: Key) {
    Rank(a.kind) < Rank(b.kind) || (a.kind == b.kind && a.link < b.link)
  }

  datatype LinkCounters = LinkCounters(queueFull: nat, sendFailed: nat, rerouted: nat, wgRejected: nat)

  datatype Globals = Globals(
    fecRecovered: nat, fecUnrecoverable: nat, outboundDropped: nat, tunDropped: nat, reorderTimeouts: nat)

  datatype Obs = Obs(now: nat, links: seq<LinkCounters>, globals: Globals)

  const NO_LINK: LinkCounters := LinkCounters(0, 0, 0, 0)
  const NO_GLOBALS: Globals := Globals(0, 0, 0, 0, 0)

  function LinkValue(l: LinkCounters, k: Kind): nat {
    match k
    case TxQueueFull => l.queueFull
    case SendFailure => l.sendFailed
    case Reroute => l.rerouted
    case WireguardError => l.wgRejected
    case _ => 0
  }

  function GlobalValue(g: Globals, k: Kind): nat {
    match k
    case FecRecovery => g.fecRecovered
    case FecUnrecoverable => g.fecUnrecoverable
    case OutboundQueueDrop => g.outboundDropped
    case TunDrop => g.tunDropped
    case ReorderWarning => g.reorderTimeouts
    case _ => 0
  }

  function Reading(obs: Obs, key: Key): Option<nat> {
    if !PerLink(key.kind) then Some(GlobalValue(obs.globals, key.kind))
    else if key.link < |obs.links| then Some(LinkValue(obs.links[key.link], key.kind))
    else None
  }

  function Minimum(key: Key): nat {
    if key.kind == ReorderWarning then REORDER_WARN_MIN else 0
  }

  function PrevOf(links: seq<LinkCounters>, globals: Globals, key: Key): nat {
    if !PerLink(key.kind) then GlobalValue(globals, key.kind)
    else if key.link < |links| then LinkValue(links[key.link], key.kind)
    else 0
  }

  function PendingOf(pending: map<Key, nat>, key: Key): nat {
    if key in pending then pending[key] else 0
  }

  function EmitOf(lastEmit: map<Key, nat>, key: Key): Option<nat> {
    if key in lastEmit then Some(lastEmit[key]) else None
  }

  /** An event: the key and the number of occurrences. */
  datatype Emission = Emission(key: Key, count: nat)

  ghost predicate Sorted(out: seq<Emission>) {
    forall i, j :: 0 <= i < j < |out| ==> Before(out[i].key, out[j].key)
  }

  lemma BeforeTotal(a: Key, b: Key, c: Key)
    ensures a == b || Before(a, b) || Before(b, a)
    ensures Before(a, b) && Before(b, c) ==> Before(a, c)
  {
  }

  /** The first of some keys. */
  lemma HasFirst(s: set<Key>)
    requires s != {}
    ensures exists first :: first in s && ComesFirst(s, first)
    decreases |s|
  {
    var x :| x in s;
    if s == {x} {
      assert ComesFirst(s, x);
    } else {
      HasFirst(s - {x});
      var y :| y in s - {x} && ComesFirst(s - {x}, y);
      BeforeTotal(x, y, x);
      var first := if Before(x, y) then x else y;
      forall k | k in s && k != first ensures Before(first, k) {
        BeforeTotal(x, y, k);
      }
      assert ComesFirst(s, first);
    }
  }

  predicate ComesFirst(s: set<Key>, first: Key) {
    forall k :: k in s && k != first ==> Before(first, k)
  }

  // ----- pending amounts

  function Added(pending: map<Key, nat>, key: Key, now: nat, prev: nat): map<Key, nat> {
    if now > prev then pending[key := PendingOf(pending, key) + (now - prev)] else pending
  }

  ghost function Gain(now: nat, prev: nat): nat {
    if now > prev then now - prev else 0
  }

  ghost predicate AllKeys(pending: map<Key, nat>) {
    forall key :: key in pending ==> IsKey(key)
  }

  lemma AddedAt(pending: map<Key, nat>, key: Key, now: nat, prev: nat, k: Key)
    ensures PendingOf(Added(pending, key, now, prev), k) == PendingOf(pending, k) + if k == key
        then Gain(now, prev) else 0
  {
  }

  ghost function LinkAdded(p: map<Key, nat>, idx: nat, l: LinkCounters, t: LinkCounters): map<Key, nat> {
    var p1 := Added(p, Key(TxQueueFull, idx), l.queueFull, t.queueFull);
    var p2 := Added(p1, Key(SendFailure, idx), l.sendFailed, t.sendFailed);
    var p3 := Added(p2, Key(Reroute, idx), l.rerouted, t.rerouted);
    Added(p3, Key(WireguardError, idx), l.wgRejected, t.wgRejected)
  }

  lemma LinkAddedAt(p: map<Key, nat>, idx: nat, l: LinkCounters, t: LinkCounters, k: Key)
    ensures PendingOf(LinkAdded(p, idx, l, t), k)
            == PendingOf(p, k) + if PerLink(k.kind) && k.link == idx
                then Gain(LinkValue(l, k.kind), LinkValue(t, k.kind)) else 0
  {
    var p1 := Added(p, Key(TxQueueFull, idx), l.queueFull, t.queueFull);
    var p2 := Added(p1, Key(SendFailure, idx), l.sendFailed, t.sendFailed);
    var p3 := Added(p2, Key(Reroute, idx), l.rerouted, t.rerouted);
    AddedAt(p, Key(TxQueueFull, idx), l.queueFull, t.queueFull, k);
    AddedAt(p1, Key(SendFailure, idx), l.sendFailed, t.sendFailed, k);
    AddedAt(p2, Key(Reroute, idx), l.rerouted, t.rerouted, k);
    AddedAt(p3, Key(WireguardError, idx), l.wgRejected, t.wgRejected, k);
  }

  ghost function GlobalsAdded(p: map<Key, nat>, g: Globals, t: Globals): map<Key, nat> {
    var p1 := Added(p, Key(FecRecovery, GLOBAL), g.fecRecovered, t.fecRecovered);
    var p2 := Added(p1, Key(FecUnrecoverable, GLOBAL), g.fecUnrecoverable, t.fecUnrecoverable);
    var p3 := Added(p2, Key(OutboundQueueDrop, GLOBAL), g.outboundDropped, t.outboundDropped);
    var p4 := Added(p3, Key(TunDrop, GLOBAL), g.tunDropped, t.tunDropped);
    Added(p4, Key(ReorderWarning, GLOBAL), g.reorderTimeouts, t.reorderTimeouts)
  }

  lemma GlobalsAddedAt(p: map<Key, nat>, g: Globals, t: Globals, k: Key)
    requires IsKey(k)
    ensures PendingOf(GlobalsAdded(p, g, t), k)
            == PendingOf(p, k) + if PerLink(k.kind) then 0 else Gain(GlobalValue(g, k.kind), GlobalValue(t, k.kind))
  {
    var p1 := Added(p, Key(FecRecovery, GLOBAL), g.fecRecovered, t.fecRecovered);
    var p2 := Added(p1, Key(FecUnrecoverable, GLOBAL), g.fecUnrecoverable, t.fecUnrecoverable);
    var p3 := Added(p2, Key(OutboundQueueDrop, GLOBAL), g.outboundDropped, t.outboundDropped);
    var p4 := Added(p3, Key(TunDrop, GLOBAL), g.tunDropped, t.tunDropped);
    AddedAt(p, Key(FecRecovery, GLOBAL), g.fecRecovered, t.fecRecovered, k);
    AddedAt(p1, Key(FecUnrecoverable, GLOBAL), g.fecUnrecoverable, t.fecUnrecoverable, k);
    AddedAt(p2, Key(OutboundQueueDrop, GLOBAL), g.outboundDropped, t.outboundDropped, k);
    AddedAt(p3, Key(TunDrop, GLOBAL), g.tunDropped, t.tunDropped, k);
    AddedAt(p4, Key(ReorderWarning, GLOBAL), g.reorderTimeouts, t.reorderTimeouts, k);
  }

  // ----- flushing

  /** Worth an event rather than ordinary jitter. */
  predicate Worth(key: Key, n: nat) {
    !(key.kind == ReorderWarning && n < REORDER_WARN_MIN)
  }

  /** `out` reports exactly the amounts of the keys in `done` that are worth it. */
  ghost predicate Reports(out: seq<Emission>, pending: map<Key, nat>, done: set<Key>) {
    && (forall e :: e in out ==> e.key in done && e.key in pending && e.count == pending[e.key] && Worth(e.key, e.count))
    && forall key :: key in done && key in pending && Worth(key, pending[key]) ==> Emission(key, pending[key]) in out
  }

  lemma ReportsNext(out: seq<Emission>, pending: map<Key, nat>, done: set<Key>, key: Key)
    requires Reports(out, pending, done) && key in pending
    ensures Reports(if Worth(key, pending[key]) then out + [Emission(key, pending[key])] else out, pending, done + {key})
  {
  }

  ghost predicate AllBefore(out: seq<Emission>, due: set<Key>) {
    forall i, key :: 0 <= i < |out| && key in due ==> Before(out[i].key, key)
  }

  lemma SortedNext(out: seq<Emission>, due: set<Key>, e: Emission)
    requires Sorted(out) && AllBefore(out, due) && e.key in due && ComesFirst(due, e.key)
    ensures Sorted(out + [e]) && AllBefore(out + [e], due - {e.key}) && AllBefore(out, due - {e.key})
  {
  }

  class EventDetector {
    var seeded: bool
    var links: seq<LinkCounters>
    var globals: Globals
    var pending: map<Key, nat>
    var lastEmit: map<Key, nat>

    ghost predicate Valid()
      reads this
    {
      AllKeys(pending)
    }

    ghost function CounterOf(key: Key): Counter
      reads this
    {
      Counter(PrevOf(links, globals, key), PendingOf(pending, key), EmitOf(lastEmit, key))
    }

    constructor ()
      ensures Valid() && !seeded && forall key :: CounterOf(key) == IDLE
    {
      seeded, links, globals := false, [], NO_GLOBALS;
      pending, lastEmit := map[], map[];
    }

    method AddDelta(key: Key, now: nat, prev: nat)
      modifies this`pending
      ensures pending == Added(old(pending), key, now, prev)
    {
      if now > prev {
        pending := pending[key := PendingOf(pending, key) + (now - prev)];
      }
    }

    method ObserveLink(idx: nat, l: LinkCounters, emit: bool)
      requires Valid() && idx < |links|
      modifies this`links, this`pending
      ensures Valid() && links == old(links)[idx := l]
      ensures pending == if emit then LinkAdded(old(pending), idx, l, old(links)[idx]) else old(pending)
    {
      var t := links[idx];
      if emit {
        AddDelta(Key(TxQueueFull, idx), l.queueFull, t.queueFull);
        AddDelta(Key(SendFailure, idx), l.sendFailed, t.sendFailed);
        AddDelta(Key(Reroute, idx), l.rerouted, t.rerouted);
        AddDelta(Key(WireguardError, idx), l.wgRejected, t.wgRejected);
      }
      links := links[idx := l];
    }

    /** The key's counter after the first `n` links of the observation. */
    ghost function After(obs: Obs, c: Counter, key: Key, n: nat): Counter
      reads this`seeded
    {
      if PerLink(key.kind) && key.link < n then Collected(c, Reading(obs, key), seeded) else c
    }

    method ObserveLinks(obs: Obs)
      requires Valid()
      modifies this`links, this`pending
      ensures Valid()
      ensures forall key :: CounterOf(key) == After(obs, old(CounterOf(key)), key, |obs.links|)
    {
      if |links| < |obs.links| {
        links := links + seq(|obs.links| - |links|, _ => NO_LINK);
      }
      for idx := 0 to |obs.links|
        invariant Valid() && |links| >= |obs.links|
        invariant forall key :: CounterOf(key) == After(obs, old(CounterOf(key)), key, idx)
      {
        ghost var p, t := pending, links[idx];
        ObserveLink(idx, obs.links[idx], seeded);
        forall key ensures CounterOf(key) == After(obs, old(CounterOf(key)), key, idx + 1) {
          LinkAddedAt(p, idx, obs.links[idx], t, key);
        }
      }
    }

    method ObserveGlobals(g: Globals)
      requires Valid()
      modifies this`globals, this`pending
      ensures Valid() && globals == g
      ensures pending == if seeded then GlobalsAdded(old(pending), g, old(globals)) else old(pending)
    {
      if seeded {
        AddDelta(Key(FecRecovery, GLOBAL), g.fecRecovered, globals.fecRecovered);
        AddDelta(Key(FecUnrecoverable, GLOBAL), g.fecUnrecoverable, globals.fecUnrecoverable);
        AddDelta(Key(OutboundQueueDrop, GLOBAL), g.outboundDropped, globals.outboundDropped);
        AddDelta(Key(TunDrop, GLOBAL), g.tunDropped, globals.tunDropped);
        AddDelta(Key(ReorderWarning, GLOBAL), g.reorderTimeouts, globals.reorderTimeouts);
      }
      globals := g;
    }

    method Collect(obs: Obs)
      requires Valid()
      modifies this`links, this`globals, this`pending
      ensures Valid()
      ensures forall key :: IsKey(key) ==> CounterOf(key) == Collected(old(CounterOf(key)), Reading(obs, key), seeded)
    {
      ObserveLinks(obs);
      ghost var p, t := pending, globals;
      ObserveGlobals(obs.globals);
      forall key | IsKey(key) ensures CounterOf(key) == Collected(old(CounterOf(key)), Reading(obs, key), seeded) {
        GlobalsAddedAt(p, obs.globals, t, key);
      }
    }

    method Observe(obs: Obs) returns (out: seq<Emission>)
      requires Valid()
      modifies this
      ensures Valid() && seeded && Sorted(out)
      ensures forall key :: IsKey(key) ==>
        CounterOf(key) == Step(old(CounterOf(key)), Input(obs.now, Reading(obs, key)), old(seeded))
      ensures forall key, n :: IsKey(key) ==>
        (Emission(key, n) in out <==>
         StepFlush(old(CounterOf(key)), Input(obs.now, Reading(obs, key)), old(seeded), Minimum(key)) == Reported(n))
    {
      Collect(obs);
      seeded := true;
      out := FlushCounters(obs.now);
    }

    method FlushCounters(now: nat) returns (out: seq<Emission>)
      requires Valid()
      modifies this`pending, this`lastEmit
      ensures Valid() && Sorted(out)
      ensures forall key :: CounterOf(key) == Flushed(old(CounterOf(key)), now)
      ensures forall key, n :: Emission(key, n) in out <==> FlushOf(old(CounterOf(key)), now, Minimum(key)) == Reported(n)
    {
      var due := set key | key in pending && pending[key] > 0
                           && (key !in lastEmit || Since(now, lastEmit[key]) >= THROTTLE);
      out := FlushKeys(due, now);
    }

    method FlushKeys(keys: set<Key>, now: nat) returns (out: seq<Emission>)
      requires Valid() && keys <= pending.Keys
      modifies this`pending, this`lastEmit
      ensures Valid() && pending == old(pending) - keys && Sorted(out) && Reports(out, old(pending), keys)
      ensures forall key :: EmitOf(lastEmit, key) == if key in keys then Some(now) else EmitOf(old(lastEmit), key)
    {
      out := [];
      var due := keys;
      while due != {}
        invariant due <= keys && pending == old(pending) - (keys - due)
        invariant forall key :: EmitOf(lastEmit, key) == if key in keys - due then Some(now)
            else EmitOf(old(lastEmit), key)
        invariant Sorted(out) && AllBefore(out, due) && Reports(out, old(pending), keys - due)
      {
        HasFirst(due);
        var key :| key in due && ComesFirst(due, key);
        assert keys - due + {key} == keys - (due - {key});
        var n := pending[key];
        SortedNext(out, due, Emission(key, n));
        ReportsNext(out, old(pending), keys - due, key);
        FlushKey(key, now);
        if Worth(key, n) {
          out := out + [Emission(key, n)];
        }
        due := due - {key};
      }
      assert keys - due == keys;
    }

    method FlushKey(key: Key, now: nat)
      modifies this`pending, this`lastEmit
      ensures pending == old(pending) - {key} && lastEmit == old(lastEmit)[key := now]
    {
      pending := pending - {key};
      lastEmit := lastEmit[key := now];
    }
  }
}
