/** Bytes in fixed one-second windows: at most a budget in each window, hence at most twice
    the budget in any second at all. */
module RateCap {
  import opened Bytes
  import opened Scheduling

  /** `len` bytes were scheduled at `time`. */
  datatype Sent = Sent(time: nat, len: nat)

  /** The bytes scheduled at times in the half-open interval from `a` to `b`. */
  ghost function Between(log: seq<Sent>, a: int, b: int): nat {
    if log == [] then 0
    else
      var e := log[|log| - 1];
      Between(log[..|log| - 1], a, b) + (if a <= e.time < b then e.len else 0)
  }

  lemma {:induction false} BetweenSplit(log: seq<Sent>, a: int, b: int, c: int)
    requires a <= b <= c
    ensures Between(log, a, c) == Between(log, a, b) + Between(log, b, c)
  {
    if log != [] {
      BetweenSplit(log[..|log| - 1], a, b, c);
    }
  }

  lemma {:induction false} BetweenNone(log: seq<Sent>, a: int, b: int)
    requires forall e :: e in log ==> !(a <= e.time < b)
    ensures Between(log, a, b) == 0
  {
    if log != [] {
      BetweenNone(log[..|log| - 1], a, b);
    }
  }

  lemma BetweenNext(log: seq<Sent>, e: Sent, a: int, b: int)
    ensures Between(log + [e], a, b) == Between(log, a, b) + (if a <= e.time < b then e.len else 0)
  {
    assert (log + [e])[..|log|] == log;
  }

  /** At most twice the budget in the second from `t`. */
  ghost predicate Doubled(log: seq<Sent>, budget: nat, t: int) {
    Between(log, t, t + SECOND) <= 2 * budget
  }

  /** At most the budget in the last second before the window, from any `t` on. */
  ghost predicate Before(log: seq<Sent>, budget: nat, start: nat, t: int) {
    t > start - SECOND ==> Between(log, t, start) <= budget
  }

  /** The current window accounts for all bytes since its start. */
  ghost predicate Accounts(w: Window, log: seq<Sent>, budget: nat) {
    && (forall e :: e in log ==> e.time < w.start + SECOND)
    && Between(log, w.start, w.start + SECOND) == w.bytes <= budget
    && forall t: int :: Before(log, budget, w.start, t)
  }

  ghost predicate WindowInv(w: Option<Window>, log: seq<Sent>, budget: nat, clock: nat) {
    && (forall e :: e in log ==> e.time <= clock)
    && (if w.Some? then w.value.start <= clock && Accounts(w.value, log, budget) else log == [])
    && forall t: int :: Doubled(log, budget, t)
  }

  /** A window that is over is replaced by an empty one. */
  lemma RollAccounts(w: Window, log: seq<Sent>, budget: nat, now: nat)
    requires Accounts(w, log, budget) && now >= w.start + SECOND
    ensures Accounts(Window(now, 0), log, budget)
  {
    BetweenNone(log, now, now + SECOND);
    forall t: int ensures Before(log, budget, now, t) {
      if now - SECOND < t <= now {
        BetweenSplit(log, w.start, t, now);
        BetweenSplit(log, w.start, w.start + SECOND, now);
        BetweenNone(log, w.start + SECOND, now);
      } else if t > now {
        BetweenNone(log, t, now);
      }
    }
  }

  lemma RollKeeps(w: Option<Window>, log: seq<Sent>, budget: nat, clock: nat, now: nat)
    requires WindowInv(w, log, budget, clock) && clock <= now
    ensures WindowInv(Some(Rolled(w, now)), log, budget, now)
  {
    if w.Some? && now >= w.value.start + SECOND {
      RollAccounts(w.value, log, budget, now);
    }
  }

  lemma RecordAccounts(w: Window, log: seq<Sent>, budget: nat, now: nat, len: nat)
    requires Accounts(w, log, budget) && w.start <= now < w.start + SECOND && w.bytes + len <= budget
    ensures Accounts(w.(bytes := w.bytes + len), log + [Sent(now, len)], budget)
  {
    var e := Sent(now, len);
    BetweenNext(log, e, w.start, w.start + SECOND);
    forall t: int ensures Before(log + [e], budget, w.start, t) {
      assert Before(log, budget, w.start, t);
      BetweenNext(log, e, t, w.start);
    }
  }

  /** A second that contains the new packet meets at most the old window's tail and this one. */
  lemma RecordDoubles(w: Window, log: seq<Sent>, budget: nat, now: nat, len: nat, t: int)
    requires Accounts(w, log, budget) && w.start <= now < w.start + SECOND && w.bytes + len <= budget
    requires Doubled(log, budget, t)
    ensures Doubled(log + [Sent(now, len)], budget, t)
  {
    BetweenNext(log, Sent(now, len), t, t + SECOND);
    var end := w.start + SECOND;
    if t <= now < t + SECOND {
      assert Before(log, budget, w.start, t);
      if t <= w.start {
        BetweenSplit(log, t, w.start, t + SECOND);
        BetweenSplit(log, w.start, t + SECOND, end);
      } else {
        BetweenSplit(log, t, end, t + SECOND);
        BetweenNone(log, end, t + SECOND);
        BetweenSplit(log, w.start, t, end);
      }
    }
  }

  lemma RecordKeeps(w: Window, log: seq<Sent>, budget: nat, now: nat, len: nat)
    requires WindowInv(Some(w), log, budget, now) && now < w.start + SECOND && w.bytes + len <= budget
    ensures WindowInv(Some(w.(bytes := w.bytes + len)), log + [Sent(now, len)], budget, now)
  {
    RecordAccounts(w, log, budget, now, len);
    forall t: int ensures Doubled(log + [Sent(now, len)], budget, t) {
      RecordDoubles(w, log, budget, now, len, t);
    }
  }

  lemma WindowSum(w: Option<Window>, log: seq<Sent>, budget: nat, clock: nat, now: nat)
    requires WindowInv(w, log, budget, clock) && clock <= now
    ensures w.Some? && now < w.value.start + SECOND ==> w.value.bytes == Between(log, w.value.start, now + 1)
  {
    if w.Some? && now < w.value.start + SECOND {
      BetweenSplit(log, w.value.start, now + 1, w.value.start + SECOND);
      BetweenNone(log, now + 1, w.value.start + SECOND);
    }
  }

  // ----- one link's window in a pick

  ghost predicate HasCapped(es: seq<Entry>, n: nat, link: nat)
    requires n <= |es|
  {
    exists i :: 0 <= i < n && es[i].link == link && es[i].cap.Some?
  }

  lemma {:induction false} RolledAt(rate: map<nat, Window>, es: seq<Entry>, now: nat, n: nat, link: nat)
    requires n <= |es|
    ensures WindowOf(RolledRates(rate, es, now, n), link)
            == if HasCapped(es, n, link) then Some(Rolled(WindowOf(rate, link), now)) else WindowOf(rate, link)
  {
    if n > 0 {
      RolledAt(rate, es, now, n - 1, link);
    }
  }

  lemma CompetingUnderCap(s: Sched, now: nat, len: nat, x: nat)
    requires !AllOverCap(s, now, len) && x in Competing(s, now, len)
    ensures UnderCap(s.entries[x], s.rate, now, len)
  {
  }
}
