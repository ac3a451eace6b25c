/** Counter-driven events of one (kind, link) key: increases of a counter are collected and
    reported at most once every two seconds, and none is lost. Times are milliseconds. */
module Counters {
  import opened Bytes
  import opened Common

  const THROTTLE: nat := 2000

  /** What is remembered of one counter. */
  datatype Counter = Counter(prev: nat, pending: nat, lastEmit: Option<nat>)

  const IDLE: Counter := Counter(0, 0, None)

  /** One observation: the counter's reading, if it was part of it. */
  datatype Input = Input(now: nat, reading: Option<nat>)

  /** A flush reports the pending amount, or discards it when it is below the minimum. */
  datatype Flush = Held | Reported(count: nat) | Discarded(count: nat)

  function Collected(c: Counter, reading: Option<nat>, seeded: bool): Counter {
    if reading.None? then c
    else
      var more := if seeded && reading.value > c.prev then reading.value - c.prev else 0;
      c.(prev := reading.value, pending := c.pending + more)
  }

  predicate IsDue(c: Counter, now: nat) {
    c.pending > 0 && (c.lastEmit.None? || Since(now, c.lastEmit.value) >= THROTTLE)
  }

  function FlushOf(c: Counter, now: nat, minimum: nat): Flush {
    if !IsDue(c, now) then Held
    else if c.pending < minimum then Discarded(c.pending)
    else Reported(c.pending)
  }

  function Flushed(c: Counter, now: nat): Counter {
    if IsDue(c, now) then c.(pending := 0, lastEmit := Some(now)) else c
  }

  function Step(c: Counter, x: Input, seeded: bool): Counter {
    Flushed(Collected(c, x.reading, seeded), x.now)
  }

  function StepFlush(c: Counter, x: Input, seeded: bool, minimum: nat): Flush {
    FlushOf(Collected(c, x.reading, seeded), x.now, minimum)
  }

  // ----- runs

  /** The first observation only records the baseline. */
  ghost function RunTo(xs: seq<Input>, k: nat): Counter
    requires k <= |xs|
  {
    if k == 0 then IDLE else Step(RunTo(xs, k - 1), xs[k - 1], k > 1)
  }

  ghost function FlushAt(xs: seq<Input>, k: nat, minimum: nat): Flush
    requires k < |xs|
  {
    StepFlush(RunTo(xs, k), xs[k], k > 0, minimum)
  }

  /** The latest reading among the first `k` observations, zero when there is none. */
  ghost function LastReading(xs: seq<Input>, k: nat): nat
    requires k <= |xs|
  {
    if k == 0 then 0
    else if xs[k - 1].reading.Some? then xs[k - 1].reading.value
    else LastReading(xs, k - 1)
  }

  /** The total of all positive increases after the baseline. */
  ghost function Increases(xs: seq<Input>, k: nat): nat
    requires k <= |xs|
  {
    if k <= 1 then 0
    else
      var before, r := LastReading(xs, k - 1), xs[k - 1].reading;
      Increases(xs, k - 1) + if r.Some? && r.value > before then r.value - before else 0
  }

  ghost function TotalReported(xs: seq<Input>, k: nat, minimum: nat): nat
    requires k <= |xs|
  {
    if k == 0 then 0
    else
      var f := FlushAt(xs, k - 1, minimum);
      TotalReported(xs, k - 1, minimum) + if f.Reported? then f.count else 0
  }

  ghost function TotalDiscarded(xs: seq<Input>, k: nat, minimum: nat): nat
    requires k <= |xs|
  {
    if k == 0 then 0
    else
      var f := FlushAt(xs, k - 1, minimum);
      TotalDiscarded(xs, k - 1, minimum) + if f.Discarded? then f.count else 0
  }

  lemma {:induction false} PrevIsLast(xs: seq<Input>, k: nat)
    requires k <= |xs|
    ensures RunTo(xs, k).prev == LastReading(xs, k)
  {
    if k > 0 {
      PrevIsLast(xs, k - 1);
    }
  }

  /** Conservation: what was reported, what was discarded and what is pending add up to all
      increases since the baseline. */
  lemma {:induction false} Conservation(xs: seq<Input>, k: nat, minimum: nat)
    requires k <= |xs|
    ensures TotalReported(xs, k, minimum) + TotalDiscarded(xs, k, minimum) + RunTo(xs, k).pending == Increases(xs, k)
  {
    if k > 0 {
      Conservation(xs, k - 1, minimum);
      PrevIsLast(xs, k - 1);
    }
  }

  ghost predicate Unread(xs: seq<Input>, k: nat) {
    k <= |xs| && forall i :: 0 <= i < k ==> xs[i].reading.None?
  }

  lemma {:induction false} NothingYet(xs: seq<Input>, k: nat)
    requires Unread(xs, k)
    ensures LastReading(xs, k) == 0 && Increases(xs, k) == 0 && RunTo(xs, k) == IDLE
  {
    if k > 0 {
      NothingYet(xs, k - 1);
    }
  }

  /** A counter's first reading is only its baseline if and only if it comes with the very
      first observation, or is zero: a link that appears later is counted from zero. */
  lemma FirstReading(xs: seq<Input>, k: nat, n: nat)
    requires k < |xs| && Unread(xs, k) && xs[k].reading == Some(n)
    ensures Increases(xs, k + 1) == (if k == 0 then 0 else n)
    ensures Collected(RunTo(xs, k), xs[k].reading, k > 0).pending == (if k == 0 then 0 else n)
    ensures Increases(xs, k + 1) == 0 <==> k == 0 || n == 0
  {
    NothingYet(xs, k);
  }

  /** Nothing is discarded without a minimum. */
  lemma {:induction false} NothingDiscarded(xs: seq<Input>, k: nat)
    requires k <= |xs|
    ensures TotalDiscarded(xs, k, 0) == 0
  {
    if k > 0 {
      NothingDiscarded(xs, k - 1);
    }
  }

  ghost predicate EmittedBy(c: Counter, t: nat) {
    c.lastEmit.Some? && c.lastEmit.value >= t
  }

  lemma {:induction false} EmitRemembered(xs: seq<Input>, i: nat, k: nat, minimum: nat)
    requires i < k <= |xs| && !FlushAt(xs, i, minimum).Held?
    ensures EmittedBy(RunTo(xs, k), xs[i].now)
    decreases k
  {
    if k > i + 1 {
      EmitRemembered(xs, i, k - 1, minimum);
    }
  }

  /** Two events of one key are at least two seconds apart, even when the clock steps back. */
  lemma EventsAreSpaced(xs: seq<Input>, i: nat, j: nat, minimum: nat)
    requires i < j < |xs| && !FlushAt(xs, i, minimum).Held? && !FlushAt(xs, j, minimum).Held?
    ensures xs[j].now >= xs[i].now + 2000
  {
    EmitRemembered(xs, i, j, minimum);
  }

  /** What is still pending after an observation waits for a throttle that has not run out. */
  lemma PendingIsRecent(xs: seq<Input>, k: nat)
    requires 0 < k <= |xs| && RunTo(xs, k).pending > 0
    ensures var last := RunTo(xs, k).lastEmit; last.Some? && Since(xs[k - 1].now, last.value) < 2000
  {
  }

  // ----- exactly what is said

  /** The last observation before `k` that said or discarded something. */
  ghost function LastFlush(xs: seq<Input>, k: nat, minimum: nat): (r: Option<nat>)
    requires k <= |xs|
    ensures r.Some? ==> r.value < k
  {
    if k == 0 then None else if !FlushAt(xs, k - 1, minimum).Held? then Some(k - 1) else LastFlush(xs, k - 1, minimum)
  }

  lemma {:induction false} LastEmitIs(xs: seq<Input>, k: nat, minimum: nat)
    requires k <= |xs|
    ensures RunTo(xs, k).lastEmit == var j := LastFlush(xs, k, minimum); if j.Some? then Some(xs[j.value].now) else None
  {
    if k > 0 {
      LastEmitIs(xs, k - 1, minimum);
    }
  }

  /** Whatever `n` increases are neither reported nor discarded yet: nothing is said of none, or
      within two seconds of the last flush; otherwise fewer than the minimum are discarded and
      at least the minimum are reported, all of them. */
  lemma FlushIs(xs: seq<Input>, k: nat, minimum: nat, n: nat, last: Option<nat>)
    requires k < |xs| && Increases(xs, k + 1) == TotalReported(xs, k, minimum) + TotalDiscarded(xs, k, minimum) + n
    requires last == LastFlush(xs, k, minimum)
    ensures FlushAt(xs, k, minimum) == if n == 0 || (last.Some? && xs[k].now < xs[last.value].now + 2000) then Held
                                       else if n < minimum then Discarded(n)
                                       else Reported(n)
  {
    Conservation(xs, k, minimum);
    PrevIsLast(xs, k);
    LastEmitIs(xs, k, minimum);
  }
}
