/** Sending a batch of datagrams with one system call for many: whatever the kernel accepts
    or rejects, every datagram gets exactly one outcome, and exactly those with a good
    outcome are on the wire, once each and in order. */
module BatchSend {
  import opened Bytes
  import opened Common
  import opened Gso

  const SENDMMSG_MAX: nat := 64

  /** The kernel takes the first `count` messages, or rejects the first one. */
  datatype Answer = Accept(count: nat) | Reject(error: nat)

  /** What the kernel answers to call number `call` when it is offered `messages` messages,
      the first of which is coalesced or not. */
  type Kernel = (nat, nat, bool) -> Answer

  /** A call that takes anything takes at least one message and at most those offered. */
  ghost predicate Honest(kernel: Kernel) {
    forall call, messages, coalesced :: messages > 0 && kernel(call, messages, coalesced).Accept? ==>
      1 <= kernel(call, messages, coalesced).count <= messages
  }

  datatype Outcome = Sent | Failed(error: nat)

  datatype Stats = Stats(calls: nat, partial: nat, gsoRuns: nat, gsoSegments: nat, gsoDisabled: bool)

  datatype Batch = Batch(out: seq<Outcome>, stats: Stats)

  const NO_STATS: Stats := Stats(0, 0, 0, 0, false)

  function Repeat(n: nat): (r: seq<Outcome>)
    ensures |r| == n && forall i :: 0 <= i < n ==> r[i] == Sent
  {
    seq(n, _ => Sent)
  }

  // ----- plain batches

  function CountCall(s: Stats, partial: bool): Stats {
    s.(calls := s.calls + 1, partial := s.partial + if partial then 1 else 0)
  }

  /** What becomes of `n` datagrams sent without coalescing, starting with call `call`. */
  function Plain(kernel: Kernel, call: nat, n: nat): Batch
    requires Honest(kernel)
    decreases n
  {
    if n == 0 then Batch([], NO_STATS)
    else
      var want := Min(n, SENDMMSG_MAX);
      match kernel(call, want, false)
      case Accept(k) =>
        var rest := Plain(kernel, call + 1, n - k);
        Batch(Repeat(k) + rest.out, CountCall(rest.stats, k < want))
      case Reject(e) =>
        var rest := Plain(kernel, call + 1, n - 1);
        Batch([Failed(e)] + rest.out, CountCall(rest.stats, false))
  }

  // ----- batches with segmentation offload

  /** The datagrams in the first `k` runs. */
  function Covered(runs: seq<Run>, k: nat): nat
    requires k <= |runs|
  {
    if k == 0 then 0 else Covered(runs, k - 1) + runs[k - 1].len
  }

  /** The first `k` runs that are coalesced, and the datagrams in them. */
  function Coalesced(runs: seq<Run>, k: nat): (nat, nat)
    requires k <= |runs|
  {
    if k == 0 then (0, 0)
    else
      var c, len := Coalesced(runs, k - 1), runs[k - 1].len;
      if len > 1 then (c.0 + 1, c.1 + len) else c
  }

  function Window(sizes: seq<nat>): seq<nat> {
    sizes[..Min(|sizes|, SENDMMSG_MAX)]
  }

  lemma {:induction false} CoveredWithin(sizes: seq<nat>, i: nat, runs: seq<Run>, k: nat)
    requires IsPlan(sizes, i, runs) && k <= |runs|
    ensures k <= Covered(runs, k) && i + Covered(runs, k) <= |sizes|
    ensures k == |runs| ==> i + Covered(runs, k) == |sizes|
    decreases |runs|
  {
    if k > 0 {
      CoveredWithin(sizes, i + runs[0].len, runs[1..], k - 1);
      CoveredFirst(runs, k);
    }
  }

  lemma {:induction false} CoveredFirst(runs: seq<Run>, k: nat)
    requires 0 < k <= |runs|
    ensures Covered(runs, k) == runs[0].len + Covered(runs[1..], k - 1)
  {
    if k > 1 {
      CoveredFirst(runs, k - 1);
    }
  }

  /** What the kernel's acceptance of the first `k` runs of a window comes to. */
  lemma WindowPlan(sizes: seq<nat>, k: nat)
    requires sizes != []
    ensures var runs := Plan(Window(sizes), 0);
            runs != [] && (1 <= k <= |runs| ==> 1 <= Covered(runs, k) <= |sizes|)
  {
    var runs := Plan(Window(sizes), 0);
    PlanIsPlan(Window(sizes), 0);
    if k <= |runs| {
      CoveredWithin(Window(sizes), 0, runs, k);
    }
  }

  function AddStats(a: Stats, runs: seq<Run>, k: nat): Stats
    requires k <= |runs|
  {
    var c := Coalesced(runs, k);
    CountCall(a.(gsoRuns := a.gsoRuns + c.0, gsoSegments := a.gsoSegments + c.1), k < |runs|)
  }

  /** What becomes of the datagrams with these sizes: coalesced until the kernel rejects a
      coalesced message, plain from there on. */
  function WithGso(kernel: Kernel, call: nat, sizes: seq<nat>): Batch
    requires Honest(kernel)
    decreases |sizes|
  {
    if sizes == [] then Batch([], NO_STATS)
    else
      var runs := Plan(Window(sizes), 0);
      WindowPlan(sizes, 0);
      var coalesced := runs[0].len > 1;
      match kernel(call, |runs|, coalesced)
      case Accept(k) =>
        WindowPlan(sizes, k);
        var rest := WithGso(kernel, call + 1, sizes[Covered(runs, k)..]);
        Batch(Repeat(Covered(runs, k)) + rest.out, AddStats(rest.stats, runs, k))
      case Reject(e) =>
        if coalesced then
          var rest := Plain(kernel, call + 1, |sizes|);
          Batch(rest.out, CountCall(rest.stats, false).(gsoDisabled := true))
        else
          var rest := WithGso(kernel, call + 1, sizes[1..]);
          Batch([Failed(e)] + rest.out, CountCall(rest.stats, false))
  }

  // ----- the calls a batch makes

  /** One call: the datagrams of the batch still to be settled when it is made, how many of
      them it offers and as how many messages, whether the first message is coalesced, the
      answer, and the datagrams that were taken. */
  datatype Try = Try(left: nat, offered: nat, messages: nat, coalesced: bool, answer: Answer, taken: nat)

  /** How far a call gets. */
  ghost function Advance(t: Try): nat {
    if t.answer.Accept? then t.taken else if t.coalesced then 0 else 1
  }

  function PlainTry(kernel: Kernel, call: nat, n: nat): Try {
    var want := Min(n, SENDMMSG_MAX);
    var a := kernel(call, want, false);
    Try(n, want, want, false, a, if a.Accept? then a.count else 0)
  }

  function PlainTries(kernel: Kernel, call: nat, n: nat): seq<Try>
    requires Honest(kernel)
    decreases n
  {
    if n == 0 then []
    else
      var t := PlainTry(kernel, call, n);
      [t] + PlainTries(kernel, call + 1, if t.answer.Accept? then n - t.taken else n - 1)
  }

  function GsoTry(kernel: Kernel, call: nat, sizes: seq<nat>): (t: Try)
    requires Honest(kernel) && sizes != []
    ensures t.answer.Accept? ==> 1 <= t.taken <= |sizes|
  {
    var runs := Plan(Window(sizes), 0);
    WindowPlan(sizes, 0);
    var a := kernel(call, |runs|, runs[0].len > 1);
    if a.Accept? then
      WindowPlan(sizes, a.count);
      Try(|sizes|, |Window(sizes)|, |runs|, runs[0].len > 1, a, Covered(runs, a.count))
    else Try(|sizes|, |Window(sizes)|, |runs|, runs[0].len > 1, a, 0)
  }

  function GsoTries(kernel: Kernel, call: nat, sizes: seq<nat>): seq<Try>
    requires Honest(kernel)
    decreases |sizes|
  {
    if sizes == [] then []
    else
      var t := GsoTry(kernel, call, sizes);
      [t] + (if t.answer.Accept? then GsoTries(kernel, call + 1, sizes[t.taken..])
             else if t.coalesced then PlainTries(kernel, call + 1, |sizes|)
             else GsoTries(kernel, call + 1, sizes[1..]))
  }

  /** Try `c` is call `call + c`, with the kernel's own answer. */
  ghost predicate AnsweredAt(kernel: Kernel, call: nat, tries: seq<Try>, c: nat) {
    c < |tries| && tries[c].answer == kernel(call + c, tries[c].messages, tries[c].coalesced)
  }

  ghost predicate Answered(kernel: Kernel, call: nat, tries: seq<Try>) {
    forall c: nat :: c < |tries| ==> AnsweredAt(kernel, call, tries, c)
  }

  lemma AnsweredFirst(kernel: Kernel, call: nat, t: Try, rest: seq<Try>)
    requires t.answer == kernel(call, t.messages, t.coalesced) && Answered(kernel, call + 1, rest)
    ensures Answered(kernel, call, [t] + rest)
  {
    forall c: nat | c < |rest| + 1 ensures AnsweredAt(kernel, call, [t] + rest, c) {
      if c > 0 {
        assert AnsweredAt(kernel, call + 1, rest, c - 1);
      }
    }
  }

  // ----- one outcome per datagram, and at most one call more than datagrams

  lemma {:induction false} PlainCounts(kernel: Kernel, call: nat, n: nat)
    requires Honest(kernel)
    ensures |Plain(kernel, call, n).out| == n
    ensures Plain(kernel, call, n).stats.partial <= Plain(kernel, call, n).stats.calls <= n
    ensures Plain(kernel, call, n).stats.calls == |PlainTries(kernel, call, n)|
    decreases n
  {
    if n > 0 {
      match kernel(call, Min(n, SENDMMSG_MAX), false)
      case Accept(k) => PlainCounts(kernel, call + 1, n - k);
      case Reject(_) => PlainCounts(kernel, call + 1, n - 1);
    }
  }

  lemma {:induction false} GsoCounts(kernel: Kernel, call: nat, sizes: seq<nat>)
    requires Honest(kernel)
    ensures |WithGso(kernel, call, sizes).out| == |sizes|
    ensures var s := WithGso(kernel, call, sizes).stats;
            s.partial <= s.calls == |GsoTries(kernel, call, sizes)| && s.calls <= |sizes| + if s.gsoDisabled then 1 else 0
    decreases |sizes|
  {
    if sizes != [] {
      var runs := Plan(Window(sizes), 0);
      WindowPlan(sizes, 0);
      match kernel(call, |runs|, runs[0].len > 1)
      case Accept(k) =>
        WindowPlan(sizes, k);
        GsoCounts(kernel, call + 1, sizes[Covered(runs, k)..]);
      case Reject(_) =>
        PlainCounts(kernel, call + 1, |sizes|);
        GsoCounts(kernel, call + 1, sizes[1..]);
    }
  }

  /** The extra call is made: two datagrams, their coalesced message rejected, then two plain
      calls that take one each. */
  lemma ThreeCallsForTwo(kernel: Kernel, sizes: seq<nat>)
    requires Honest(kernel) && sizes == [5, 5]
    requires forall c, m :: kernel(c, m, true) == Reject(0) && kernel(c, m, false) == Accept(1)
    ensures WithGso(kernel, 0, sizes).stats.calls == 3
  {
    PairPlan(sizes);
    assert Plain(kernel, 1, 2).stats.calls == 1 + Plain(kernel, 2, 1).stats.calls;
    assert Plain(kernel, 2, 1).stats.calls == 1 + Plain(kernel, 3, 0).stats.calls;
  }

  lemma PairPlan(sizes: seq<nat>)
    requires sizes == [5, 5]
    ensures var runs := Plan(Window(sizes), 0); runs != [] && runs[0].len > 1
  {
    assert Window(sizes) == sizes;
    assert Longest(sizes, 0) == Extended(sizes, 0, 1) >= 2;
  }

  // ----- every outcome belongs to exactly one call

  /** Replaying the answers accounts for the outcomes: an acceptance settles the datagrams
      taken, an uncoalesced rejection the one offered first, a coalesced one nothing. */
  ghost predicate Accounts(tries: seq<Try>, n: nat, out: seq<Outcome>)
    decreases |tries|
  {
    if tries == [] then n == 0 && out == []
    else
      var t := tries[0];
      && t.left == n == |out| && 1 <= t.offered <= n
      && match t.answer
         case Accept(_) =>
           1 <= t.taken <= n && out[..t.taken] == Repeat(t.taken) && Accounts(tries[1..], n - t.taken, out[t.taken..])
         case Reject(e) =>
           if t.coalesced then Accounts(tries[1..], n, out)
           else n >= 1 && out[0] == Failed(e) && Accounts(tries[1..], n - 1, out[1..])
  }

  lemma AccountsFirst(t: Try, rest: seq<Try>, n: nat, out: seq<Outcome>, more: seq<Outcome>)
    requires t.left == n && 1 <= t.offered <= n
    requires t.answer.Accept? ==> 1 <= t.taken <= n && out == Repeat(t.taken) + more && Accounts(rest, n - t.taken, more)
    requires t.answer.Reject? && t.coalesced ==> out == more && Accounts(rest, n, more) && |more| == n
    requires t.answer.Reject? && !t.coalesced ==> out == [Failed(t.answer.error)] + more && Accounts(rest, n - 1, more)
    ensures Accounts([t] + rest, n, out)
  {
    assert ([t] + rest)[1..] == rest;
    AccountsLength(rest, |more|, more);
    if t.answer.Accept? {
      assert out[t.taken..] == more && out[..t.taken] == Repeat(t.taken);
    } else if !t.coalesced {
      assert out[1..] == more;
    }
  }

  lemma AccountsLength(tries: seq<Try>, n: nat, out: seq<Outcome>)
    ensures Accounts(tries, n, out) ==> |out| == n
  {
  }

  lemma PlainNext(kernel: Kernel, call: nat, n: nat, t: Try, m: nat)
    requires Honest(kernel) && n > 0 && t == PlainTry(kernel, call, n) && m == n - Advance(t)
    ensures PlainTries(kernel, call, n) == [t] + PlainTries(kernel, call + 1, m)
    ensures Plain(kernel, call, n).out
            == (if t.answer.Accept? then Repeat(t.taken) else [Failed(t.answer.error)]) + Plain(kernel, call + 1, m).out
  {
  }

  lemma {:induction false} PlainAccounts(kernel: Kernel, call: nat, n: nat)
    requires Honest(kernel)
    ensures Accounts(PlainTries(kernel, call, n), n, Plain(kernel, call, n).out)
    ensures Answered(kernel, call, PlainTries(kernel, call, n))
    decreases n
  {
    if n > 0 {
      var t := PlainTry(kernel, call, n);
      var m := n - Advance(t);
      PlainAccounts(kernel, call + 1, m);
      PlainNext(kernel, call, n, t, m);
      var rest, more := PlainTries(kernel, call + 1, m), Plain(kernel, call + 1, m).out;
      AccountsFirst(t, rest, n, Plain(kernel, call, n).out, more);
      AnsweredFirst(kernel, call, t, rest);
    }
  }

  lemma FallsBackAccounts(kernel: Kernel, call: nat, sizes: seq<nat>, t: Try)
    requires Honest(kernel) && sizes != [] && t == GsoTry(kernel, call, sizes) && t.answer.Reject? && t.coalesced
    ensures Accounts(GsoTries(kernel, call, sizes), |sizes|, WithGso(kernel, call, sizes).out)
    ensures Answered(kernel, call, GsoTries(kernel, call, sizes))
  {
    var rest := PlainTries(kernel, call + 1, |sizes|);
    PlainAccounts(kernel, call + 1, |sizes|);
    PlainCounts(kernel, call + 1, |sizes|);
    AccountsFirst(t, rest, |sizes|, WithGso(kernel, call, sizes).out, Plain(kernel, call + 1, |sizes|).out);
    AnsweredFirst(kernel, call, t, rest);
  }

  lemma GoesOnAccounts(kernel: Kernel, call: nat, sizes: seq<nat>, t: Try, next: seq<nat>)
    requires Honest(kernel) && sizes != [] && t == GsoTry(kernel, call, sizes) && !(t.answer.Reject? && t.coalesced)
    requires next == sizes[if t.answer.Accept? then t.taken else 1..]
    requires Accounts(GsoTries(kernel, call + 1, next), |next|, WithGso(kernel, call + 1, next).out)
    requires Answered(kernel, call + 1, GsoTries(kernel, call + 1, next))
    ensures Accounts(GsoTries(kernel, call, sizes), |sizes|, WithGso(kernel, call, sizes).out)
    ensures Answered(kernel, call, GsoTries(kernel, call, sizes))
  {
    var rest := GsoTries(kernel, call + 1, next);
    GsoCounts(kernel, call + 1, next);
    AccountsFirst(t, rest, |sizes|, WithGso(kernel, call, sizes).out, WithGso(kernel, call + 1, next).out);
    AnsweredFirst(kernel, call, t, rest);
  }

  lemma {:induction false} GsoAccounts(kernel: Kernel, call: nat, sizes: seq<nat>)
    requires Honest(kernel)
    ensures Accounts(GsoTries(kernel, call, sizes), |sizes|, WithGso(kernel, call, sizes).out)
    ensures Answered(kernel, call, GsoTries(kernel, call, sizes))
    decreases |sizes|
  {
    if sizes != [] {
      var t := GsoTry(kernel, call, sizes);
      if t.answer.Reject? && t.coalesced {
        FallsBackAccounts(kernel, call, sizes, t);
      } else {
        var next := sizes[if t.answer.Accept? then t.taken else 1..];
        GsoAccounts(kernel, call + 1, next);
        GoesOnAccounts(kernel, call, sizes, t, next);
      }
    }
  }

  /** Call `t` settles the datagram that `left` datagrams of the batch are left from: it took
      it, or it offered it first, by itself, and was rejected. */
  ghost predicate Settles(t: Try, left: nat, o: Outcome) {
    if o.Sent? then t.answer.Accept? && t.left - t.taken < left <= t.left
    else t.left == left && !t.coalesced && t.answer == Reject(o.error)
  }

  lemma {:induction false} LeftFalls(tries: seq<Try>, n: nat, out: seq<Outcome>, c: nat)
    requires Accounts(tries, n, out) && c < |tries|
    ensures tries[c].left <= n && (c > 0 ==> tries[c].left + Advance(tries[0]) <= n)
    decreases |tries|
  {
    if c > 0 {
      var t := tries[0];
      LeftFalls(tries[1..], n - Advance(t), if t.answer.Accept? then out[t.taken..] else if t.coalesced then out
          else out[1..], c - 1);
    }
  }

  /** A call settles only datagrams between where it starts and where the next one does. */
  lemma SettlesWithin(tries: seq<Try>, n: nat, out: seq<Outcome>, d: nat, left: nat, o: Outcome)
    requires Accounts(tries, n, out) && d < |tries| && Settles(tries[d], left, o)
    ensures d == 0 ==> n - Advance(tries[0]) < left <= n
    ensures d > 0 ==> left + Advance(tries[0]) <= n
  {
    LeftFalls(tries, n, out, d);
  }

  ghost predicate SettledBy(tries: seq<Try>, c: nat, left: nat, o: Outcome) {
    c < |tries| && Settles(tries[c], left, o)
  }

  /** Exactly one call settles each datagram, with the outcome reported for it. */
  ghost predicate SettledOnce(tries: seq<Try>, left: nat, o: Outcome, c: nat) {
    && SettledBy(tries, c, left, o)
    && forall d: nat, o': Outcome :: SettledBy(tries, d, left, o') ==> d == c && o' == o
  }

  lemma SettledOnceLater(tries: seq<Try>, n: nat, out: seq<Outcome>, left: nat, o: Outcome, c: nat)
    requires Accounts(tries, n, out) && tries != [] && left + Advance(tries[0]) <= n
        && SettledOnce(tries[1..], left, o, c)
    ensures SettledOnce(tries, left, o, c + 1)
  {
    assert SettledBy(tries[1..], c, left, o);
    forall d: nat, o': Outcome | SettledBy(tries, d, left, o') ensures d == c + 1 && o' == o {
      SettlesWithin(tries, n, out, d, left, o');
      assert SettledBy(tries[1..], d - 1, left, o');
    }
  }

  lemma SettledAtOnce(tries: seq<Try>, n: nat, out: seq<Outcome>, i: nat)
    requires Accounts(tries, n, out) && i < n && i < Advance(tries[0])
    ensures SettledOnce(tries, n - i, out[i], 0)
  {
    var t := tries[0];
    if t.answer.Accept? {
      assert out[i] == out[..t.taken][i];
    }
    var left := n - i;
    assert SettledBy(tries, 0, left, out[i]);
    forall d: nat, o': Outcome | SettledBy(tries, d, left, o') ensures d == 0 && o' == out[i] {
      SettlesWithin(tries, n, out, d, left, o');
    }
  }

  lemma {:induction false} EachSettledOnce(tries: seq<Try>, n: nat, out: seq<Outcome>, i: nat) returns (c: nat)
    requires Accounts(tries, n, out) && i < n
    ensures |out| == n && SettledOnce(tries, n - i, out[i], c)
    decreases |tries|
  {
    var t := tries[0];
    var k := Advance(t);
    if i < k {
      c := 0;
      SettledAtOnce(tries, n, out, i);
    } else {
      var out' := if t.answer.Accept? then out[t.taken..] else if t.coalesced then out else out[1..];
      c := EachSettledOnce(tries[1..], n - k, out', i - k);
      SettledOnceLater(tries, n, out, n - i, out[i], c);
      c := c + 1;
    }
  }

  lemma OneCall(kernel: Kernel, call: nat, tries: seq<Try>, n: nat, out: seq<Outcome>, i: nat) returns (c: nat)
    requires Accounts(tries, n, out) && Answered(kernel, call, tries) && i < n
    ensures |out| == n && AnsweredAt(kernel, call, tries, c) && SettledOnce(tries, n - i, out[i], c)
  {
    c := EachSettledOnce(tries, n, out, i);
    SettledInRange(tries, n - i, out[i], c);
  }

  lemma GsoSummary(kernel: Kernel, call: nat, sizes: seq<nat>, b: Batch, tries: seq<Try>)
    requires Honest(kernel) && b == WithGso(kernel, call, sizes) && tries == GsoTries(kernel, call, sizes)
    ensures |b.out| == |sizes| && b.stats.calls == |tries| && Accounts(tries, |sizes|, b.out)
        && Answered(kernel, call, tries)
  {
    GsoCounts(kernel, call, sizes);
    GsoAccounts(kernel, call, sizes);
  }

  /** A datagram's outcome is the answer to one call the batch made, and to no other: the call
      that took it, or one that offered it first, not coalesced, and was rejected. */
  lemma OutcomeHasItsCall(kernel: Kernel, call: nat, sizes: seq<nat>, b: Batch, tries: seq<Try>,
                          i: nat) returns (c: nat)
    requires Honest(kernel) && i < |sizes| && b == WithGso(kernel, call, sizes) && tries == GsoTries(kernel, call, sizes)
    ensures |b.out| == |sizes| && b.stats.calls == |tries|
    ensures AnsweredAt(kernel, call, tries, c) && SettledOnce(tries, |sizes| - i, b.out[i], c)
  {
    GsoSummary(kernel, call, sizes, b, tries);
    c := OneCall(kernel, call, tries, |sizes|, b.out, i);
  }

  lemma SettledInRange(tries: seq<Try>, left: nat, o: Outcome, c: nat)
    requires SettledOnce(tries, left, o, c)
    ensures c < |tries| && Settles(tries[c], left, o)
  {
    assert SettledBy(tries, c, left, o);
  }

  // ----- after a coalesced rejection

  ghost predicate NoneCoalesced(tries: seq<Try>) {
    forall c :: 0 <= c < |tries| ==> !tries[c].coalesced
  }

  /** Nothing is coalesced any more once a coalesced message was rejected. */
  ghost predicate GivesUpGso(tries: seq<Try>) {
    forall c, d :: 0 <= c < d < |tries| && tries[c].coalesced && tries[c].answer.Reject? ==> !tries[d].coalesced
  }

  lemma {:induction false} PlainIsUncoalesced(kernel: Kernel, call: nat, n: nat)
    requires Honest(kernel)
    ensures NoneCoalesced(PlainTries(kernel, call, n))
    decreases n
  {
    if n > 0 {
      var t := PlainTry(kernel, call, n);
      PlainIsUncoalesced(kernel, call + 1, if t.answer.Accept? then n - t.taken else n - 1);
    }
  }

  lemma {:induction false} GsoGivesUp(kernel: Kernel, call: nat, sizes: seq<nat>)
    requires Honest(kernel)
    ensures GivesUpGso(GsoTries(kernel, call, sizes))
    decreases |sizes|
  {
    if sizes != [] {
      var t := GsoTry(kernel, call, sizes);
      if t.answer.Reject? && t.coalesced {
        PlainIsUncoalesced(kernel, call + 1, |sizes|);
      } else {
        GsoGivesUp(kernel, call + 1, sizes[if t.answer.Accept? then t.taken else 1..]);
      }
    }
  }

  /** Calls made before `c` settle only datagrams in front of what `c` starts with. */
  lemma {:induction false} SettledBefore(tries: seq<Try>, n: nat, out: seq<Outcome>, c: nat, d: nat, left: nat,
                                         o: Outcome)
    requires Accounts(tries, n, out) && d < c < |tries| && Settles(tries[d], left, o)
    ensures left > tries[c].left
    decreases |tries|
  {
    var t := tries[0];
    LeftFalls(tries, n, out, c);
    if d == 0 {
      SettlesWithin(tries, n, out, 0, left, o);
    } else {
      var out' := if t.answer.Accept? then out[t.taken..] else if t.coalesced then out else out[1..];
      SettledBefore(tries[1..], n - Advance(t), out', c - 1, d - 1, left, o);
    }
  }

  lemma SettledAfter(tries: seq<Try>, n: nat, out: seq<Outcome>, c: nat, d: nat, left: nat, o: Outcome)
    requires Accounts(tries, n, out) && c < |tries| && tries[c].coalesced && tries[c].answer.Reject?
        && left <= tries[c].left
    requires d < |tries| && Settles(tries[d], left, o)
    ensures c < d
  {
    if d < c {
      SettledBefore(tries, n, out, c, d, left, o);
    }
  }

  lemma LaterPlainTry(tries: seq<Try>, n: nat, out: seq<Outcome>, c: nat, i: nat) returns (d: nat)
    requires Accounts(tries, n, out) && GivesUpGso(tries) && i < n
    requires c < |tries| && tries[c].coalesced && tries[c].answer.Reject? && n - i <= tries[c].left
    ensures |out| == n && c < d < |tries| && !tries[d].coalesced && SettledOnce(tries, n - i, out[i], d)
  {
    d := EachSettledOnce(tries, n, out, i);
    SettledInRange(tries, n - i, out[i], d);
    SettledAfter(tries, n, out, c, d, n - i, out[i]);
  }

  /** A rejected coalesced message leaves every datagram not yet settled to a later, uncoalesced
      call, which settles it. */
  lemma RejectionLeavesPlainTries(kernel: Kernel, call: nat, sizes: seq<nat>, out: seq<Outcome>, tries: seq<Try>,
                                  c: nat, i: nat)
    returns (d: nat)
    requires Honest(kernel) && out == WithGso(kernel, call, sizes).out && tries == GsoTries(kernel, call, sizes)
    requires c < |tries| && tries[c].coalesced && tries[c].answer.Reject? && i < |sizes| && |sizes| - i <= tries[c].left
    ensures |out| == |sizes| && c < d < |tries| && !tries[d].coalesced && SettledOnce(tries, |sizes| - i, out[i], d)
  {
    GsoAccounts(kernel, call, sizes);
    GsoGivesUp(kernel, call, sizes);
    d := LaterPlainTry(tries, |sizes|, out, c, i);
  }

  /** If the kernel never rejects an uncoalesced message, every datagram is sent, whichever
      coalesced messages it rejects: offload failing never costs a packet. */
  lemma OffloadCostsNothing(kernel: Kernel, call: nat, sizes: seq<nat>, b: Batch, i: nat)
    requires Honest(kernel) && (forall c, m :: kernel(c, m, false).Accept?) && i < |sizes|
        && b == WithGso(kernel, call, sizes)
    ensures |b.out| == |sizes| && b.out[i] == Sent
  {
    var tries := GsoTries(kernel, call, sizes);
    var c := OutcomeHasItsCall(kernel, call, sizes, b, tries, i);
    assert AnsweredAt(kernel, call, tries, c);
    SettledInRange(tries, |sizes| - i, b.out[i], c);
  }

  // ----- attempts that would block

  /** The system calls issued for the calls numbered below `calls`, when call `c` finds the
      socket not writable `waits(c)` times before the kernel answers. */
  function Issued(waits: nat -> nat, calls: nat): nat {
    if calls == 0 then 0 else Issued(waits, calls - 1) + 1 + waits(calls - 1)
  }

  ghost predicate NeverWaits(waits: nat -> nat, from: nat, to: nat) {
    forall c: nat :: from <= c < to ==> waits(c) == 0
  }

  /** Counting calls counts the attempts if and only if none of them had to wait; otherwise
      it counts too few. */
  lemma {:induction false} CallsAreAttempts(waits: nat -> nat, from: nat, calls: nat)
    ensures Issued(waits, from + calls) - Issued(waits, from) >= calls
    ensures Issued(waits, from + calls) - Issued(waits, from) == calls <==> NeverWaits(waits, from, from + calls)
  {
    if calls > 0 {
      CallsAreAttempts(waits, from, calls - 1);
      assert NeverWaits(waits, from, from + calls) <==> NeverWaits(waits, from, from + calls - 1) && waits(from + calls - 1) == 0;
    }
  }

  // ----- what the statistics mean

  function SentCount(out: seq<Outcome>): nat {
    if out == [] then 0 else SentCount(out[1..]) + if out[0].Sent? then 1 else 0
  }

  lemma {:induction false} SentAppend(n: nat, out: seq<Outcome>)
    ensures SentCount(Repeat(n) + out) == n + SentCount(out)
  {
    if n > 0 {
      SentAppend(n - 1, out);
      assert (Repeat(n) + out)[1..] == Repeat(n - 1) + out;
    } else {
      assert Repeat(0) + out == out;
    }
  }

  lemma {:induction false} CoalescedWithin(runs: seq<Run>, k: nat)
    requires k <= |runs|
    ensures 2 * Coalesced(runs, k).0 <= Coalesced(runs, k).1 <= Covered(runs, k)
  {
    if k > 0 {
      CoalescedWithin(runs, k - 1);
    }
  }

  lemma FailedFirst(e: nat, out: seq<Outcome>)
    ensures SentCount([Failed(e)] + out) == SentCount(out)
  {
    assert ([Failed(e)] + out)[1..] == out;
  }

  lemma {:induction false} PlainNoGso(kernel: Kernel, call: nat, n: nat)
    requires Honest(kernel)
    ensures var s := Plain(kernel, call, n).stats; s.gsoRuns == 0 && s.gsoSegments == 0 && !s.gsoDisabled
    decreases n
  {
    if n > 0 {
      match kernel(call, Min(n, SENDMMSG_MAX), false)
      case Accept(k) => PlainNoGso(kernel, call + 1, n - k);
      case Reject(_) => PlainNoGso(kernel, call + 1, n - 1);
    }
  }

  /** Coalesced runs hold at least two datagrams each, and only datagrams that were sent. */
  lemma {:induction false} StatsAreSent(kernel: Kernel, call: nat, sizes: seq<nat>)
    requires Honest(kernel)
    ensures var b := WithGso(kernel, call, sizes); 2 * b.stats.gsoRuns <= b.stats.gsoSegments <= SentCount(b.out)
    decreases |sizes|
  {
    if sizes != [] {
      var runs := Plan(Window(sizes), 0);
      WindowPlan(sizes, 0);
      match kernel(call, |runs|, runs[0].len > 1)
      case Accept(k) =>
        WindowPlan(sizes, k);
        CoalescedWithin(runs, k);
        StatsAreSent(kernel, call + 1, sizes[Covered(runs, k)..]);
        SentAppend(Covered(runs, k), WithGso(kernel, call + 1, sizes[Covered(runs, k)..]).out);
      case Reject(e) =>
        PlainNoGso(kernel, call + 1, |sizes|);
        StatsAreSent(kernel, call + 1, sizes[1..]);
        FailedFirst(e, WithGso(kernel, call + 1, sizes[1..]).out);
    }
  }
}
