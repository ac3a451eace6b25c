/** The send loops on a socket. The kernel is an arbitrary function of the call number and
    of what is offered; what it accepts appears on the wire in the order offered. */
module BatchSocket {
  import opened Bytes
  import opened Common
  import opened Gso
  import opened BatchSend

  /** The datagrams whose outcome is good, in order. */
  ghost function OnWire(dgs: seq<bytes>, out: seq<Outcome>): seq<bytes>
    requires |dgs| == |out|
  {
    if dgs == [] then []
    else
      var n := |dgs| - 1;
      OnWire(dgs[..n], out[..n]) + if out[n].Sent? then [dgs[n]] else []
  }

  lemma WireFailed(dgs: seq<bytes>, out: seq<Outcome>, d: bytes, e: nat)
    requires |dgs| == |out|
    ensures OnWire(dgs + [d], out + [Failed(e)]) == OnWire(dgs, out)
  {
    assert (dgs + [d])[..|dgs|] == dgs && (out + [Failed(e)])[..|out|] == out;
  }

  lemma {:induction false} WireSent(dgs: seq<bytes>, out: seq<Outcome>, more: seq<bytes>)
    requires |dgs| == |out|
    ensures OnWire(dgs + more, out + Repeat(|more|)) == OnWire(dgs, out) + more
  {
    if more == [] {
      assert dgs + more == dgs && out + Repeat(0) == out;
    } else {
      var n := |more| - 1;
      WireSent(dgs, out, more[..n]);
      assert (dgs + more)[..|dgs| + n] == dgs + more[..n];
      assert (out + Repeat(|more|))[..|out| + n] == out + Repeat(n);
      assert more == more[..n] + [more[n]];
    }
  }

  lemma {:induction false} WireAppend(dgs: seq<bytes>, out: seq<Outcome>, dgs': seq<bytes>, out': seq<Outcome>)
    requires |dgs| == |out| && |dgs'| == |out'|
    ensures OnWire(dgs + dgs', out + out') == OnWire(dgs, out) + OnWire(dgs', out')
  {
    if dgs' == [] {
      assert dgs + dgs' == dgs && out + out' == out;
    } else {
      var n := |dgs'| - 1;
      WireAppend(dgs, out, dgs'[..n], out'[..n]);
      assert (dgs + dgs')[..|dgs| + n] == dgs + dgs'[..n];
      assert (out + out')[..|out| + n] == out + out'[..n];
    }
  }

  function Sizes(dgs: seq<bytes>): (r: seq<nat>)
    ensures |r| == |dgs|
  {
    seq(|dgs|, i requires 0 <= i < |dgs| => |dgs[i]|)
  }

  lemma PrefixOfSlice(dgs: seq<bytes>, a: nat, b: nat, c: nat)
    requires a + c <= b <= |dgs|
    ensures dgs[a..b][..c] == dgs[a..a + c]
  {
  }

  lemma WindowSizes(dgs: seq<bytes>, start: nat, end: nat)
    requires start <= |dgs| && end == start + Min(|dgs| - start, SENDMMSG_MAX)
    ensures Sizes(dgs[start..end]) == Window(Sizes(dgs)[start..])
  {
  }

  /** The whole batch's result: what is done so far, followed by the rest's. */
  ghost function After(out: seq<Outcome>, stats: Stats, rest: Batch): Batch {
    Batch(out + rest.out,
          Stats(stats.calls + rest.stats.calls, stats.partial + rest.stats.partial, stats.gsoRuns + rest.stats.gsoRuns,
                stats.gsoSegments + rest.stats.gsoSegments, stats.gsoDisabled || rest.stats.gsoDisabled))
  }

  /** A call as the kernel sees it: the datagrams offered, whether the first message is
      coalesced, and the answer. */
  datatype Offer = Offer(datagrams: seq<bytes>, coalesced: bool, answer: Answer)

  /** The call a try stands for, in a batch of the datagrams `dgs`. */
  ghost function OfferOf(dgs: seq<bytes>, t: Try): Offer {
    Offer(if t.offered <= t.left <= |dgs| then dgs[|dgs| - t.left..|dgs| - t.left + t.offered]
        else [], t.coalesced, t.answer)
  }

  ghost function Offers(dgs: seq<bytes>, tries: seq<Try>): (r: seq<Offer>)
    ensures |r| == |tries|
  {
    seq(|tries|, c requires 0 <= c < |tries| => OfferOf(dgs, tries[c]))
  }

  lemma OffersFirst(dgs: seq<bytes>, t: Try, rest: seq<Try>, log: seq<Offer>)
    ensures log + Offers(dgs, [t] + rest) == log + [OfferOf(dgs, t)] + Offers(dgs, rest)
  {
    assert Offers(dgs, [t] + rest) == [OfferOf(dgs, t)] + Offers(dgs, rest);
  }

  class UdpSocket {
    const kernel: Kernel
    /** How often each call finds the socket not writable first. */
    const waits: nat -> nat
    var calls: nat
    var attempts: nat
    var wire: seq<bytes>
    /** Every call made so far. */
    ghost var log: seq<Offer>

    /** Every attempt belongs to a call. */
    ghost predicate Valid()
      reads this
    {
      attempts == Issued(waits, calls)
    }

    constructor (kernel: Kernel, waits: nat -> nat)
      ensures Valid() && this.kernel == kernel && this.waits == waits && calls == 0 && wire == [] && log == []
    {
      this.kernel, this.waits := kernel, waits;
      calls, attempts, wire, log := 0, 0, [], [];
    }

    /** Waits until the socket is writable and tries again, until the kernel answers. */
    method Attempt()
      requires Valid()
      modifies this`attempts
      ensures attempts == Issued(waits, calls + 1)
    {
      attempts := attempts + 1;
      var left := waits(calls);
      while left > 0
        invariant attempts + left == Issued(waits, calls) + 1 + waits(calls)
      {
        attempts := attempts + 1;
        left := left - 1;
      }
    }

    /** One call without coalescing. */
    method RawSendmmsg(dgs: seq<bytes>) returns (r: Answer)
      requires Valid() && Honest(kernel) && dgs != []
      modifies this
      ensures Valid()
      ensures r == kernel(old(calls), Min(|dgs|, SENDMMSG_MAX), false) && calls == old(calls) + 1
      ensures r.Accept? ==> 1 <= r.count <= Min(|dgs|, SENDMMSG_MAX) && wire == old(wire) + dgs[..r.count]
      ensures r.Reject? ==> wire == old(wire)
      ensures log == old(log) + [Offer(dgs[..Min(|dgs|, SENDMMSG_MAX)], false, r)]
    {
      Attempt();
      r := kernel(calls, Min(|dgs|, SENDMMSG_MAX), false);
      calls := calls + 1;
      log := log + [Offer(dgs[..Min(|dgs|, SENDMMSG_MAX)], false, r)];
      if r.Accept? {
        wire := wire + dgs[..r.count];
      }
    }

    /** One call that offers each run as one message. */
    method RawSendmmsgGso(window: seq<bytes>, runs: seq<Run>) returns (r: Answer)
      requires Valid() && Honest(kernel) && runs != [] && IsPlan(Sizes(window), 0, runs)
      modifies this
      ensures Valid()
      ensures r == kernel(old(calls), |runs|, runs[0].len > 1) && calls == old(calls) + 1
      ensures r.Accept? ==>
                && 1 <= r.count <= |runs| && 1 <= Covered(runs, r.count) <= |window|
                && wire == old(wire) + window[..Covered(runs, r.count)]
      ensures r.Reject? ==> wire == old(wire)
      ensures log == old(log) + [Offer(window, runs[0].len > 1, r)]
    {
      Attempt();
      r := kernel(calls, |runs|, runs[0].len > 1);
      calls := calls + 1;
      log := log + [Offer(window, runs[0].len > 1, r)];
      if r.Accept? {
        CoveredWithin(Sizes(window), 0, runs, r.count);
        wire := wire + window[..Covered(runs, r.count)];
      }
    }

    method SendmmsgAll(dgs: seq<bytes>) returns (out: seq<Outcome>, stats: Stats)
      requires Valid() && Honest(kernel)
      modifies this
      ensures Valid()
      ensures Batch(out, stats) == Plain(kernel, old(calls), |dgs|) && |out| == |dgs|
      ensures wire == old(wire) + OnWire(dgs, out) && calls == old(calls) + stats.calls
      ensures log == old(log) + Offers(dgs, PlainTries(kernel, old(calls), |dgs|))
    {
      out, stats := [], NO_STATS;
      var start := 0;
      ghost var p := Progress(kernel, dgs, calls, wire, log);
      PlainStart(p);
      while start < |dgs|
        invariant start <= |dgs| && Sending(p, start, out, stats, calls, wire) && PlainRest(p, start, out, stats, calls)
        invariant Valid() && PlainLog(p, start, calls, log)
      {
        ghost var from, call, past := start, calls, log;
        start, out, stats := SendSome(dgs, start, out, stats, p);
        PlainLogNext(p, from, start, call, calls, past, log, PlainTry(kernel, call, |dgs| - from));
      }
      PlainDone(p, out, stats, calls, wire);
    }

    method SendSome(dgs: seq<bytes>, from: nat, done: seq<Outcome>, before: Stats, ghost p: Progress)
      returns (start: nat, out: seq<Outcome>, stats: Stats)
      requires Valid() && Honest(kernel) && p.kernel == kernel && p.dgs == dgs && from < |dgs|
      requires Sending(p, from, done, before, calls, wire) && PlainRest(p, from, done, before, calls)
      modifies this
      ensures Valid()
      ensures from < start <= |dgs| && Sending(p, start, out, stats, calls, wire)
          && PlainRest(p, start, out, stats, calls)
      ensures var t := PlainTry(kernel, old(calls), |dgs| - from);
              log == old(log) + [OfferOf(dgs, t)] && start == from + Advance(t) && calls == old(calls) + 1
    {
      var want := Min(|dgs| - from, SENDMMSG_MAX);
      ghost var call, sent := calls, wire;
      var r := SendFrom(dgs, from);
      match r
      case Accept(k) =>
        stats := CountCall(before, k < want);
        SomeAccepted(p, from, done, before, call, calls, sent, wire, k, want, stats);
        start, out := from + k, done + Repeat(k);
      case Reject(e) =>
        Rejected(p, from, done, before, call, calls, sent, e);
        PlainRejects(p, from, done, before, call, calls, e);
        start, out, stats := from + 1, done + [Failed(e)], CountCall(before, false);
    }

    /** One plain call for the datagrams from `start` on. */
    method SendFrom(dgs: seq<bytes>, start: nat) returns (r: Answer)
      requires Valid() && Honest(kernel) && start < |dgs|
      modifies this
      ensures Valid()
      ensures r == kernel(old(calls), Min(|dgs| - start, SENDMMSG_MAX), false) && calls == old(calls) + 1
      ensures r.Accept? ==> 1 <= r.count <= |dgs| - start && wire == old(wire) + dgs[start..start + r.count]
      ensures r.Reject? ==> wire == old(wire)
      ensures log == old(log) + [OfferOf(dgs, PlainTry(kernel, old(calls), |dgs| - start))]
    {
      r := RawSendmmsg(dgs[start..]);
      PlainOffer(dgs, start);
      if r.Accept? {
        PrefixOfSlice(dgs, start, |dgs|, r.count);
      }
    }

    method SendmmsgGsoAll(dgs: seq<bytes>) returns (out: seq<Outcome>, stats: Stats)
      requires Valid() && Honest(kernel)
      modifies this
      ensures Valid()
      ensures Batch(out, stats) == WithGso(kernel, old(calls), Sizes(dgs)) && |out| == |dgs|
      ensures wire == old(wire) + OnWire(dgs, out) && calls == old(calls) + stats.calls
      ensures log == old(log) + Offers(dgs, GsoTries(kernel, old(calls), Sizes(dgs)))
    {
      out, stats := [], NO_STATS;
      var start := 0;
      ghost var p := Progress(kernel, dgs, calls, wire, log);
      GsoStart(p);
      while start < |dgs|
        invariant start <= |dgs| && Sending(p, start, out, stats, calls, wire) && GsoRest(p, start, out, stats, calls)
        invariant Valid() && GsoLog(p, start, calls, log)
      {
        var coalescedRejected;
        ghost var from, before, past, sent := start, calls, log, wire;
        ghost var t := GsoTry(kernel, calls, Sizes(dgs)[start..]);
        start, out, stats, coalescedRejected := SendRuns(dgs, start, out, stats, p);
        if coalescedRejected {
          GsoLogFallsBack(p, from, before, calls, past, log, t);
          ghost var call := calls;
          OffersBehind(p, start, PlainTries(kernel, calls, |dgs| - start));
          PlainTriesLeft(kernel, calls, |dgs| - start);
          var rest, s2 := SendmmsgAll(dgs[start..]);
          FellBack(p, start, out, stats, call, rest, s2);
          WireFellBack(p, start, out, sent, rest, wire);
          out := out + rest;
          stats := stats.(calls := stats.calls + 1 + s2.calls, partial := stats.partial + s2.partial, gsoDisabled := true);
          return;
        }
        GsoLogNext(p, from, start, before, calls, past, log, t);
      }
      GsoDone(p, out, stats, calls, wire);
    }

    /** Sends one window and books it, unless a coalesced message was rejected. */
    method SendRuns(dgs: seq<bytes>, from: nat, done: seq<Outcome>, before: Stats, ghost p: Progress)
      returns (start: nat, out: seq<Outcome>, stats: Stats, coalescedRejected: bool)
      requires Valid() && Honest(kernel) && p.kernel == kernel && p.dgs == dgs && from < |dgs|
      requires Sending(p, from, done, before, calls, wire) && GsoRest(p, from, done, before, calls)
      modifies this
      ensures Valid()
      ensures !coalescedRejected ==>
                from < start <= |dgs| && Sending(p, start, out, stats, calls, wire)
                    && GsoRest(p, start, out, stats, calls)
      ensures coalescedRejected ==>
                && start == from && out == done && stats == before && wire == old(wire)
                && PlainFrom(p, start, out, stats, calls)
      ensures var t := GsoTry(kernel, old(calls), Sizes(dgs)[from..]);
              && log == old(log) + [OfferOf(dgs, t)] && calls == old(calls) + 1
              && coalescedRejected == (t.answer.Reject? && t.coalesced) && start == from + Advance(t)
    {
      ghost var call, sent := calls, wire;
      var runs, r := SendWindow(dgs, from);
      match r
      case Accept(k) =>
        var s, c := CountRuns(before, runs, k);
        WindowAccepted(p, from, done, before, call, calls, sent, wire, k, runs, c, s);
        return from + c, done + Repeat(c), s, false;
      case Reject(e) =>
        if runs[0].len > 1 {
          FallsBack(p, from, done, before, call, calls, e);
          return from, done, before, true;
        } else {
          Rejected(p, from, done, before, call, calls, sent, e);
          GsoRejects(p, from, done, before, call, calls, e, runs);
          return from + 1, done + [Failed(e)], CountCall(before, false), false;
        }
    }

    /** Plans and offers the next window. */
    method SendWindow(dgs: seq<bytes>, start: nat) returns (runs: seq<Run>, r: Answer)
      requires Valid() && Honest(kernel) && start < |dgs|
      modifies this
      ensures Valid()
      ensures runs == Plan(Window(Sizes(dgs)[start..]), 0) && runs != []
      ensures r == kernel(old(calls), |runs|, runs[0].len > 1) && calls == old(calls) + 1
      ensures r.Accept? ==>
                && 1 <= r.count <= |runs| && 1 <= Covered(runs, r.count) <= |dgs| - start
                && wire == old(wire) + dgs[start..start + Covered(runs, r.count)]
      ensures r.Reject? ==> wire == old(wire)
      ensures var t := GsoTry(kernel, old(calls), Sizes(dgs)[start..]);
              && log == old(log) + [OfferOf(dgs, t)] && t.answer == r && t.coalesced == (runs[0].len > 1)
              && (r.Accept? ==> t.taken == Covered(runs, r.count))
    {
      var end := start + Min(|dgs| - start, SENDMMSG_MAX);
      var window := dgs[start..end];
      WindowSizes(dgs, start, end);
      runs := PlanRuns(Sizes(window));
      WindowPlan(Sizes(dgs)[start..], 0);
      ghost var call := calls;
      r := RawSendmmsgGso(window, runs);
      WindowOffer(kernel, call, dgs, start, end, runs, r);
      if r.Accept? {
        PrefixOfSlice(dgs, start, end, Covered(runs, r.count));
      }
    }
  }

  /** Adds an accepted call's runs to the statistics and counts their datagrams. */
  method CountRuns(stats: Stats, runs: seq<Run>, k: nat) returns (s: Stats, sent: nat)
    requires k <= |runs|
    ensures s == AddStats(stats, runs, k) && sent == Covered(runs, k)
  {
    s := CountCall(stats, k < |runs|);
    sent := 0;
    for i := 0 to k
      invariant sent == Covered(runs, i)
      invariant s == CountCall(stats, k < |runs|).(gsoRuns := stats.gsoRuns + Coalesced(runs, i).0,
                                                   gsoSegments := stats.gsoSegments + Coalesced(runs, i).1)
    {
      if runs[i].len > 1 {
        s := s.(gsoRuns := s.gsoRuns + 1, gsoSegments := s.gsoSegments + runs[i].len);
      }
      sent := sent + runs[i].len;
    }
  }

  lemma WireMore(dgs: seq<bytes>, out: seq<Outcome>, start: nat, k: nat)
    requires start == |out| && start + k <= |dgs|
    ensures OnWire(dgs[..start + k], out + Repeat(k)) == OnWire(dgs[..start], out) + dgs[start..start + k]
  {
    assert dgs[..start + k] == dgs[..start] + dgs[start..start + k];
    WireSent(dgs[..start], out, dgs[start..start + k]);
  }

  // ----- progress of a send loop

  /** What a send loop started with. */
  datatype Progress = Progress(kernel: Kernel, dgs: seq<bytes>, call: nat, wire: seq<bytes>, log: seq<Offer>)

  /** The first `start` datagrams have their outcomes, and the good ones are on the wire. */
  ghost predicate Sending(p: Progress, start: nat, out: seq<Outcome>, stats: Stats, call: nat, wire: seq<bytes>) {
    && start <= |p.dgs| && |out| == start
    && wire == p.wire + OnWire(p.dgs[..start], out) && call == p.call + stats.calls
  }

  ghost predicate PlainRest(p: Progress, start: nat, out: seq<Outcome>, stats: Stats, call: nat)
    requires Honest(p.kernel) && start <= |p.dgs|
  {
    After(out, stats, Plain(p.kernel, call, |p.dgs| - start)) == Plain(p.kernel, p.call, |p.dgs|)
  }

  ghost predicate GsoRest(p: Progress, start: nat, out: seq<Outcome>, stats: Stats, call: nat)
    requires Honest(p.kernel) && start <= |p.dgs|
  {
    !stats.gsoDisabled
    && After(out, stats, WithGso(p.kernel, call, Sizes(p.dgs)[start..])) == WithGso(p.kernel, p.call, Sizes(p.dgs))
  }

  /** The calls made so far, followed by those still to come, are the calls of the batch. */
  ghost predicate PlainLog(p: Progress, start: nat, call: nat, log: seq<Offer>)
    requires Honest(p.kernel) && start <= |p.dgs|
  {
    log + Offers(p.dgs, PlainTries(p.kernel, call, |p.dgs| - start))
    == p.log + Offers(p.dgs, PlainTries(p.kernel, p.call, |p.dgs|))
  }

  ghost predicate GsoLog(p: Progress, start: nat, call: nat, log: seq<Offer>)
    requires Honest(p.kernel) && start <= |p.dgs|
  {
    log + Offers(p.dgs, GsoTries(p.kernel, call, Sizes(p.dgs)[start..]))
    == p.log + Offers(p.dgs, GsoTries(p.kernel, p.call, Sizes(p.dgs)))
  }

  /** The same when the rest is sent plainly. */
  ghost predicate PlainLogFrom(p: Progress, start: nat, call: nat, log: seq<Offer>)
    requires Honest(p.kernel) && start <= |p.dgs|
  {
    log + Offers(p.dgs, PlainTries(p.kernel, call, |p.dgs| - start))
    == p.log + Offers(p.dgs, GsoTries(p.kernel, p.call, Sizes(p.dgs)))
  }

  lemma LogFollows(dgs: seq<bytes>, log: seq<Offer>, log': seq<Offer>, t: Try, all: seq<Try>, rest: seq<Try>,
                   whole: seq<Offer>)
    requires all == [t] + rest && log + Offers(dgs, all) == whole && log' == log + [OfferOf(dgs, t)]
    ensures log' + Offers(dgs, rest) == whole
  {
    OffersFirst(dgs, t, rest, log);
  }

  lemma PlainLogNext(p: Progress, start: nat, start': nat, call: nat, call': nat, log: seq<Offer>, log': seq<Offer>,
                     t: Try)
    requires Honest(p.kernel) && start < |p.dgs| && PlainLog(p, start, call, log) && call' == call + 1
    requires t == PlainTry(p.kernel, call, |p.dgs| - start) && log' == log + [OfferOf(p.dgs, t)]
    requires start' == start + Advance(t)
    ensures start' <= |p.dgs| && PlainLog(p, start', call', log')
  {
    var left, left' := |p.dgs| - start, |p.dgs| - start';
    PlainNext(p.kernel, call, left, t, left');
    LogFollows(p.dgs, log, log', t, PlainTries(p.kernel, call, left), PlainTries(p.kernel, call', left'),
               p.log + Offers(p.dgs, PlainTries(p.kernel, p.call, |p.dgs|)));
  }

  lemma GsoTriesNext(kernel: Kernel, call: nat, sizes: seq<nat>, t: Try, rest: seq<nat>)
    requires Honest(kernel) && sizes != [] && t == GsoTry(kernel, call, sizes) && !(t.answer.Reject? && t.coalesced)
    requires rest == sizes[Advance(t)..]
    ensures GsoTries(kernel, call, sizes) == [t] + GsoTries(kernel, call + 1, rest)
  {
  }

  lemma GsoLogNext(p: Progress, start: nat, start': nat, call: nat, call': nat, log: seq<Offer>, log': seq<Offer>,
                   t: Try)
    requires Honest(p.kernel) && start < |p.dgs| && GsoLog(p, start, call, log) && call' == call + 1
    requires t == GsoTry(p.kernel, call, Sizes(p.dgs)[start..]) && log' == log + [OfferOf(p.dgs, t)]
    requires !(t.answer.Reject? && t.coalesced) && start' == start + Advance(t)
    ensures start' <= |p.dgs| && GsoLog(p, start', call', log')
  {
    var sizes := Sizes(p.dgs);
    assert sizes[start..][Advance(t)..] == sizes[start'..];
    GsoTriesNext(p.kernel, call, sizes[start..], t, sizes[start'..]);
    LogFollows(p.dgs, log, log', t, GsoTries(p.kernel, call, sizes[start..]), GsoTries(p.kernel, call', sizes[start'..]),
               p.log + Offers(p.dgs, GsoTries(p.kernel, p.call, sizes)));
  }

  lemma GsoLogFallsBack(p: Progress, start: nat, call: nat, call': nat, log: seq<Offer>, log': seq<Offer>, t: Try)
    requires Honest(p.kernel) && start < |p.dgs| && GsoLog(p, start, call, log) && call' == call + 1
    requires t == GsoTry(p.kernel, call, Sizes(p.dgs)[start..]) && log' == log + [OfferOf(p.dgs, t)]
    requires t.answer.Reject? && t.coalesced
    ensures PlainLogFrom(p, start, call', log')
  {
    OffersFirst(p.dgs, t, PlainTries(p.kernel, call', |p.dgs| - start), log);
  }

  lemma PlainOffer(dgs: seq<bytes>, start: nat)
    requires start < |dgs|
    ensures forall t: Try :: t.left == |dgs| - start && t.offered == Min(|dgs| - start, SENDMMSG_MAX) ==>
              OfferOf(dgs, t) == Offer(dgs[start..][..t.offered], t.coalesced, t.answer)
  {
    PrefixOfSlice(dgs, start, |dgs|, Min(|dgs| - start, SENDMMSG_MAX));
  }

  lemma WindowOffer(kernel: Kernel, call: nat, dgs: seq<bytes>, start: nat, end: nat, runs: seq<Run>, r: Answer)
    requires Honest(kernel) && start < |dgs| && end == start + Min(|dgs| - start, SENDMMSG_MAX)
    requires runs == Plan(Window(Sizes(dgs)[start..]), 0) && runs != [] && r == kernel(call, |runs|, runs[0].len > 1)
    ensures OfferOf(dgs, GsoTry(kernel, call, Sizes(dgs)[start..])) == Offer(dgs[start..end], runs[0].len > 1, r)
  {
  }

  ghost predicate AllLeft(tries: seq<Try>, n: nat) {
    forall c :: 0 <= c < |tries| ==> tries[c].left <= n
  }

  lemma {:induction false} PlainTriesLeft(kernel: Kernel, call: nat, n: nat)
    requires Honest(kernel)
    ensures AllLeft(PlainTries(kernel, call, n), n)
    decreases n
  {
    if n > 0 {
      var t := PlainTry(kernel, call, n);
      PlainTriesLeft(kernel, call + 1, if t.answer.Accept? then n - t.taken else n - 1);
    }
  }

  /** Calls that concern only the datagrams from `start` on read the same in that part alone. */
  lemma OffersBehind(p: Progress, start: nat, tries: seq<Try>)
    requires start <= |p.dgs|
    ensures AllLeft(tries, |p.dgs| - start) ==> Offers(p.dgs[start..], tries) == Offers(p.dgs, tries)
  {
    if AllLeft(tries, |p.dgs| - start) {
      forall c | 0 <= c < |tries| ensures OfferOf(p.dgs[start..], tries[c]) == OfferOf(p.dgs, tries[c]) {
      }
    }
  }

  ghost function RunsAt(p: Progress, start: nat): seq<Run>
    requires start < |p.dgs|
  {
    Plan(Window(Sizes(p.dgs)[start..]), 0)
  }

  lemma Accepted(p: Progress, start: nat, out: seq<Outcome>, stats: Stats, call: nat, call': nat, wire: seq<bytes>,
                 k: nat, stats': Stats)
    requires call' == call + 1 && Sending(p, start, out, stats, call, wire) && start + k <= |p.dgs|
        && stats'.calls == stats.calls + 1
    ensures Sending(p, start + k, out + Repeat(k), stats', call', wire + p.dgs[start..start + k])
  {
    WireMore(p.dgs, out, start, k);
  }

  lemma Rejected(p: Progress, start: nat, out: seq<Outcome>, stats: Stats, call: nat, call': nat, wire: seq<bytes>,
                 e: nat)
    requires call' == call + 1 && Sending(p, start, out, stats, call, wire) && start < |p.dgs|
    ensures Sending(p, start + 1, out + [Failed(e)], CountCall(stats, false), call', wire)
  {
    assert p.dgs[..start + 1] == p.dgs[..start] + [p.dgs[start]];
    WireFailed(p.dgs[..start], out, p.dgs[start], e);
  }

  lemma PlainAccepts(p: Progress, start: nat, out: seq<Outcome>, stats: Stats, call: nat, call': nat, k: nat, want: nat)
    requires call' == call + 1 && Honest(p.kernel) && start < |p.dgs| && PlainRest(p, start, out, stats, call)
    requires want == Min(|p.dgs| - start, SENDMMSG_MAX) && p.kernel(call, want, false) == Accept(k)
    ensures start + k <= |p.dgs| && PlainRest(p, start + k, out + Repeat(k), CountCall(stats, k < want), call')
  {
    Associative(out, Repeat(k), Plain(p.kernel, call', |p.dgs| - start - k).out);
  }

  lemma SomeAccepted(p: Progress, start: nat, out: seq<Outcome>, stats: Stats, call: nat, call': nat, wire: seq<bytes>,
                     wire': seq<bytes>, k: nat, want: nat, s: Stats)
    requires call' == call + 1 && Honest(p.kernel) && start < |p.dgs| && PlainRest(p, start, out, stats, call)
    requires Sending(p, start, out, stats, call, wire)
    requires want == Min(|p.dgs| - start, SENDMMSG_MAX) && p.kernel(call, want, false) == Accept(k)
    requires s == CountCall(stats, k < want) && start + k <= |p.dgs| && wire' == wire + p.dgs[start..start + k]
    ensures Sending(p, start + k, out + Repeat(k), s, call', wire') && PlainRest(p, start + k, out + Repeat(k), s, call')
  {
    Accepted(p, start, out, stats, call, call', wire, k, s);
    PlainAccepts(p, start, out, stats, call, call', k, want);
  }

  lemma PlainRejects(p: Progress, start: nat, out: seq<Outcome>, stats: Stats, call: nat, call': nat, e: nat)
    requires call' == call + 1 && Honest(p.kernel) && start < |p.dgs| && PlainRest(p, start, out, stats, call)
    requires p.kernel(call, Min(|p.dgs| - start, SENDMMSG_MAX), false) == Reject(e)
    ensures PlainRest(p, start + 1, out + [Failed(e)], CountCall(stats, false), call')
  {
    Associative(out, [Failed(e)], Plain(p.kernel, call', |p.dgs| - start - 1).out);
  }

  lemma PlainDone(p: Progress, out: seq<Outcome>, stats: Stats, call: nat, wire: seq<bytes>)
    requires Honest(p.kernel) && Sending(p, |p.dgs|, out, stats, call, wire) && PlainRest(p, |p.dgs|, out, stats, call)
    ensures Batch(out, stats) == Plain(p.kernel, p.call, |p.dgs|) && wire == p.wire + OnWire(p.dgs, out)
  {
    assert p.dgs[..|p.dgs|] == p.dgs && out + [] == out;
  }

  lemma WithGsoAccepts(kernel: Kernel, call: nat, sizes: seq<nat>, k: nat, runs: seq<Run>, c: nat)
    requires Honest(kernel) && sizes != [] && runs == Plan(Window(sizes), 0) && runs != []
    requires kernel(call, |runs|, runs[0].len > 1) == Accept(k) && k <= |runs| && c == Covered(runs, k) && c <= |sizes|
    ensures var rest := WithGso(kernel, call + 1, sizes[c..]);
            WithGso(kernel, call, sizes) == Batch(Repeat(c) + rest.out, AddStats(rest.stats, runs, k))
  {
    WindowPlan(sizes, k);
  }

  lemma AfterAccepted(out: seq<Outcome>, stats: Stats, rest: Batch, runs: seq<Run>, k: nat, c: nat)
    requires k <= |runs|
    ensures After(out, stats, Batch(Repeat(c) + rest.out, AddStats(rest.stats, runs, k)))
            == After(out + Repeat(c), AddStats(stats, runs, k), rest)
  {
    Associative(out, Repeat(c), rest.out);
  }

  lemma GsoAccepts(p: Progress, start: nat, out: seq<Outcome>, stats: Stats, call: nat, call': nat, k: nat,
                   runs: seq<Run>, c: nat)
    requires call' == call + 1 && Honest(p.kernel) && start < |p.dgs| && GsoRest(p, start, out, stats, call)
    requires runs == RunsAt(p, start) && runs != [] && p.kernel(call, |runs|, runs[0].len > 1) == Accept(k)
    requires k <= |runs| && c == Covered(runs, k) && start + c <= |p.dgs|
    ensures GsoRest(p, start + c, out + Repeat(c), AddStats(stats, runs, k), call')
  {
    var sizes := Sizes(p.dgs)[start..];
    WithGsoAccepts(p.kernel, call, sizes, k, runs, c);
    assert sizes[c..] == Sizes(p.dgs)[start + c..];
    AfterAccepted(out, stats, WithGso(p.kernel, call', sizes[c..]), runs, k, c);
  }

  lemma WindowAccepted(p: Progress, start: nat, out: seq<Outcome>, stats: Stats, call: nat, call': nat,
                       wire: seq<bytes>, wire': seq<bytes>,
                       k: nat, runs: seq<Run>, c: nat, s: Stats)
    requires call' == call + 1 && Honest(p.kernel) && start < |p.dgs| && GsoRest(p, start, out, stats, call)
    requires Sending(p, start, out, stats, call, wire)
    requires runs == RunsAt(p, start) && runs != [] && p.kernel(call, |runs|, runs[0].len > 1) == Accept(k)
    requires k <= |runs| && c == Covered(runs, k) && s == AddStats(stats, runs, k)
    requires start + c <= |p.dgs| && wire' == wire + p.dgs[start..start + c]
    ensures Sending(p, start + c, out + Repeat(c), s, call', wire') && GsoRest(p, start + c, out + Repeat(c), s, call')
  {
    GsoAccepts(p, start, out, stats, call, call', k, runs, c);
    Accepted(p, start, out, stats, call, call', wire, c, s);
  }

  lemma GsoRejects(p: Progress, start: nat, out: seq<Outcome>, stats: Stats, call: nat, call': nat, e: nat,
                   runs: seq<Run>)
    requires call' == call + 1 && Honest(p.kernel) && start < |p.dgs| && GsoRest(p, start, out, stats, call)
    requires runs == RunsAt(p, start) && runs != [] && runs[0].len <= 1 && p.kernel(call, |runs|, false) == Reject(e)
    ensures GsoRest(p, start + 1, out + [Failed(e)], CountCall(stats, false), call')
  {
    var sizes := Sizes(p.dgs)[start..];
    assert sizes[1..] == Sizes(p.dgs)[start + 1..];
    Associative(out, [Failed(e)], WithGso(p.kernel, call', sizes[1..]).out);
  }

  /** The call at `start` offered a coalesced message and was rejected. */
  ghost predicate Coalesces(p: Progress, start: nat, call: nat, e: nat)
    requires start < |p.dgs|
  {
    var runs := RunsAt(p, start);
    runs != [] && runs[0].len > 1 && p.kernel(call, |runs|, true) == Reject(e)
  }

  /** The whole batch's result is what is done so far and what plain sending makes of the rest. */
  ghost predicate PlainFrom(p: Progress, start: nat, out: seq<Outcome>, stats: Stats, call: nat)
    requires Honest(p.kernel) && start <= |p.dgs|
  {
    var b := Plain(p.kernel, call, |p.dgs| - start);
    WithGso(p.kernel, p.call, Sizes(p.dgs))
    == Batch(out + b.out, stats.(calls := stats.calls + 1 + b.stats.calls,
                                 partial := stats.partial + b.stats.partial, gsoDisabled := true))
  }

  lemma FallsBack(p: Progress, start: nat, out: seq<Outcome>, stats: Stats, call: nat, call': nat, e: nat)
    requires Honest(p.kernel) && start < |p.dgs| && call' == call + 1
    requires GsoRest(p, start, out, stats, call) && Coalesces(p, start, call, e)
    ensures PlainFrom(p, start, out, stats, call')
  {
    PlainNoGso(p.kernel, call', |p.dgs| - start);
  }

  lemma FellBack(p: Progress, start: nat, out: seq<Outcome>, stats: Stats, call: nat, rest: seq<Outcome>, s: Stats)
    requires Honest(p.kernel) && start <= |p.dgs|
    requires PlainFrom(p, start, out, stats, call) && Batch(rest, s) == Plain(p.kernel, call, |p.dgs| - start)
    ensures WithGso(p.kernel, p.call, Sizes(p.dgs))
            == Batch(out + rest, stats.(calls := stats.calls + 1 + s.calls, partial := stats.partial + s.partial, gsoDisabled := true))
  {
  }

  lemma WireFellBack(p: Progress, start: nat, out: seq<Outcome>, wire: seq<bytes>, rest: seq<Outcome>,
                     wire': seq<bytes>)
    requires start <= |p.dgs| && |out| == start && |rest| == |p.dgs| - start
    requires wire == p.wire + OnWire(p.dgs[..start], out) && wire' == wire + OnWire(p.dgs[start..], rest)
    ensures wire' == p.wire + OnWire(p.dgs, out + rest)
  {
    assert p.dgs[..start] + p.dgs[start..] == p.dgs;
    WireAppend(p.dgs[..start], out, p.dgs[start..], rest);
    Associative(p.wire, OnWire(p.dgs[..start], out), OnWire(p.dgs[start..], rest));
  }

  lemma PlainStart(p: Progress)
    requires Honest(p.kernel)
    ensures Sending(p, 0, [], NO_STATS, p.call, p.wire) && PlainRest(p, 0, [], NO_STATS, p.call)
    ensures PlainLog(p, 0, p.call, p.log)
  {
  }

  lemma GsoStart(p: Progress)
    requires Honest(p.kernel)
    ensures Sending(p, 0, [], NO_STATS, p.call, p.wire) && GsoRest(p, 0, [], NO_STATS, p.call)
    ensures GsoLog(p, 0, p.call, p.log)
  {
    assert Sizes(p.dgs)[0..] == Sizes(p.dgs);
  }

  lemma GsoDone(p: Progress, out: seq<Outcome>, stats: Stats, call: nat, wire: seq<bytes>)
    requires Honest(p.kernel) && Sending(p, |p.dgs|, out, stats, call, wire) && GsoRest(p, |p.dgs|, out, stats, call)
    ensures Batch(out, stats) == WithGso(p.kernel, p.call, Sizes(p.dgs)) && wire == p.wire + OnWire(p.dgs, out)
  {
    assert p.dgs[..|p.dgs|] == p.dgs && out + [] == out;
  }
}
