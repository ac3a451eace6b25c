/** The statistics of a batch against the calls it made: how many fell short, and how much each
    call offers. */
module BatchStats {
  import opened Bytes
  import opened Common
  import opened Gso
  import opened BatchSend

  /** The kernel took some, but not all, of the messages it was offered. */
  ghost predicate FellShort(t: Try) {
    t.answer.Accept? && t.answer.count < t.messages
  }

  ghost function ShortCount(tries: seq<Try>): nat {
    if tries == [] then 0 else (if FellShort(tries[0]) then 1 else 0) + ShortCount(tries[1..])
  }

  lemma ShortFirst(t: Try, rest: seq<Try>)
    ensures ShortCount([t] + rest) == (if FellShort(t) then 1 else 0) + ShortCount(rest)
  {
    assert ([t] + rest)[1..] == rest;
  }

  lemma {:induction false} PlainPartial(kernel: Kernel, call: nat, n: nat)
    requires Honest(kernel)
    ensures Plain(kernel, call, n).stats.partial == ShortCount(PlainTries(kernel, call, n))
    decreases n
  {
    if n > 0 {
      var t := PlainTry(kernel, call, n);
      var m := if t.answer.Accept? then n - t.taken else n - 1;
      PlainPartial(kernel, call + 1, m);
      ShortFirst(t, PlainTries(kernel, call + 1, m));
    }
  }

  /** The partial calls counted are those in which the kernel took some of the messages only. */
  lemma {:induction false} PartialIs(kernel: Kernel, call: nat, sizes: seq<nat>)
    requires Honest(kernel)
    ensures WithGso(kernel, call, sizes).stats.partial == ShortCount(GsoTries(kernel, call, sizes))
    decreases |sizes|
  {
    if sizes != [] {
      var t := GsoTry(kernel, call, sizes);
      if t.answer.Accept? {
        PartialIs(kernel, call + 1, sizes[t.taken..]);
        ShortFirst(t, GsoTries(kernel, call + 1, sizes[t.taken..]));
      } else if t.coalesced {
        PlainPartial(kernel, call + 1, |sizes|);
        ShortFirst(t, PlainTries(kernel, call + 1, |sizes|));
      } else {
        PartialIs(kernel, call + 1, sizes[1..]);
        ShortFirst(t, GsoTries(kernel, call + 1, sizes[1..]));
      }
    }
  }

  /** A call offers all datagrams that are left, but at most 64. */
  ghost predicate OffersAll(tries: seq<Try>) {
    forall t :: t in tries ==> t.offered == (if t.left <= 64 then t.left else 64)
  }

  lemma {:induction false} PlainOffers(kernel: Kernel, call: nat, n: nat)
    requires Honest(kernel)
    ensures OffersAll(PlainTries(kernel, call, n))
    decreases n
  {
    if n > 0 {
      var t := PlainTry(kernel, call, n);
      PlainOffers(kernel, call + 1, if t.answer.Accept? then n - t.taken else n - 1);
    }
  }

  lemma {:induction false} OffersIs(kernel: Kernel, call: nat, sizes: seq<nat>)
    requires Honest(kernel)
    ensures OffersAll(GsoTries(kernel, call, sizes))
    decreases |sizes|
  {
    if sizes != [] {
      var t := GsoTry(kernel, call, sizes);
      if t.answer.Accept? {
        OffersIs(kernel, call + 1, sizes[t.taken..]);
      } else if t.coalesced {
        PlainOffers(kernel, call + 1, |sizes|);
      } else {
        OffersIs(kernel, call + 1, sizes[1..]);
      }
    }
  }
}
