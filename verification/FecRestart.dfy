/** What a restart of the peer leaves behind. The parked groups of the old stream survive it:
    while none of them meets the new stream, every later recovery is right; a share of the
    new stream that is combined with one of theirs recovers the new stream's frames exactly
    when the parked share agrees with the new stream's own on the columns that are used. */
module FecRestart {
  import opened Bytes
  import opened Gf
  import opened GfTables
  import opened FecGroup
  import opened FecReceiver
  import opened FecRecovery
  import opened FecSafety
  import opened FecParking
  import opened FecRuns
  import opened FecOpenRuns
  import opened FecSoundness
  import opened FecCompletion

  // ----- while the streams do not meet

  /** A restart into a stream that every parked group fits, from any state: whatever this and
      the stream's later events recover, it sent. */
  lemma {:induction false} AfterRestart(st: Stream, rx: Rx, es: seq<Event>)
    requires IndexInv(rx) && es != [] && Restarts(rx, es[0]) && AllFit(st, rx)
    requires forall i :: 0 <= i < |es| ==> Sent(st, es[i])
    ensures SoundInv(st, RunTo(rx, es)) && IndexInv(RunTo(rx, es))
    ensures TrueFrames(st, Step(RunTo(rx, es[..|es| - 1]), es[|es| - 1]).recovered)
  {
    var n := |es| - 1;
    var before := RunTo(rx, es[..n]);
    if n == 0 {
      RestartSound(st, rx, Noted(es[0]).value);
    } else {
      AfterRestart(st, rx, es[..n]);
      BaseSound(st, before, es[n]);
    }
    StepSound(st, before, es[n]);
    StepIndex(before, es[n]);
  }

  // ----- where they do: a share is judged by what it recovers

  lemma SumsMatch(r: byte, c: byte, s: byte, m: byte)
    requires Add(r, c) == Add(s, m)
    ensures s == c <==> r == m
  {
    XorCancel(r, c);
    XorCancel(m, c);
    XorCancel(m, s);
    XorComm(c, m);
    XorComm(s, m);
  }

  /** Column `j` of the share is the one a sender of these members makes. */
  ghost predicate RightAt(k: Kind, members: seq<bytes>, share: bytes, j: nat) {
    j < |share| && share[j] == Column(k, members, j)
  }

  /** The share agrees with the sender's own on every column below `n`. */
  ghost predicate RightBelow(k: Kind, members: seq<bytes>, share: bytes, n: nat) {
    forall j: nat :: j < n ==> RightAt(k, members, share, j)
  }

  /** On all columns it agrees exactly when it is that share. */
  lemma WholeShare(k: Kind, members: seq<bytes>, share: bytes)
    requires |share| == Width(members)
    ensures RightBelow(k, members, share, Width(members)) <==> share == Share(k, members)
  {
    if RightBelow(k, members, share, Width(members)) {
      forall j: nat | j < |share| ensures share[j] == Share(k, members)[j] {
        assert RightAt(k, members, share, j);
      }
    }
  }

  /** A column of a share is right exactly when, with the known members removed, it is the
      missing members' column. */
  lemma ColumnIff(rx: Rx, truth: Truth, k: Kind, share: bytes, seqs: seq<nat>, missing: seq<nat>, j: nat)
    requires Covers(truth, seqs) && Faithful(truth, rx) && RestKnown(rx, seqs, missing)
    requires j < |share| && Stripped(rx, k, share, seqs, missing, |seqs|).Some?
    ensures RightAt(k, Members(truth, seqs), share, j)
            <==> Stripped(rx, k, share, seqs, missing, |seqs|).value[j] == MissingColumn(k, Members(truth, seqs), missing, j, |seqs|)
  {
    var members := Members(truth, seqs);
    StrippedColumn(rx, truth, k, share, seqs, missing, |seqs|, j);
    assert members[..|seqs|] == members;
    var r := Stripped(rx, k, share, seqs, missing, |seqs|).value[j];
    SumsMatch(r, Column(k, members, j), share[j], MissingColumn(k, members, missing, j, |seqs|));
  }

  ghost predicate SameAt(x: bytes, y: bytes, j: nat) {
    j < |x| && j < |y| && x[j] == y[j]
  }

  lemma TruncatedSame(x: bytes, t: bytes)
    requires |t| <= |x|
    ensures Truncated(x, |t|) == t <==> forall j: nat :: j < |t| ==> SameAt(x, t, j)
  {
    if forall j: nat :: j < |t| ==> SameAt(x, t, j) {
      forall j: nat | j < |t| ensures x[j] == t[j] {
        assert SameAt(x, t, j);
      }
    } else if Truncated(x, |t|) == t {
      forall j: nat | j < |t| ensures SameAt(x, t, j) {
        assert Truncated(x, |t|)[j] == x[j];
      }
    }
  }

  lemma OneColumn(k: Kind, a: nat, r: byte, t: byte)
    ensures Power(a) != 0
    ensures (if k.P? then r else Mul(Inv(Power(a)), r)) == t <==> r == Mul(Coef(k, a), t)
  {
    OneTimes(t);
    PowerNonZero(a);
    MulBack(Power(a), r);
    SolveOne(Power(a), t);
  }

  ghost function Solved(k: Kind, r: bytes, a: nat): (x: bytes)
    ensures |x| == |r|
  {
    if k.P? then SolvedOne(Some(r), None, a).value else SolvedOne(None, Some(r), a).value
  }

  lemma SolvedAt(k: Kind, r: bytes, a: nat, t: bytes, j: nat)
    requires j < |r| && j < |t|
    ensures SameAt(Solved(k, r, a), t, j) <==> r[j] == Mul(Coef(k, a), t[j])
  {
    OneColumn(k, a, r[j], t[j]);
  }

  /** One missing member, whatever the share and whatever length it claims for it: the member is
      recovered as sent exactly when the length is right and the share agrees with the one this
      stream's sender made on the columns of the member. */
  lemma OneShareIff(rx: Rx, truth: Truth, k: Kind, share: bytes, seqs: seq<nat>, a: nat, r: bytes, len: nat)
    requires Covers(truth, seqs) && Faithful(truth, rx) && RestKnown(rx, seqs, [a]) && a < |seqs|
    requires Stripped(rx, k, share, seqs, [a], |seqs|) == Some(r) && len <= |share|
    ensures Truncated(Solved(k, r, a), len) == truth[seqs[a]]
            <==> len == |truth[seqs[a]]| && RightBelow(k, Members(truth, seqs), share, len)
  {
    var members, t, x := Members(truth, seqs), truth[seqs[a]], Solved(k, r, a);
    if len == |t| {
      TruncatedSame(x, t);
      forall j: nat | j < len ensures SameAt(x, t, j) <==> RightAt(k, members, share, j) {
        ColumnIff(rx, truth, k, share, seqs, [a], j);
        OneMissing(k, members, a, j, |seqs|);
        SolvedAt(k, r, a, t, j);
      }
    }
  }

  lemma TwoColumns(ga: byte, gb: byte, p: byte, q: byte, x: byte, y: byte, da: byte, db: byte)
    requires ga != gb && 0 < Xor(ga, gb) < 256
    requires db == Mul(Inv(Xor(ga, gb)), Add(q, Mul(ga, p))) && da == Add(p, Mul(1, db))
    ensures da == x && db == y <==> p == Add(Mul(1, x), Mul(1, y)) && q == Add(Mul(ga, x), Mul(gb, y))
  {
    OneTimes(x);
    OneTimes(y);
    OneTimes(db);
    SolveTwoExists(ga, gb, p, q, da, db);
    if p == Add(x, y) && q == Add(Mul(ga, x), Mul(gb, y)) {
      SolveTwo(ga, gb, x, y, p, q);
    }
  }

  lemma SameSum(x: byte, y: byte, x': byte, y': byte)
    requires Add(x, y) == Add(x', y')
    ensures x == x' <==> y == y'
  {
    XorCancel(x, y);
    XorCancel(x', y');
    XorCancel(x', y);
    XorCancel(x, y');
  }

  lemma SameProduct(g: byte, x: byte, y: byte)
    requires g != 0
    ensures Mul(g, x) == Mul(g, y) <==> x == y
  {
    MulCancel(g, x);
    MulCancel(g, y);
  }

  /** With one of the two equations right, either recovered byte alone decides the other. */
  lemma OneRightColumn(ga: byte, gb: byte, p: byte, q: byte, x: byte, y: byte, da: byte, db: byte)
    requires ga != gb && ga != 0 && gb != 0 && 0 < Xor(ga, gb) < 256
    requires db == Mul(Inv(Xor(ga, gb)), Add(q, Mul(ga, p))) && da == Add(p, Mul(1, db))
    requires p == Add(Mul(1, x), Mul(1, y)) || q == Add(Mul(ga, x), Mul(gb, y))
    ensures da == x <==> db == y
  {
    OneTimes(x);
    OneTimes(y);
    OneTimes(db);
    SolveTwoExists(ga, gb, p, q, da, db);
    if p == Add(x, y) {
      SameSum(da, db, x, y);
    } else {
      SameSum(Mul(ga, da), Mul(gb, db), Mul(ga, x), Mul(gb, y));
      SameProduct(ga, da, x);
      SameProduct(gb, db, y);
    }
  }

  lemma SolvedTwoAt(p: bytes, q: bytes, a: nat, b: nat, x: byte, y: byte, j: nat)
    requires |p| == |q| && a < b < 255 && j < |p|
    ensures var (da, db) := SolvedTwo(p, q, a, b);
            var rightP, rightQ := p[j] == Add(Mul(1, x), Mul(1, y)), q[j] == Add(Mul(Power(a), x), Mul(Power(b), y));
            && ((da[j] == x && db[j] == y) <==> (rightP && rightQ))
            && (rightP || rightQ ==> (da[j] == x <==> db[j] == y))
  {
    PowerDistinct(a, b);
    PowerNonZero(a);
    PowerNonZero(b);
    DivisorNonZero(Power(a), Power(b), p[j], q[j]);
    var (da, db) := SolvedTwo(p, q, a, b);
    TwoColumns(Power(a), Power(b), p[j], q[j], x, y, da[j], db[j]);
    if p[j] == Add(Mul(1, x), Mul(1, y)) || q[j] == Add(Mul(Power(a), x), Mul(Power(b), y)) {
      OneRightColumn(Power(a), Power(b), p[j], q[j], x, y, da[j], db[j]);
    }
  }

  /** Two shares, stripped down to two missing members. */
  ghost predicate StripTo(rx: Rx, p: bytes, q: bytes, seqs: seq<nat>, a: nat, b: nat, p': bytes, q': bytes) {
    && a < b < |seqs| <= 255 && |p| == |q| == |p'| == |q'| && RestKnown(rx, seqs, [a, b])
    && Stripped(rx, P, p, seqs, [a, b], |seqs|) == Some(p') && Stripped(rx, Q, q, seqs, [a, b], |seqs|) == Some(q')
  }

  /** A recovered column, both bytes zero beyond their member. */
  ghost predicate ByteIs(d: bytes, t: bytes, j: nat) {
    j < |d| && d[j] == At(t, j)
  }

  lemma TwoColumnsIff(rx: Rx, truth: Truth, p: bytes, q: bytes, p': bytes, q': bytes, seqs: seq<nat>, a: nat,
                      b: nat, j: nat)
    requires Covers(truth, seqs) && Faithful(truth, rx) && StripTo(rx, p, q, seqs, a, b, p', q') && j < |p|
    ensures var (da, db) := SolvedTwo(p', q', a, b);
            var members := Members(truth, seqs);
            var rightP, rightQ := RightAt(P, members, p, j), RightAt(Q, members, q, j);
            && ((ByteIs(da, members[a], j) && ByteIs(db, members[b], j)) <==> (rightP && rightQ))
            && (rightP || rightQ ==> (ByteIs(da, members[a], j) <==> ByteIs(db, members[b], j)))
  {
    var members := Members(truth, seqs);
    ColumnIff(rx, truth, P, p, seqs, [a, b], j);
    ColumnIff(rx, truth, Q, q, seqs, [a, b], j);
    TwoMissing(P, members, a, b, j, |seqs|);
    TwoMissing(Q, members, a, b, j, |seqs|);
    SolvedTwoAt(p', q', a, b, At(members[a], j), At(members[b], j), j);
  }

  lemma MemberIs(d: bytes, t: bytes)
    requires |t| <= |d|
    ensures Truncated(d, |t|) == t <==> forall j: nat :: j < |t| ==> ByteIs(d, t, j)
  {
    TruncatedSame(d, t);
    forall j: nat | j < |t| ensures ByteIs(d, t, j) <==> SameAt(d, t, j) {
    }
  }

  /** Two missing members of one length, whatever the shares: they are recovered as sent exactly
      when both shares agree with this stream's own on the members' columns. */
  lemma TwoSharesIff(rx: Rx, truth: Truth, p: bytes, q: bytes, seqs: seq<nat>, a: nat, b: nat, p': bytes, q': bytes,
                     n: nat)
    requires Covers(truth, seqs) && Faithful(truth, rx) && StripTo(rx, p, q, seqs, a, b, p', q')
    requires |truth[seqs[a]]| == |truth[seqs[b]]| == n <= |p|
    ensures var (da, db) := SolvedTwo(p', q', a, b);
            var members := Members(truth, seqs);
            (Truncated(da, n) == truth[seqs[a]] && Truncated(db, n) == truth[seqs[b]])
            <==> (RightBelow(P, members, p, n) && RightBelow(Q, members, q, n))
  {
    var members := Members(truth, seqs);
    var (da, db) := SolvedTwo(p', q', a, b);
    MemberIs(da, members[a]);
    MemberIs(db, members[b]);
    forall j: nat | j < n
      ensures (ByteIs(da, members[a], j) && ByteIs(db, members[b], j)) <==> (RightAt(P, members, p, j)
          && RightAt(Q, members, q, j))
    {
      TwoColumnsIff(rx, truth, p, q, p', q', seqs, a, b, j);
    }
  }

  function Longer(x: bytes, y: bytes): nat {
    if |x| >= |y| then |x| else |y|
  }

  function Other(k: Kind): Kind {
    if k.P? then Q else P
  }

  ghost function Of(k: Kind, p: bytes, q: bytes): bytes {
    if k.P? then p else q
  }

  /** Two missing members of any lengths, one share right: they are recovered as sent exactly
      when the other share, too, agrees with this stream's own on the longer member's columns. */
  lemma OtherShareIff(rx: Rx, truth: Truth, k: Kind, p: bytes, q: bytes, seqs: seq<nat>, a: nat, b: nat, p': bytes,
                      q': bytes, n: nat)
    requires Covers(truth, seqs) && Faithful(truth, rx) && StripTo(rx, p, q, seqs, a, b, p', q')
    requires n == Longer(truth[seqs[a]], truth[seqs[b]]) <= |p| && RightBelow(k, Members(truth, seqs), Of(k, p, q), n)
    ensures var (da, db) := SolvedTwo(p', q', a, b);
            (Truncated(da, |truth[seqs[a]]|) == truth[seqs[a]] && Truncated(db, |truth[seqs[b]]|) == truth[seqs[b]])
            <==> RightBelow(Other(k), Members(truth, seqs), Of(Other(k), p, q), n)
  {
    var members := Members(truth, seqs);
    var (da, db) := SolvedTwo(p', q', a, b);
    MemberIs(da, members[a]);
    MemberIs(db, members[b]);
    forall j: nat | j < n
      ensures ByteIs(da, members[a], j) <==> RightAt(Other(k), members, Of(Other(k), p, q), j)
      ensures ByteIs(db, members[b], j) <==> RightAt(Other(k), members, Of(Other(k), p, q), j)
    {
      assert RightAt(k, members, Of(k, p, q), j);
      TwoColumnsIff(rx, truth, p, q, p', q', seqs, a, b, j);
    }
  }

  // ----- the receiver's verdict on a share of another stream

  lemma Judged(rx: Rx, shares: Shares, any: Parity, missing: seq<nat>)
    requires shares.Any() == Some(any) && missing == MissingBelow(rx, any.seqs, |any.seqs|) && !AnyHandled(rx, any.seqs)
    requires |missing| == 1 || (|missing| == 2 && rx.parityCount >= 2 && shares.p.Some? && shares.q.Some?)
    requires Consistent(shares) && forall i :: i in missing ==> any.lens[i] <= |any.parity|
    ensures Judge(rx, shares) == Reconstruct(rx, shares, missing)
  {
  }

  lemma TwoReconstructed(rx: Rx, p: Parity, q: Parity, missing: seq<nat>, a: nat, b: nat, p': bytes, q': bytes)
    requires p.seqs == q.seqs && p.lens == q.lens && |p.parity| == |q.parity| == |p'| == |q'| && rx.parityCount >= 2
    requires missing == MissingBelow(rx, p.seqs, |p.seqs|) == [a, b] && a < b < |p.seqs| && !AnyHandled(rx, p.seqs)
    requires Stripped(rx, P, p.parity, p.seqs, missing, |p.seqs|) == Some(p')
    requires Stripped(rx, Q, q.parity, p.seqs, missing, |p.seqs|) == Some(q')
    requires p.lens[a] <= |p.parity| && p.lens[b] <= |p.parity|
    ensures var (da, db) := SolvedTwo(p', q', a, b);
            Judge(rx, Shares(Some(p), Some(q)))
            == Recovered([(p.seqs[a], Truncated(da, p.lens[a])), (p.seqs[b], Truncated(db, p.lens[b]))])
  {
    Judged(rx, Shares(Some(p), Some(q)), p, missing);
  }

  lemma PairIsTrue(st: Stream, s: nat, x: bytes, t: nat, y: bytes)
    ensures TrueFrames(st, [(s, x), (t, y)])
            <==> s in st.frames && t in st.frames && st.frames[s] == x && st.frames[t] == y
  {
    var items := [(s, x), (t, y)];
    assert items[0] == (s, x) && items[1] == (t, y);
  }

  lemma WidthHolds(truth: Truth, k: Kind, par: Parity, a: nat)
    requires Genuine(truth, k, par) && a < |par.seqs|
    ensures par.lens[a] == |truth[par.seqs[a]]| <= |par.parity| == Width(Members(truth, par.seqs))
    ensures RightBelow(k, Members(truth, par.seqs), par.parity, |par.parity|)
  {
    LensFit(truth, k, par, a);
    WholeShare(k, Members(truth, par.seqs), par.parity);
  }

  /** Both shares at hand, one of them the stream's own, and two members missing: what is
      recovered is what the stream sent exactly when the other share is right on the columns of
      the longer of the two. */
  lemma PairIff(st: Stream, rx: Rx, k: Kind, p: Parity, q: Parity, missing: seq<nat>, a: nat, b: nat, n: nat)
    requires p.seqs == q.seqs && p.lens == q.lens && |p.parity| == |q.parity| && Genuine(st.frames, k, if k.P?
        then p else q)
    requires Faithful(st.frames, rx) && rx.parityCount >= 2 && !AnyHandled(rx, p.seqs)
    requires missing == MissingBelow(rx, p.seqs, |p.seqs|) == [a, b] && a < b < |p.seqs|
    requires n == Longer(st.frames[p.seqs[a]], st.frames[p.seqs[b]])
    ensures var e := Judge(rx, Shares(Some(p), Some(q)));
            && e.Recovered?
            && (TrueFrames(st, e.items)
                <==> RightBelow(Other(k), Members(st.frames, p.seqs), Of(Other(k), p.parity, q.parity), n))
  {
    var seqs, truth := p.seqs, st.frames;
    RestIsKnown(rx, seqs);
    WidthHolds(truth, k, if k.P? then p else q, a);
    WidthHolds(truth, k, if k.P? then p else q, b);
    StrippedSome(rx, truth, P, p.parity, seqs, missing, |seqs|);
    StrippedSome(rx, truth, Q, q.parity, seqs, missing, |seqs|);
    var p' := Stripped(rx, P, p.parity, seqs, missing, |seqs|).value;
    var q' := Stripped(rx, Q, q.parity, seqs, missing, |seqs|).value;
    TwoReconstructed(rx, p, q, missing, a, b, p', q');
    OtherShareIff(rx, truth, k, p.parity, q.parity, seqs, a, b, p', q', n);
    var (da, db) := SolvedTwo(p', q', a, b);
    PairIsTrue(st, seqs[a], Truncated(da, p.lens[a]), seqs[b], Truncated(db, p.lens[b]));
  }

  /** A share of the stream meets a parked share `held` of the same members and lengths, from
      whatever stream, with two members missing: the two recover the stream's frames exactly
      when `held` agrees with the stream's own share on the columns of the longer member. */
  lemma HeldShareIff(st: Stream, rx: Rx, base: Rx, k: Kind, par: Parity, held: Parity, a: nat, b: nat, n: nat,
                     now: nat, oldest: nat)
    requires base == NoteSeq(rx, Highest(par.seqs)) && Faithful(st.frames, base) && base.parityCount >= 2
    requires SentShare(st, par.seqs[0], k, par)
    requires HeldShares(base, par.seqs[0]) == Shares(None, None).With(Other(k), held)
    requires held.seqs == par.seqs && held.lens == par.lens && |held.parity| == |par.parity|
    requires MissingBelow(base, par.seqs, |par.seqs|) == [a, b] && !AnyHandled(base, par.seqs) && a < b < |par.seqs|
    requires n == Longer(st.frames[par.seqs[a]], st.frames[par.seqs[b]])
    ensures var out := TryRecover(rx, k, par, now, oldest).1;
            && out.OutRecovered?
            && (TrueFrames(st, out.items) <==> RightBelow(Other(k), Members(st.frames, par.seqs), held.parity, n))
  {
    var key := par.seqs[0];
    var off, shares := DropParked(base, key), HeldShares(base, key).With(k, par);
    ShareIsSettled(rx, base, k, par, now, oldest);
    SettleOutcome(off, key, shares, now, oldest);
    SameMissing(base, off, par.seqs, |par.seqs|);
    SameHandled(base, off, par.seqs);
    if k.P? {
      PairIff(st, off, k, par, held, [a, b], a, b, n);
    } else {
      PairIff(st, off, k, held, par, [a, b], a, b, n);
    }
  }

  lemma OneOfPairReconstructed(rx: Rx, shares: Shares, p: Parity, missing: seq<nat>, a: nat, r: bytes)
    requires shares.p == Some(p) && shares.q.Some? && Consistent(shares) && !AnyHandled(rx, p.seqs)
    requires missing == MissingBelow(rx, p.seqs, |p.seqs|) == [a] && a < |p.seqs| && p.lens[a] <= |p.parity|
    requires Stripped(rx, P, p.parity, p.seqs, missing, |p.seqs|) == Some(r)
    requires Stripped(rx, Q, shares.q.value.parity, p.seqs, missing, |p.seqs|).Some?
    ensures Judge(rx, shares) == Recovered([(p.seqs[a], Truncated(Solved(P, r, a), p.lens[a]))])
  {
    ReconstructUnfolded(rx, shares, p.seqs, a, missing);
    Judged(rx, shares, p, missing);
  }

  /** With both shares at hand and one member missing, the P share alone decides. */
  lemma OneOfPairIff(st: Stream, rx: Rx, k: Kind, p: Parity, q: Parity, missing: seq<nat>, a: nat)
    requires p.seqs == q.seqs && p.lens == q.lens && |p.parity| == |q.parity| && Genuine(st.frames, k, if k.P?
        then p else q)
    requires Faithful(st.frames, rx) && !AnyHandled(rx, p.seqs)
    requires missing == MissingBelow(rx, p.seqs, |p.seqs|) == [a] && a < |p.seqs|
    ensures var e := Judge(rx, Shares(Some(p), Some(q)));
            e.Recovered? && (TrueFrames(st, e.items) <==> RightBelow(P, Members(st.frames, p.seqs), p.parity, p.lens[a]))
  {
    var seqs, truth := p.seqs, st.frames;
    RestIsKnown(rx, seqs);
    WidthHolds(truth, k, if k.P? then p else q, a);
    StrippedSome(rx, truth, P, p.parity, seqs, missing, |seqs|);
    StrippedSome(rx, truth, Q, q.parity, seqs, missing, |seqs|);
    var r := Stripped(rx, P, p.parity, seqs, missing, |seqs|).value;
    OneOfPairReconstructed(rx, Shares(Some(p), Some(q)), p, missing, a, r);
    OneShareIff(rx, truth, P, p.parity, seqs, a, r, p.lens[a]);
    OneIsTrue(st, seqs[a], Truncated(Solved(P, r, a), p.lens[a]));
  }

  /** So a share of the stream that meets a parked share with one member missing recovers it as
      sent exactly when the P share of the two agrees with the stream's own on its columns: a P
      share of the stream always does. */
  lemma HeldShareOneIff(st: Stream, rx: Rx, base: Rx, k: Kind, par: Parity, held: Parity, a: nat, now: nat, oldest: nat)
    requires base == NoteSeq(rx, Highest(par.seqs)) && Faithful(st.frames, base)
    requires SentShare(st, par.seqs[0], k, par)
    requires HeldShares(base, par.seqs[0]) == Shares(None, None).With(Other(k), held)
    requires held.seqs == par.seqs && held.lens == par.lens && |held.parity| == |par.parity|
    requires MissingBelow(base, par.seqs, |par.seqs|) == [a] && !AnyHandled(base, par.seqs) && a < |par.seqs|
    ensures var out := TryRecover(rx, k, par, now, oldest).1;
            && out.OutRecovered?
            && (TrueFrames(st, out.items)
                <==> k.P? || RightBelow(P, Members(st.frames, par.seqs), held.parity, |st.frames[par.seqs[a]]|))
  {
    var key := par.seqs[0];
    var off, shares := DropParked(base, key), HeldShares(base, key).With(k, par);
    ShareIsSettled(rx, base, k, par, now, oldest);
    SettleOutcome(off, key, shares, now, oldest);
    SameMissing(base, off, par.seqs, |par.seqs|);
    SameHandled(base, off, par.seqs);
    WidthHolds(st.frames, k, par, a);
    if k.P? {
      OneOfPairIff(st, off, k, par, held, [a], a);
    } else {
      OneOfPairIff(st, off, k, held, par, [a], a);
    }
  }

  /** Shares that do not describe the same group recover nothing. */
  lemma InconsistentShares(rx: Rx, shares: Shares)
    requires !Consistent(shares)
    ensures !Judge(rx, shares).Recovered?
  {
  }

  lemma OneIsTrue(st: Stream, s: nat, x: bytes)
    ensures TrueFrames(st, [(s, x)]) <==> s in st.frames && st.frames[s] == x
  {
    assert [(s, x)][0] == (s, x);
  }

  lemma OneReconstructed(rx: Rx, k: Kind, par: Parity, missing: seq<nat>, a: nat, r: bytes)
    requires missing == MissingBelow(rx, par.seqs, |par.seqs|) == [a] && a < |par.seqs| && !AnyHandled(rx, par.seqs)
    requires Stripped(rx, k, par.parity, par.seqs, missing, |par.seqs|) == Some(r) && par.lens[a] <= |par.parity|
    ensures Judge(rx, Shares(None, None).With(k, par)) == Recovered([(par.seqs[a], Truncated(Solved(k, r, a), par.lens[a]))])
  {
    Judged(rx, Shares(None, None).With(k, par), par, missing);
  }

  /** What the receiver needs to recover the one member missing, be it rightly or wrongly: the
      claimed length within the share, and no known member wider than it. */
  ghost predicate Usable(rx: Rx, k: Kind, par: Parity, a: nat)
    requires a < |par.seqs|
  {
    par.lens[a] <= |par.parity| && Stripped(rx, k, par.parity, par.seqs, [a], |par.seqs|).Some?
  }

  lemma RecoversIff(rx: Rx, k: Kind, par: Parity, missing: seq<nat>, a: nat)
    requires missing == MissingBelow(rx, par.seqs, |par.seqs|) == [a] && a < |par.seqs| && !AnyHandled(rx, par.seqs)
    ensures Judge(rx, Shares(None, None).With(k, par)).Recovered? <==> Usable(rx, k, par, a)
  {
    if par.lens[a] > |par.parity| {
      LengthTooLong(rx, Shares(None, None).With(k, par), par, missing, a);
    } else if Stripped(rx, k, par.parity, par.seqs, [a], |par.seqs|).Some? {
      OneReconstructed(rx, k, par, missing, a, Stripped(rx, k, par.parity, par.seqs, [a], |par.seqs|).value);
    } else {
      TooWide(rx, k, par, missing, a);
    }
  }

  lemma TooWide(rx: Rx, k: Kind, par: Parity, missing: seq<nat>, a: nat)
    requires missing == MissingBelow(rx, par.seqs, |par.seqs|) == [a] && a < |par.seqs| && !AnyHandled(rx, par.seqs)
    requires par.lens[a] <= |par.parity| && Stripped(rx, k, par.parity, par.seqs, [a], |par.seqs|).None?
    ensures Judge(rx, Shares(None, None).With(k, par)).Unrecoverable?
  {
    Judged(rx, Shares(None, None).With(k, par), par, missing);
  }

  lemma LengthTooLong(rx: Rx, shares: Shares, any: Parity, missing: seq<nat>, a: nat)
    requires shares.Any() == Some(any) && missing == MissingBelow(rx, any.seqs, |any.seqs|)
    requires a in missing && any.lens[a] > |any.parity|
    ensures !Judge(rx, shares).Recovered?
  {
  }

  /** The same for a late member, whatever share is parked: with one member left missing, that
      member is recovered if and only if the share is usable, and as sent if and only if, too,
      the share has its length right and agrees with the stream's own on its columns. */
  lemma LateMemberIff(st: Stream, rx: Rx, k: Kind, held: Parity, missing: seq<nat>, a: nat)
    requires Covers(st.frames, held.seqs) && Faithful(st.frames, rx) && !AnyHandled(rx, held.seqs)
    requires missing == MissingBelow(rx, held.seqs, |held.seqs|) == [a] && a < |held.seqs|
    ensures var e := Judge(rx, Shares(None, None).With(k, held));
            && (e.Recovered? <==> Usable(rx, k, held, a))
            && (e.Recovered? ==>
                 (TrueFrames(st, e.items)
                  <==> held.lens[a] == |st.frames[held.seqs[a]]|
                       && RightBelow(k, Members(st.frames, held.seqs), held.parity, held.lens[a])))
  {
    var seqs := held.seqs;
    RecoversIff(rx, k, held, missing, a);
    if Usable(rx, k, held, a) {
      RestIsKnown(rx, seqs);
      var r := Stripped(rx, k, held.parity, seqs, missing, |seqs|).value;
      OneShareIff(rx, st.frames, k, held.parity, seqs, a, r, held.lens[a]);
      OneReconstructed(rx, k, held, missing, a, r);
      OneIsTrue(st, seqs[a], Truncated(Solved(k, r, a), held.lens[a]));
    }
  }

  // ----- a run that mixes two streams

  lemma BothMissing(rx: Rx, seqs: seq<nat>)
    requires |seqs| == 2 && StateOf(rx, seqs[0]).Missing? && StateOf(rx, seqs[1]).Missing?
    ensures MissingBelow(rx, seqs, |seqs|) == [0, 1] && !AnyHandled(rx, seqs)
  {
    ZeroAndOne(MissingBelow(rx, seqs, |seqs|));
  }

  lemma ZeroAndOne(r: seq<nat>)
    requires (forall j :: 0 <= j < |r| ==> r[j] < 2) && (forall i, j :: 0 <= i < j < |r| ==> r[i] < r[j])
    requires 0 in r && 1 in r
    ensures r == [0, 1]
  {
    assert Ascends(r, 0, 1) && Ascends(r, 1, 2);
  }

  ghost predicate Ascends(r: seq<nat>, i: nat, j: nat) {
    i < j < |r| ==> r[i] < r[j]
  }

  lemma PairWidth(x: bytes, y: bytes, members: seq<bytes>)
    requires members == [x, y]
    ensures Width(members) == Longer(x, y)
  {
    assert members[..1] == [x] && members[..1][..0] == [];
    assert Width(members[..1]) == |x|;
  }

  /** For a pair the columns of the longer member are the whole share. */
  lemma WholePair(st: Stream, k: Kind, par: Parity, held: Parity, n: nat)
    requires |par.seqs| == 2 && SentShare(st, par.seqs[0], k, par)
    requires held.seqs == par.seqs && held.lens == par.lens && |held.parity| == |par.parity|
    requires n == Longer(st.frames[par.seqs[0]], st.frames[par.seqs[1]])
    ensures RightBelow(Other(k), Members(st.frames, par.seqs), held.parity, n)
        <==> SentShare(st, par.seqs[0], Other(k), held)
  {
    var members := Members(st.frames, par.seqs);
    PairWidth(st.frames[par.seqs[0]], st.frames[par.seqs[1]], members);
    WholeShare(Other(k), members, held.parity);
  }

  /** A restart over a parked pair, its members of any lengths: the new stream's own other share
      recovers that stream's frames exactly when the parked share happens to be the new
      stream's. */
  lemma RestartMixesStreams(st: Stream, rx: Rx, k: Kind, par: Parity, held: Parity, now: nat, oldest: nat)
    requires |par.seqs| == 2 && par.seqs[1] == par.seqs[0] + 1
    requires SentShare(st, par.seqs[0], k, par) && rx.parityCount >= 2 && Resets(rx, Highest(par.seqs))
    requires held.seqs == par.seqs && held.lens == par.lens && |held.parity| == |par.parity|
    requires HeldShares(rx, par.seqs[0]) == Shares(None, None).With(Other(k), held)
    ensures var out := TryRecover(rx, k, par, now, oldest).1;
            out.OutRecovered? && (TrueFrames(st, out.items) <==> SentShare(st, par.seqs[0], Other(k), held))
  {
    var base, n := NoteSeq(rx, Highest(par.seqs)), Longer(st.frames[par.seqs[0]], st.frames[par.seqs[1]]);
    BothMissing(base, par.seqs);
    HeldShareIff(st, rx, base, k, par, held, 0, 1, n, now, oldest);
    WholePair(st, k, par, held, n);
  }

  lemma OneOfTwo(rx: Rx, k: Kind, held: Parity)
    requires |held.seqs| == 2 && rx.parityCount >= 2
    requires StateOf(rx, held.seqs[0]).Missing? && StateOf(rx, held.seqs[1]).Missing?
    ensures Judge(rx, Shares(None, None).With(k, held)) == NeedMore(held.seqs)
  {
    BothMissing(rx, held.seqs);
    assert SeqsAt(held.seqs, [0, 1]) == held.seqs;
  }

  lemma PendingIsParked(rx: Rx, key: nat, shares: Shares, missing: seq<nat>, now: nat, oldest: nat)
    requires Judge(rx, shares) == NeedMore(missing)
    ensures Settle(rx, key, shares, now, oldest).0 == Park(rx, key, shares, missing, now, oldest)
  {
  }

  /** The first share of a pair, at start-up, is parked. */
  lemma FirstParks(k: Kind, held: Parity, parityCount: nat, start: nat, base: Rx, rx1: Rx)
    requires |held.seqs| == 2 && held.seqs[1] == held.seqs[0] + 1 && parityCount >= 2
    requires base == NoteSeq(NewRx(parityCount, start), Highest(held.seqs))
    requires rx1 == TryRecover(NewRx(parityCount, start), k, held, start, 0).0
    ensures rx1 == Park(base, held.seqs[0], Shares(None, None).With(k, held), held.seqs, start, 0)
  {
    OneOfTwo(base, k, held);
    PendingIsParked(base, held.seqs[0], Shares(None, None).With(k, held), held.seqs, start, 0);
    ShareIsSettled(NewRx(parityCount, start), base, k, held, start, 0);
  }

  lemma ParkedPair(base: Rx, rx1: Rx, key: nat, shares: Shares, missing: seq<nat>, now: nat)
    requires base.parked == map[] && base.parkedBySeq == map[] && rx1 == Park(base, key, shares, missing, now, 0)
    ensures HeldShares(rx1, key) == shares && forall t :: t in rx1.parkedBySeq ==> t in missing
    ensures rx1.highest == base.highest && rx1.parityCount == base.parityCount
    ensures rx1.current == base.current && rx1.previous == base.previous
  {
  }

  lemma FirstParked(k: Kind, held: Parity, parityCount: nat, start: nat, rx1: Rx)
    requires |held.seqs| == 2 && held.seqs[1] == held.seqs[0] + 1 && parityCount >= 2
    requires rx1 == TryRecover(NewRx(parityCount, start), k, held, start, 0).0
    ensures HeldShares(rx1, held.seqs[0]) == Shares(None, None).With(k, held)
    ensures forall t :: t in rx1.parkedBySeq ==> t in held.seqs
    ensures rx1.highest == held.seqs[1] == Highest(held.seqs) && rx1.parityCount == parityCount
    ensures rx1.current == {} && rx1.previous == {}
  {
    var base := NoteSeq(NewRx(parityCount, start), Highest(held.seqs));
    FirstParks(k, held, parityCount, start, base, rx1);
    ParkedPair(base, rx1, held.seqs[0], Shares(None, None).With(k, held), held.seqs, start);
  }

  /** A frame that no parked group waits for leaves the parking alone. */
  lemma FarAhead(rx1: Rx, t: nat, body: bytes, now: nat, rx: Rx)
    requires rx == ObserveData(rx1, t, body, now, 0).rx && t > rx1.highest && !Seen(rx1, t) && t !in rx1.parkedBySeq
    ensures SameParked(rx1, rx) && rx.highest == t
  {
    DataIsAdmitted(rx1, NoteSeq(rx1, t), t, body, now, 0);
    InsertSame(MarkSeen(NoteSeq(rx1, t), t, now), (t, body), now);
  }

  ghost predicate HoldsPair(rx: Rx, k: Kind, held: Parity) {
    rx.parityCount >= 2 && HeldShares(rx, held.seqs[0]) == Shares(None, None).With(k, held)
  }

  lemma FarAheadResets(rx1: Rx, rx: Rx, k: Kind, held: Parity, t: nat, body: bytes, now: nat)
    requires HoldsPair(rx1, k, held) && rx1.highest == Highest(held.seqs) && rx1.current == {} && rx1.previous == {}
    requires t == Highest(held.seqs) + SEQ_RESET_GAP && t !in rx1.parkedBySeq
    requires rx == ObserveData(rx1, t, body, now, 0).rx
    ensures HoldsPair(rx, k, held) && Resets(rx, Highest(held.seqs))
  {
    FarAhead(rx1, t, body, now, rx);
  }

  /** Two events after start-up the receiver is in such a state: one share, and one frame far
      enough ahead. */
  lemma RestartReached(k: Kind, held: Parity, body: bytes, parityCount: nat, start: nat, rx1: Rx, rx: Rx, t: nat)
    requires |held.seqs| == 2 && held.seqs[1] == held.seqs[0] + 1 && parityCount >= 2
    requires rx1 == TryRecover(NewRx(parityCount, start), k, held, start, 0).0
    requires t == held.seqs[1] + SEQ_RESET_GAP && rx == ObserveData(rx1, t, body, start, 0).rx
    ensures HoldsPair(rx, k, held) && Resets(rx, Highest(held.seqs))
  {
    FirstParked(k, held, parityCount, start, rx1);
    FarAheadResets(rx1, rx, k, held, t, body, start);
  }

  lemma RunOfTwo(rx: Rx, es: seq<Event>)
    requires |es| == 2
    ensures RunTo(rx, es) == Step(Step(rx, es[0]).rx, es[1]).rx
  {
    var head := es[..1];
    assert RunTo(rx, head[..0]) == rx && head[0] == es[0];
    assert RunTo(rx, head) == Step(rx, es[0]).rx;
  }

  lemma ShareThenFrame(rx: Rx, k: Kind, held: Parity, t: nat, body: bytes, now: nat, es: seq<Event>)
    requires es == [ParityShare(k, held, now, 0), Data(t, body, now, 0)]
    ensures RunTo(rx, es) == ObserveData(TryRecover(rx, k, held, now, 0).0, t, body, now, 0).rx
  {
    RunOfTwo(rx, es);
  }

  lemma ShareRecovers(st: Stream, rx: Rx, k: Kind, par: Parity, now: nat, good: bool)
    requires TryRecover(rx, k, par, now, 0).1.OutRecovered?
    requires TrueFrames(st, TryRecover(rx, k, par, now, 0).1.items) <==> good
    ensures TrueFrames(st, Step(rx, ParityShare(k, par, now, 0)).recovered) <==> good
  {
  }

  /** So from start-up, for every stream and every pair of it: a share of an older stream for
      that pair, one far frame, and then the stream's own other share recover two frames, and
      they are the stream's exactly when the older share is. */
  lemma MixedRun(st: Stream, k: Kind, par: Parity, held: Parity, body: bytes, parityCount: nat, start: nat,
                 es: seq<Event>)
    requires |par.seqs| == 2 && par.seqs[1] == par.seqs[0] + 1 && SentShare(st, par.seqs[0], k, par) && parityCount >= 2
    requires held.seqs == par.seqs && held.lens == par.lens && |held.parity| == |par.parity|
    requires es == [ParityShare(Other(k), held, start, 0), Data(par.seqs[1] + SEQ_RESET_GAP, body, start, 0)]
    ensures var next := Step(RunTo(NewRx(parityCount, start), es), ParityShare(k, par, start, 0));
            TrueFrames(st, next.recovered) <==> SentShare(st, par.seqs[0], Other(k), held)
  {
    var rx0, t := NewRx(parityCount, start), par.seqs[1] + SEQ_RESET_GAP;
    var rx1, rx := TryRecover(rx0, Other(k), held, start, 0).0, RunTo(rx0, es);
    ShareThenFrame(rx0, Other(k), held, t, body, start, es);
    RestartReached(Other(k), held, body, parityCount, start, rx1, rx, t);
    RestartMixesStreams(st, rx, k, par, held, start, 0);
    ShareRecovers(st, rx, k, par, start, SentShare(st, par.seqs[0], Other(k), held));
  }
}
