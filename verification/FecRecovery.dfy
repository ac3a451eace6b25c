/** Reconstruction is exact: on genuine shares and a faithful payload cache, the receiver
    recovers every missing member byte for byte, and does so exactly when it can. */
module FecRecovery {
  import opened Bytes
  import opened Gf
  import opened GfTables
  import opened FecGroup
  import opened FecReceiver

  /** What the sender transmitted under each sequence number. */
  type Truth = map<nat, bytes>

  ghost predicate Covers(truth: Truth, seqs: seq<nat>) {
    forall i :: 0 <= i < |seqs| ==> seqs[i] in truth
  }

  ghost function Members(truth: Truth, seqs: seq<nat>): (r: seq<bytes>)
    requires Covers(truth, seqs)
    ensures |r| == |seqs|
  {
    seq(|seqs|, i requires 0 <= i < |seqs| => truth[seqs[i]])
  }

  /** The share a sender of `truth` produces for the group `par.seqs`. */
  ghost predicate Genuine(truth: Truth, k: Kind, par: ParityData) {
    && Covers(truth, par.seqs)
    && par.lens == Lens(Members(truth, par.seqs))
    && par.parity == Share(k, Members(truth, par.seqs))
  }

  ghost predicate GenuineShares(truth: Truth, shares: Shares) {
    && (shares.p.Some? ==> Genuine(truth, P, shares.p.value))
    && (shares.q.Some? ==> Genuine(truth, Q, shares.q.value))
    && (shares.p.Some? && shares.q.Some? ==> shares.p.value.seqs == shares.q.value.seqs)
  }

  /** Every cached payload is the frame that was sent. */
  ghost predicate Faithful(truth: Truth, rx: Rx) {
    forall s :: s in rx.payloads ==> s in truth && rx.payloads[s].body == truth[s]
  }

  ghost predicate RestKnown(rx: Rx, seqs: seq<nat>, missing: seq<nat>) {
    forall i :: 0 <= i < |seqs| && i !in missing ==> seqs[i] in rx.payloads
  }

  /** Column `j` of the missing members' contribution below position `n`. */
  ghost function MissingColumn(k: Kind, members: seq<bytes>, missing: seq<nat>, j: nat, n: nat): byte
    requires n <= |members|
  {
    if n == 0 then 0
    else
      var rest := MissingColumn(k, members, missing, j, n - 1);
      if n - 1 in missing then Add(rest, Mul(Coef(k, n - 1), At(members[n - 1], j))) else rest
  }

  lemma {:induction false} StrippedSome(rx: Rx, truth: Truth, k: Kind, share: bytes, seqs: seq<nat>,
                                        missing: seq<nat>, n: nat)
    requires n <= |seqs| && Covers(truth, seqs) && Faithful(truth, rx) && RestKnown(rx, seqs, missing)
    requires |share| == Width(Members(truth, seqs))
    ensures Stripped(rx, k, share, seqs, missing, n).Some?
  {
    if n > 0 {
      StrippedSome(rx, truth, k, share, seqs, missing, n - 1);
      WidthCovers(Members(truth, seqs), n - 1);
    }
  }

  lemma AddMoved(r: byte, c: byte, s: byte, m: byte, t: byte)
    requires Add(r, c) == Add(s, m)
    ensures Add(r, Add(c, t)) == Add(s, Add(m, t))
    ensures Add(Add(r, t), Add(c, t)) == Add(s, m)
  {
    XorAssoc(r, c, t);
    XorAssoc(s, m, t);
    XorSwap(r, t, c, t);
    XorSelf(t);
    XorComm(Xor(r, c), 0);
  }

  ghost predicate ColumnStripped(rx: Rx, truth: Truth, k: Kind, share: bytes, seqs: seq<nat>, missing: seq<nat>,
                                 n: nat, j: nat)
    requires n <= |seqs| && Covers(truth, seqs) && j < |share|
  {
    var r := Stripped(rx, k, share, seqs, missing, n);
    r.Some? && Add(r.value[j], Column(k, Members(truth, seqs)[..n], j))
               == Add(share[j], MissingColumn(k, Members(truth, seqs), missing, j, n))
  }

  /** What removing one known member does to a column. */
  lemma StrippedMember(rx: Rx, truth: Truth, k: Kind, share: bytes, seqs: seq<nat>, missing: seq<nat>, n: nat,
                       j: nat, t: byte)
    requires n < |seqs| && Covers(truth, seqs) && Faithful(truth, rx) && RestKnown(rx, seqs, missing)
    requires j < |share| && n !in missing && Stripped(rx, k, share, seqs, missing, n + 1).Some?
        && t == Mul(Coef(k, n), At(Members(truth, seqs)[n], j))
    ensures Stripped(rx, k, share, seqs, missing, n + 1).value[j] == Add(Stripped(rx, k, share, seqs, missing, n).value[j], t)
  {
    var members := Members(truth, seqs);
    assert rx.payloads[seqs[n]].body == members[n];
    if j >= |members[n]| {
      MulZero(Coef(k, n));
    }
  }

  lemma StrippedNext(rx: Rx, truth: Truth, k: Kind, share: bytes, seqs: seq<nat>, missing: seq<nat>, n: nat, j: nat)
    requires n < |seqs| && Covers(truth, seqs) && Faithful(truth, rx) && RestKnown(rx, seqs, missing)
    requires j < |share| && ColumnStripped(rx, truth, k, share, seqs, missing, n, j)
    requires Stripped(rx, k, share, seqs, missing, n + 1).Some?
    ensures ColumnStripped(rx, truth, k, share, seqs, missing, n + 1, j)
  {
    var members := Members(truth, seqs);
    assert members[..n + 1][..n] == members[..n];
    var t := Mul(Coef(k, n), At(members[n], j));
    var r := Stripped(rx, k, share, seqs, missing, n).value[j];
    AddMoved(r, Column(k, members[..n], j), share[j], MissingColumn(k, members, missing, j, n), t);
    if n !in missing {
      StrippedMember(rx, truth, k, share, seqs, missing, n, j, t);
    }
  }

  /** Removing the known members below `n`, when none is wider than the share, leaves the share
      plus the rest of the group, whether or not the share is genuine. */
  lemma {:induction false} StrippedColumn(rx: Rx, truth: Truth, k: Kind, share: bytes, seqs: seq<nat>,
                                          missing: seq<nat>, n: nat, j: nat)
    requires n <= |seqs| && Covers(truth, seqs) && Faithful(truth, rx) && RestKnown(rx, seqs, missing)
    requires j < |share| && Stripped(rx, k, share, seqs, missing, n).Some?
    ensures ColumnStripped(rx, truth, k, share, seqs, missing, n, j)
    decreases n
  {
    if n > 0 {
      StrippedColumn(rx, truth, k, share, seqs, missing, n - 1, j);
      StrippedNext(rx, truth, k, share, seqs, missing, n - 1, j);
    }
  }

  /** With every known member removed, only the missing members remain. */
  lemma StrippedIsMissing(rx: Rx, truth: Truth, k: Kind, seqs: seq<nat>, missing: seq<nat>, j: nat)
    requires Covers(truth, seqs) && Faithful(truth, rx) && RestKnown(rx, seqs, missing)
    requires j < Width(Members(truth, seqs))
    ensures Stripped(rx, k, Share(k, Members(truth, seqs)), seqs, missing, |seqs|).Some?
    ensures Stripped(rx, k, Share(k, Members(truth, seqs)), seqs, missing, |seqs|).value[j]
         == MissingColumn(k, Members(truth, seqs), missing, j, |seqs|)
  {
    var members := Members(truth, seqs);
    var share := Share(k, members);
    StrippedSome(rx, truth, k, share, seqs, missing, |seqs|);
    StrippedColumn(rx, truth, k, share, seqs, missing, |seqs|, j);
    assert members[..|seqs|] == members;
    var r := Stripped(rx, k, share, seqs, missing, |seqs|).value[j];
    var m := MissingColumn(k, members, missing, j, |seqs|);
    XorComm(r, share[j]);
    XorCancel(share[j], r);
    XorCancel(share[j], m);
  }

  ghost function Term(k: Kind, members: seq<bytes>, i: nat, j: nat): byte
    requires i < |members|
  {
    Mul(Coef(k, i), At(members[i], j))
  }

  lemma {:induction false} OneMissing(k: Kind, members: seq<bytes>, a: nat, j: nat, n: nat)
    requires n <= |members| && a < |members|
    ensures MissingColumn(k, members, [a], j, n) == (if a < n then Term(k, members, a, j) else 0)
  {
    if n > 0 {
      OneMissing(k, members, a, j, n - 1);
    }
  }

  lemma {:induction false} TwoMissing(k: Kind, members: seq<bytes>, a: nat, b: nat, j: nat, n: nat)
    requires n <= |members| && a < b < |members|
    ensures MissingColumn(k, members, [a, b], j, n)
         == (if b < n then Add(Term(k, members, a, j), Term(k, members, b, j))
             else if a < n then Term(k, members, a, j) else 0)
  {
    if n > 0 {
      TwoMissing(k, members, a, b, j, n - 1);
    }
  }

  lemma TruncatedIs(data: bytes, body: bytes)
    requires |body| <= |data|
    requires forall j :: 0 <= j < |data| ==> data[j] == At(body, j)
    ensures Truncated(data, |body|) == body
  {
  }

  /** One missing member is recovered from either share alone. */
  lemma RecoverOne(rx: Rx, truth: Truth, k: Kind, seqs: seq<nat>, a: nat)
    requires Covers(truth, seqs) && Faithful(truth, rx) && RestKnown(rx, seqs, [a]) && a < |seqs|
    ensures var r := Stripped(rx, k, Share(k, Members(truth, seqs)), seqs, [a], |seqs|);
            && r.Some?
            && Truncated(if k.P? then SolvedOne(r, None, a).value else SolvedOne(None, r, a).value, |truth[seqs[a]]|)
            == truth[seqs[a]]
  {
    var members := Members(truth, seqs);
    StrippedSome(rx, truth, k, Share(k, members), seqs, [a], |seqs|);
    WidthCovers(members, a);
    PowerNonZero(a);
    var r := Stripped(rx, k, Share(k, members), seqs, [a], |seqs|).value;
    var data := if k.P? then r else Scaled(r, Inv(Power(a)));
    forall j | 0 <= j < |data| ensures data[j] == At(members[a], j) {
      StrippedIsMissing(rx, truth, k, seqs, [a], j);
      OneMissing(k, members, a, j, |seqs|);
      OneTimes(At(members[a], j));
      SolveOne(Power(a), At(members[a], j));
    }
    TruncatedIs(data, members[a]);
  }

  /** Two missing members are recovered from both shares together. */
  lemma RecoverTwo(rx: Rx, truth: Truth, seqs: seq<nat>, a: nat, b: nat)
    requires Covers(truth, seqs) && Faithful(truth, rx) && RestKnown(rx, seqs, [a, b])
    requires a < b < |seqs| <= 255
    ensures var p := Stripped(rx, P, Share(P, Members(truth, seqs)), seqs, [a, b], |seqs|);
            var q := Stripped(rx, Q, Share(Q, Members(truth, seqs)), seqs, [a, b], |seqs|);
            && p.Some? && q.Some?
            && Truncated(SolvedTwo(p.value, q.value, a, b).0, |truth[seqs[a]]|) == truth[seqs[a]]
            && Truncated(SolvedTwo(p.value, q.value, a, b).1, |truth[seqs[b]]|) == truth[seqs[b]]
  {
    var members := Members(truth, seqs);
    StrippedSome(rx, truth, P, Share(P, members), seqs, [a, b], |seqs|);
    StrippedSome(rx, truth, Q, Share(Q, members), seqs, [a, b], |seqs|);
    WidthCovers(members, a);
    WidthCovers(members, b);
    var p := Stripped(rx, P, Share(P, members), seqs, [a, b], |seqs|).value;
    var q := Stripped(rx, Q, Share(Q, members), seqs, [a, b], |seqs|).value;
    var (da, db) := SolvedTwo(p, q, a, b);
    forall j | 0 <= j < |p| ensures da[j] == At(members[a], j) && db[j] == At(members[b], j) {
      StrippedIsMissing(rx, truth, P, seqs, [a, b], j);
      StrippedIsMissing(rx, truth, Q, seqs, [a, b], j);
      TwoMissing(P, members, a, b, j, |seqs|);
      TwoMissing(Q, members, a, b, j, |seqs|);
      SolvedTwoColumn(p, q, a, b, At(members[a], j), At(members[b], j), j);
    }
    TruncatedIs(da, members[a]);
    TruncatedIs(db, members[b]);
  }

  lemma SolvedTwoColumn(p: bytes, q: bytes, a: nat, b: nat, x: byte, y: byte, j: nat)
    requires |p| == |q| && a < b < 255 && j < |p|
    requires p[j] == Add(Mul(1, x), Mul(1, y)) && q[j] == Add(Mul(Power(a), x), Mul(Power(b), y))
    ensures var (da, db) := SolvedTwo(p, q, a, b); da[j] == x && db[j] == y
  {
    PowerDistinct(a, b);
    OneTimes(x);
    OneTimes(y);
    SolveTwo(Power(a), Power(b), x, y, p[j], q[j]);
    OneTimes(SolvedTwo(p, q, a, b).1[j]);
  }

  function ShareCount(shares: Shares): nat {
    (if shares.p.Some? then 1 else 0) + (if shares.q.Some? then 1 else 0)
  }

  ghost function FramesAt(truth: Truth, seqs: seq<nat>, idx: seq<nat>): (r: seq<Frame>)
    requires Covers(truth, seqs) && forall j :: 0 <= j < |idx| ==> idx[j] < |seqs|
    ensures |r| == |idx|
  {
    seq(|idx|, j requires 0 <= j < |idx| => (seqs[idx[j]], truth[seqs[idx[j]]]))
  }

  /** Still to come: not at hand, in neither seen generation, above the floor and less than
      65536 behind the highest number. */
  ghost predicate Outstanding(rx: Rx, s: nat) {
    && s !in rx.payloads && s !in rx.current && s !in rx.previous
    && (rx.floor.Some? ==> rx.floor.value < s) && rx.highest < s + 65_536
  }

  /** The positions below `n` whose member is outstanding, in order. */
  ghost function Lacking(rx: Rx, seqs: seq<nat>, n: nat): (r: seq<nat>)
    requires n <= |seqs|
    ensures forall j :: 0 <= j < |r| ==> r[j] < n
  {
    if n == 0 then []
    else Lacking(rx, seqs, n - 1) + if Outstanding(rx, seqs[n - 1]) then [n - 1] else []
  }

  /** Some member is neither at hand nor to come. */
  ghost predicate Lost(rx: Rx, seqs: seq<nat>) {
    exists i :: 0 <= i < |seqs| && seqs[i] !in rx.payloads && !Outstanding(rx, seqs[i])
  }

  lemma OutstandingIsMissing(rx: Rx, s: nat)
    ensures StateOf(rx, s).Missing? <==> Outstanding(rx, s)
    ensures StateOf(rx, s).Known? <==> s in rx.payloads
  {
  }

  lemma {:induction false} LackingIsMissing(rx: Rx, seqs: seq<nat>, n: nat)
    requires n <= |seqs|
    ensures Lacking(rx, seqs, n) == MissingBelow(rx, seqs, n)
  {
    if n > 0 {
      LackingIsMissing(rx, seqs, n - 1);
      OutstandingIsMissing(rx, seqs[n - 1]);
    }
  }

  lemma LostIsHandled(rx: Rx, seqs: seq<nat>)
    ensures Lost(rx, seqs) <==> AnyHandled(rx, seqs)
  {
    forall i | 0 <= i < |seqs|
      ensures StateOf(rx, seqs[i]).Handled? <==> seqs[i] !in rx.payloads && !Outstanding(rx, seqs[i])
    {
      OutstandingIsMissing(rx, seqs[i]);
    }
  }

  /** What an erasure code with one equation per share promises: as many outstanding members as
      shares are recovered, provided that every other member is at hand. */
  ghost function Promised(rx: Rx, shares: Shares, truth: Truth): Eval
    requires shares.Any().Some? && Covers(truth, shares.Any().value.seqs)
  {
    var seqs := shares.Any().value.seqs;
    var lacking := Lacking(rx, seqs, |seqs|);
    if lacking == [] then AlreadyComplete
    else if Lost(rx, seqs) || |lacking| > (if rx.parityCount >= 2 then 2 else 1) then Unrecoverable
    else if |lacking| > ShareCount(shares) then NeedMore(SeqsAt(seqs, lacking))
    else Recovered(FramesAt(truth, seqs, lacking))
  }

  lemma RestIsKnown(rx: Rx, seqs: seq<nat>)
    requires !AnyHandled(rx, seqs)
    ensures RestKnown(rx, seqs, MissingBelow(rx, seqs, |seqs|))
  {
    forall i | 0 <= i < |seqs| && i !in MissingBelow(rx, seqs, |seqs|) ensures seqs[i] in rx.payloads {
      assert !StateOf(rx, seqs[i]).Handled?;
    }
  }

  lemma LensFit(truth: Truth, k: Kind, par: Parity, i: nat)
    requires Genuine(truth, k, par) && i < |par.seqs|
    ensures par.lens[i] == |truth[par.seqs[i]]| <= |par.parity|
  {
    WidthCovers(Members(truth, par.seqs), i);
  }

  lemma OneFrame(truth: Truth, seqs: seq<nat>, a: nat)
    requires Covers(truth, seqs) && a < |seqs|
    ensures FramesAt(truth, seqs, [a]) == [(seqs[a], truth[seqs[a]])]
  {
  }

  lemma ReconstructUnfolded(rx: Rx, shares: Shares, seqs: seq<nat>, a: nat, missing: seq<nat>)
    requires shares.p.Some? && Consistent(shares) && seqs == shares.p.value.seqs && missing == [a] && a < |seqs|
    requires missing == MissingBelow(rx, seqs, |seqs|)
    requires Stripped(rx, P, shares.p.value.parity, seqs, missing, |seqs|).Some?
    requires shares.q.Some? ==> Stripped(rx, Q, shares.q.value.parity, seqs, missing, |seqs|).Some?
    ensures var r := Stripped(rx, P, shares.p.value.parity, seqs, missing, |seqs|);
            Reconstruct(rx, shares, missing)
            == Recovered([(seqs[a], Truncated(SolvedOne(r, None, a).value, shares.p.value.lens[a]))])
  {
  }

  lemma ReconstructFromP(rx: Rx, shares: Shares, truth: Truth, seqs: seq<nat>, a: nat, missing: seq<nat>)
    requires shares.p.Some? && GenuineShares(truth, shares) && Consistent(shares) && Faithful(truth, rx)
    requires seqs == shares.p.value.seqs && missing == [a] && a < |seqs|
    requires missing == MissingBelow(rx, seqs, |seqs|) && RestKnown(rx, seqs, missing)
    ensures Reconstruct(rx, shares, missing) == Recovered([(seqs[a], truth[seqs[a]])])
  {
    RecoverOne(rx, truth, P, seqs, a);
    if shares.q.Some? {
      StrippedSome(rx, truth, Q, shares.q.value.parity, seqs, missing, |seqs|);
    }
    ReconstructUnfolded(rx, shares, seqs, a, missing);
  }

  lemma ReconstructFromQ(rx: Rx, shares: Shares, truth: Truth, seqs: seq<nat>, a: nat, missing: seq<nat>)
    requires shares.p.None? && shares.q.Some? && GenuineShares(truth, shares) && Consistent(shares) && Faithful(truth, rx)
    requires seqs == shares.q.value.seqs && missing == [a] && a < |seqs|
    requires missing == MissingBelow(rx, seqs, |seqs|) && RestKnown(rx, seqs, missing)
    ensures Reconstruct(rx, shares, missing) == Recovered([(seqs[a], truth[seqs[a]])])
  {
    RecoverOne(rx, truth, Q, seqs, a);
  }

  lemma ReconstructOne(rx: Rx, shares: Shares, truth: Truth, missing: seq<nat>)
    requires shares.Any().Some? && GenuineShares(truth, shares) && Consistent(shares) && Faithful(truth, rx)
    requires var seqs := shares.Any().value.seqs;
             && missing == MissingBelow(rx, seqs, |seqs|) && |missing| == 1
             && RestKnown(rx, seqs, missing)
    ensures Reconstruct(rx, shares, missing) == Recovered(FramesAt(truth, shares.Any().value.seqs, missing))
  {
    var seqs, a := shares.Any().value.seqs, missing[0];
    assert missing == [a];
    OneFrame(truth, seqs, a);
    if shares.p.Some? {
      ReconstructFromP(rx, shares, truth, seqs, a, missing);
    } else {
      ReconstructFromQ(rx, shares, truth, seqs, a, missing);
    }
  }

  lemma ReconstructTwo(rx: Rx, shares: Shares, truth: Truth, missing: seq<nat>)
    requires shares.p.Some? && shares.q.Some? && GenuineShares(truth, shares) && Consistent(shares)
    requires Faithful(truth, rx)
    requires var seqs := shares.p.value.seqs;
             && missing == MissingBelow(rx, seqs, |seqs|) && |missing| == 2
             && RestKnown(rx, seqs, missing)
    ensures Reconstruct(rx, shares, missing) == Recovered(FramesAt(truth, shares.p.value.seqs, missing))
  {
    var seqs := shares.p.value.seqs;
    var a, b := missing[0], missing[1];
    assert missing == [a, b];
    RecoverTwo(rx, truth, seqs, a, b);
    assert FramesAt(truth, seqs, missing) == [(seqs[a], truth[seqs[a]]), (seqs[b], truth[seqs[b]])];
  }

  lemma GenuineConsistent(truth: Truth, shares: Shares)
    requires GenuineShares(truth, shares)
    ensures Consistent(shares)
    ensures shares.Any().Some? ==>
              var any := shares.Any().value; forall i :: 0 <= i < |any.lens| ==> any.lens[i] <= |any.parity|
  {
    if shares.Any().Some? {
      var any := shares.Any().value;
      forall i | 0 <= i < |any.lens| ensures any.lens[i] <= |any.parity| {
        LensFit(truth, if shares.p.Some? then P else Q, any, i);
      }
    }
  }

  /** The verdict on a group of genuine shares is exactly what the code promises. */
  lemma JudgeKeepsPromise(rx: Rx, shares: Shares, truth: Truth)
    requires shares.Any().Some? && GenuineShares(truth, shares) && Faithful(truth, rx)
    ensures Covers(truth, shares.Any().value.seqs)
    ensures Judge(rx, shares) == Promised(rx, shares, truth)
  {
    var any := shares.Any().value;
    var missing := MissingBelow(rx, any.seqs, |any.seqs|);
    LackingIsMissing(rx, any.seqs, |any.seqs|);
    LostIsHandled(rx, any.seqs);
    if Promised(rx, shares, truth).Recovered? {
      GenuineConsistent(truth, shares);
      RestIsKnown(rx, any.seqs);
      if |missing| == 1 {
        ReconstructOne(rx, shares, truth, missing);
      } else {
        ReconstructTwo(rx, shares, truth, missing);
      }
    }
  }
}
