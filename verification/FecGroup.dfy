/** Parity groups: what a share is, which shares are genuine, and the sender that
    accumulates them. */
module FecGroup {
  import opened Bytes
  import opened Gf
  import opened GfTables

  /** The two equations a group can be protected by: members summed as they are (P), or each
      times its own power of two (Q). */
  datatype Kind = P | Q

  datatype ParityData = Parity(seqs: seq<nat>, lens: seq<nat>, parity: bytes)

  /** A member count fits one byte on the wire. */
  type WireParity = p: ParityData | |p.seqs| <= 255 witness Parity([], [], [])

  /** A share that passed the receiver's first check. */
  type Parity = p: ParityData | 0 < |p.seqs| == |p.lens| <= 255 witness Parity([0], [0], [])

  /** A Data frame: its sequence number and plaintext. */
  type Frame = (nat, bytes)

  /** Byte `j` of a member, zero beyond its end. */
  function At(b: bytes, j: nat): byte {
    if j < |b| then b[j] else 0
  }

  /** The weight of member `i` in a share. */
  function Coef(k: Kind, i: nat): byte {
    if k.P? then 1 else Power(i)
  }

  /** Column `j` of a share: the weighted sum of every member's byte `j`. */
  function Column(k: Kind, members: seq<bytes>, j: nat): byte {
    if members == [] then 0
    else
      var i := |members| - 1;
      Add(Column(k, members[..i], j), Mul(Coef(k, i), At(members[i], j)))
  }

  function Width(members: seq<bytes>): nat {
    if members == [] then 0
    else
      var i := |members| - 1;
      var w := Width(members[..i]);
      if |members[i]| > w then |members[i]| else w
  }

  /** The share of a complete group. */
  function Share(k: Kind, members: seq<bytes>): (s: bytes)
    ensures |s| == Width(members)
  {
    seq(Width(members), j requires j >= 0 => Column(k, members, j))
  }

  lemma {:induction false} WidthCovers(members: seq<bytes>, i: nat)
    requires i < |members|
    ensures |members[i]| <= Width(members)
  {
    var n := |members| - 1;
    if i < n {
      WidthCovers(members[..n], i);
      assert members[..n][i] == members[i];
    }
  }

  /** Past the width a share would only hold zeros. */
  lemma {:induction false} ColumnBeyondWidth(k: Kind, members: seq<bytes>, j: nat)
    requires j >= Width(members)
    ensures Column(k, members, j) == 0
  {
    if members != [] {
      var i := |members| - 1;
      ColumnBeyondWidth(k, members[..i], j);
      MulZero(Coef(k, i));
    }
  }

  // ----- the sender

  /** The accumulator of one tunnel; `links` records which link carried each member. */
  datatype Sender = Sender(groupSize: nat, withQ: bool, seqs: seq<nat>, lens: seq<nat>,
                           links: seq<nat>, parity: bytes, q: bytes)

  datatype Group = Group(p: ParityData, q: Option<ParityData>, links: seq<nat>)

  function NewSender(groupSize: nat, parityCount: nat): Sender {
    Sender(groupSize, parityCount >= 2, [], [], [], [], [])
  }

  function Resized(b: bytes, n: nat): (r: bytes)
    ensures |r| == if n > |b| then n else |b|
  {
    if n > |b| then b + seq(n - |b|, _ => 0) else b
  }

  /** One frame folded into the group; the lengths travel as 16-bit numbers. */
  function Accumulate(s: Sender, seqno: nat, plaintext: bytes, link: nat): (Sender, Option<Group>) {
    var n := |plaintext|;
    var parity := Accumulated(Resized(s.parity, n), plaintext, 1);
    var q := if s.withQ then Accumulated(Resized(s.q, n), plaintext, Power(|s.seqs|)) else s.q;
    var seqs, lens, links := s.seqs + [seqno], s.lens + [n % 65536], s.links + [link];
    if |seqs| < s.groupSize then
      (Sender(s.groupSize, s.withQ, seqs, lens, links, parity, q), None)
    else
      (Sender(s.groupSize, s.withQ, [], [], [], [], if s.withQ then [] else q),
       Some(Group(Parity(seqs, lens, parity), if s.withQ then Some(Parity(seqs, lens, q)) else None, links)))
  }

  function Seqs(frames: seq<Frame>): (r: seq<nat>)
    ensures |r| == |frames|
  {
    seq(|frames|, i requires 0 <= i < |frames| => frames[i].0)
  }

  function Bodies(frames: seq<Frame>): (r: seq<bytes>)
    ensures |r| == |frames|
  {
    seq(|frames|, i requires 0 <= i < |frames| => frames[i].1)
  }

  function Lens(members: seq<bytes>): (r: seq<nat>)
    ensures |r| == |members|
  {
    seq(|members|, i requires 0 <= i < |members| => |members[i]|)
  }

  /** What the accumulator holds part-way through a group of `frames`. */
  ghost predicate Holds(s: Sender, frames: seq<Frame>) {
    && s.seqs == Seqs(frames)
    && s.lens == Lens(Bodies(frames))
    && |s.links| == |frames|
    && s.parity == Share(P, Bodies(frames))
    && s.q == (if s.withQ then Share(Q, Bodies(frames)) else [])
  }

  lemma ShareAppend(k: Kind, members: seq<bytes>, body: bytes)
    ensures Accumulated(Resized(Share(k, members), |body|), body, Coef(k, |members|)) == Share(k, members + [body])
  {
    var after := members + [body];
    assert after[..|members|] == members;
    var got := Accumulated(Resized(Share(k, members), |body|), body, Coef(k, |members|));
    assert |got| == Width(after);
    forall j | 0 <= j < |got| ensures got[j] == Column(k, after, j) {
      ColumnAppend(k, members, body, j);
    }
  }

  lemma ColumnAppend(k: Kind, members: seq<bytes>, body: bytes, j: nat)
    requires j < Width(members) || j < |body|
    ensures Resized(Share(k, members), |body|)[j] == Column(k, members, j)
    ensures Accumulated(Resized(Share(k, members), |body|), body, Coef(k, |members|))[j]
         == Column(k, members + [body], j)
  {
    var after := members + [body];
    assert after[..|members|] == members;
    if j >= Width(members) {
      ColumnBeyondWidth(k, members, j);
    }
    if j >= |body| {
      MulZero(Coef(k, |members|));
    }
  }

  /** The two shares of a complete group of `frames`. */
  ghost function GroupOf(withQ: bool, frames: seq<Frame>, links: seq<nat>): Group {
    Group(ShareOf(P, frames), if withQ then Some(ShareOf(Q, frames)) else None, links)
  }

  ghost function ShareOf(k: Kind, frames: seq<Frame>): ParityData {
    Parity(Seqs(frames), Lens(Bodies(frames)), Share(k, Bodies(frames)))
  }

  /** Feeding one more frame either extends the group or, when it is the last member, emits
      exactly the group's shares and starts afresh. */
  lemma AccumulateMember(s: Sender, frames: seq<Frame>, seqno: nat, body: bytes, link: nat)
    requires Holds(s, frames) && |body| < 65536 && |frames| < 255
    ensures var (s', g) := Accumulate(s, seqno, body, link);
            var frames' := frames + [(seqno, body)];
            && s'.groupSize == s.groupSize && s'.withQ == s.withQ
            && (g.None? <==> |frames'| < s.groupSize)
            && (g.None? ==> Holds(s', frames') && s'.links == s.links + [link])
            && (g.Some? ==> g.value == GroupOf(s.withQ, frames', s.links + [link]) && Holds(s', []) && s'.links == [])
  {
    assert |body| % 65536 == |body|;
    ListsAppend(frames, seqno, body);
    ShareAppend(P, Bodies(frames), body);
    ShareAppend(Q, Bodies(frames), body);
    assert Share(P, []) == [] && Share(Q, []) == [];
  }

  lemma ListsAppend(frames: seq<Frame>, seqno: nat, body: bytes)
    ensures var frames' := frames + [(seqno, body)];
            && Bodies(frames') == Bodies(frames) + [body] && Seqs(frames') == Seqs(frames) + [seqno]
            && Lens(Bodies(frames')) == Lens(Bodies(frames)) + [|body|]
  {
  }

  /** A frame handed to the sender, with the link that carried it. */
  datatype Fed = Fed(seqno: nat, body: bytes, link: nat)

  function SendAll(s: Sender, fed: seq<Fed>): (Sender, seq<Group>) {
    if fed == [] then (s, [])
    else
      var n := |fed| - 1;
      var (s1, groups) := SendAll(s, fed[..n]);
      var (s2, g) := Accumulate(s1, fed[n].seqno, fed[n].body, fed[n].link);
      (s2, if g.Some? then groups + [g.value] else groups)
  }

  function FramesOf(fed: seq<Fed>): (r: seq<Frame>)
    ensures |r| == |fed|
  {
    seq(|fed|, i requires 0 <= i < |fed| => (fed[i].seqno, fed[i].body))
  }

  function Flat<T>(chunks: seq<seq<T>>): seq<T> {
    if chunks == [] then [] else Flat(chunks[..|chunks| - 1]) + chunks[|chunks| - 1]
  }

  /** The groups emitted, in order, cover the frames fed, in order, without gap or overlap;
      the frames after the last complete group are the ones still held. */
  ghost predicate Covered(s: Sender, groups: seq<Group>, frames: seq<Frame>,
                          chunks: seq<seq<Frame>>, tail: seq<Frame>) {
    && Holds(s, tail) && |tail| < s.groupSize
    && frames == Flat(chunks) + tail
    && Describe(s.groupSize, s.withQ, groups, chunks)
  }

  ghost predicate Describe(size: nat, withQ: bool, groups: seq<Group>, chunks: seq<seq<Frame>>) {
    && |groups| == |chunks|
    && forall g :: 0 <= g < |groups| ==>
         |chunks[g]| == size && groups[g] == GroupOf(withQ, chunks[g], groups[g].links)
  }

  lemma DescribeAppend(size: nat, withQ: bool, groups: seq<Group>, chunks: seq<seq<Frame>>, g: Group, c: seq<Frame>)
    requires Describe(size, withQ, groups, chunks) && |c| == size && g == GroupOf(withQ, c, g.links)
    ensures Describe(size, withQ, groups + [g], chunks + [c])
  {
  }

  lemma CoveredMember(s: Sender, groups: seq<Group>, frames: seq<Frame>, chunks: seq<seq<Frame>>,
                      tail: seq<Frame>, seqno: nat, body: bytes, link: nat)
      returns (chunks': seq<seq<Frame>>, tail': seq<Frame>)
    requires Covered(s, groups, frames, chunks, tail) && |body| < 65536 && s.groupSize <= 255
    ensures var (s', g) := Accumulate(s, seqno, body, link);
            && s'.groupSize == s.groupSize && s'.withQ == s.withQ
            && Covered(s', if g.Some? then groups + [g.value] else groups, frames + [(seqno, body)], chunks', tail')
  {
    AccumulateMember(s, tail, seqno, body, link);
    var (s', g) := Accumulate(s, seqno, body, link);
    chunks', tail' := CoveredAfter(s, groups, frames, chunks, tail, (seqno, body), s', g);
  }

  lemma CoveredAfter(s: Sender, groups: seq<Group>, frames: seq<Frame>, chunks: seq<seq<Frame>>,
                     tail: seq<Frame>, f: Frame, s': Sender, g: Option<Group>)
      returns (chunks': seq<seq<Frame>>, tail': seq<Frame>)
    requires Covered(s, groups, frames, chunks, tail)
    requires s'.groupSize == s.groupSize && s'.withQ == s.withQ
    requires g.None? <==> |tail| + 1 < s.groupSize
    requires g.None? ==> Holds(s', tail + [f])
    requires g.Some? ==> g.value == GroupOf(s.withQ, tail + [f], g.value.links) && Holds(s', [])
    ensures Covered(s', if g.Some? then groups + [g.value] else groups, frames + [f], chunks', tail')
  {
    var all := tail + [f];
    assert Flat(chunks) + tail + [f] == Flat(chunks) + all;
    if g.None? {
      chunks', tail' := chunks, all;
    } else {
      chunks', tail' := chunks + [all], [];
      FlatAppend(chunks, all);
      DescribeAppend(s.groupSize, s.withQ, groups, chunks, g.value, all);
    }
  }

  lemma FlatAppend<T>(chunks: seq<seq<T>>, c: seq<T>)
    ensures Flat(chunks + [c]) == Flat(chunks) + c
  {
    assert (chunks + [c])[..|chunks|] == chunks;
  }

  lemma NewCovers(groupSize: nat, parityCount: nat)
    requires 0 < groupSize
    ensures Covered(NewSender(groupSize, parityCount), [], [], [], [])
  {
    assert Share(P, []) == [] && Share(Q, []) == [];
  }

  lemma SendLast(s: Sender, fed: seq<Fed>)
    requires fed != []
    ensures var n := |fed| - 1;
            var (s1, groups) := SendAll(s, fed[..n]);
            var (s2, g) := Accumulate(s1, fed[n].seqno, fed[n].body, fed[n].link);
            SendAll(s, fed) == (s2, if g.Some? then groups + [g.value] else groups)
  {
  }

  lemma FramesLast(fed: seq<Fed>)
    requires fed != []
    ensures var n := |fed| - 1; FramesOf(fed) == FramesOf(fed[..n]) + [(fed[n].seqno, fed[n].body)]
  {
  }

  lemma {:induction false} SenderCovers(groupSize: nat, parityCount: nat, fed: seq<Fed>)
      returns (chunks: seq<seq<Frame>>, tail: seq<Frame>)
    requires 0 < groupSize <= 255
    requires forall i :: 0 <= i < |fed| ==> |fed[i].body| < 65536
    ensures var (s, groups) := SendAll(NewSender(groupSize, parityCount), fed);
            && s.groupSize == groupSize && s.withQ == (parityCount >= 2)
            && Covered(s, groups, FramesOf(fed), chunks, tail)
  {
    var s0 := NewSender(groupSize, parityCount);
    if fed == [] {
      chunks, tail := [], [];
      NewCovers(groupSize, parityCount);
    } else {
      var n := |fed| - 1;
      var before, held := SenderCovers(groupSize, parityCount, fed[..n]);
      SendLast(s0, fed);
      FramesLast(fed);
      var (s, groups) := SendAll(s0, fed[..n]);
      chunks, tail := CoveredMember(s, groups, FramesOf(fed[..n]), before, held, fed[n].seqno, fed[n].body, fed[n].link);
    }
  }
}
