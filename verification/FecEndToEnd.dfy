/** From the frames handed to the sender, over the wire, to the frames recovered. */
module FecEndToEnd {
  import opened Bytes
  import opened FecGroup
  import opened FecCodec
  import opened FecReceiver
  import opened FecRecovery
  import opened FecRuns
  import opened FecSoundness

  ghost predicate DistinctSeqs(frames: seq<Frame>) {
    forall i, j :: 0 <= i < j < |frames| ==> frames[i].0 != frames[j].0
  }

  ghost predicate Member(frames: seq<Frame>, s: nat, body: bytes) {
    exists i :: 0 <= i < |frames| && frames[i] == (s, body)
  }

  /** What the sender may be fed: distinct 64-bit sequence numbers, 16-bit lengths. */
  ghost predicate Feedable(fed: seq<Fed>) {
    && DistinctSeqs(FramesOf(fed))
    && forall i :: 0 <= i < |fed| ==> fed[i].seqno < Limit(SEQ_BYTES) && |fed[i].body| < 65536
  }

  /** The encoded share `k` of group `g`, with trailing bytes, decodes to `par`. */
  ghost predicate Carries(groups: seq<Group>, g: nat, k: Kind, trailing: bytes, par: ParityData) {
    && g < |groups|
    && (k.Q? ==> groups[g].q.Some?)
    && Decode(EncodeWith(if k.P? then groups[g].p else groups[g].q.value, trailing)) == Ok(par)
  }

  ghost predicate OnWire(groups: seq<Group>, k: Kind, par: ParityData) {
    exists g: nat, trailing: bytes :: Carries(groups, g, k, trailing, par)
  }

  /** The event carries a frame that was fed, or a decoded share of an emitted group. Loss,
      duplication and reordering are the choice of events. */
  ghost predicate FromSender(fed: seq<Fed>, groups: seq<Group>, e: Event) {
    match e
    case Data(s, body, _, _) => Member(FramesOf(fed), s, body)
    case ParityShare(k, par, _, _) => OnWire(groups, k, par)
    case Maintenance(_) => true
  }

  // ----- the stream behind a sender's run

  ghost function FrameMap(frames: seq<Frame>): Truth {
    if frames == [] then map[]
    else FrameMap(frames[..|frames| - 1])[frames[|frames| - 1].0 := frames[|frames| - 1].1]
  }

  lemma {:induction false} FrameMapAt(frames: seq<Frame>, i: nat)
    requires DistinctSeqs(frames) && i < |frames|
    ensures frames[i].0 in FrameMap(frames) && FrameMap(frames)[frames[i].0] == frames[i].1
  {
    var n := |frames| - 1;
    if i < n {
      FrameMapAt(frames[..n], i);
      assert frames[..n][i] == frames[i];
    }
  }

  lemma {:induction false} FrameMapOnly(frames: seq<Frame>, s: nat)
    requires s in FrameMap(frames)
    ensures Member(frames, s, FrameMap(frames)[s])
  {
    var n := |frames| - 1;
    if frames[n].0 == s {
      assert frames[n] == (s, FrameMap(frames)[s]);
    } else {
      FrameMapOnly(frames[..n], s);
      var i :| 0 <= i < n && frames[..n][i] == (s, FrameMap(frames)[s]);
      assert frames[i] == (s, FrameMap(frames)[s]);
    }
  }

  ghost function GroupMap(chunks: seq<seq<Frame>>): map<nat, seq<nat>>
    requires forall c :: 0 <= c < |chunks| ==> chunks[c] != []
  {
    if chunks == [] then map[]
    else
      var n := |chunks| - 1;
      GroupMap(chunks[..n])[chunks[n][0].0 := Seqs(chunks[n])]
  }

  /** Where chunk `c` lies in the flat sequence. */
  lemma {:induction false} FlatPosition<T>(chunks: seq<seq<T>>, c: nat) returns (offset: nat)
    requires c < |chunks|
    ensures offset + |chunks[c]| <= |Flat(chunks)|
    ensures forall j :: 0 <= j < |chunks[c]| ==> Flat(chunks)[offset + j] == chunks[c][j]
    ensures c == |chunks| - 1 ==> offset == |Flat(chunks[..c])|
  {
    var n := |chunks| - 1;
    if c == n {
      offset := |Flat(chunks[..n])|;
    } else {
      offset := FlatPosition(chunks[..n], c);
    }
  }

  lemma {:induction false} GroupMapAt(chunks: seq<seq<Frame>>, c: nat)
    requires forall c :: 0 <= c < |chunks| ==> chunks[c] != []
    requires DistinctSeqs(Flat(chunks)) && c < |chunks|
    ensures chunks[c][0].0 in GroupMap(chunks) && GroupMap(chunks)[chunks[c][0].0] == Seqs(chunks[c])
  {
    var n := |chunks| - 1;
    if c < n {
      var head := chunks[..n];
      assert DistinctSeqs(Flat(head)) by {
        assert Flat(chunks)[..|Flat(head)|] == Flat(head);
      }
      GroupMapAt(head, c);
      var a := FlatPosition(head, c);
      assert Flat(chunks)[a] == Flat(head)[a + 0] == chunks[c][0];
      assert Flat(chunks)[|Flat(head)|] == chunks[n][0];
    }
  }

  lemma ChunkMembers(frames: seq<Frame>, chunks: seq<seq<Frame>>, tail: seq<Frame>, c: nat)
    requires DistinctSeqs(frames) && frames == Flat(chunks) + tail && c < |chunks|
    ensures var truth := FrameMap(frames);
            Covers(truth, Seqs(chunks[c])) && Members(truth, Seqs(chunks[c])) == Bodies(chunks[c])
  {
    var a := FlatPosition(chunks, c);
    forall j | 0 <= j < |chunks[c]|
      ensures chunks[c][j].0 in FrameMap(frames) && FrameMap(frames)[chunks[c][j].0] == chunks[c][j].1
    {
      assert frames[a + j] == chunks[c][j];
      FrameMapAt(frames, a + j);
    }
  }

  ghost function StreamOf(frames: seq<Frame>, chunks: seq<seq<Frame>>): Stream
    requires forall c :: 0 <= c < |chunks| ==> chunks[c] != []
  {
    Stream(FrameMap(frames), GroupMap(chunks))
  }

  lemma ChunkShareSent(frames: seq<Frame>, chunks: seq<seq<Frame>>, tail: seq<Frame>, c: nat, k: Kind)
    requires DistinctSeqs(frames) && frames == Flat(chunks) + tail && c < |chunks|
    requires forall c :: 0 <= c < |chunks| ==> chunks[c] != []
    ensures SentShare(StreamOf(frames, chunks), chunks[c][0].0, k, ShareOf(k, chunks[c]))
  {
    ChunkMembers(frames, chunks, tail, c);
    assert DistinctSeqs(Flat(chunks)) by {
      assert frames[..|Flat(chunks)|] == Flat(chunks);
    }
    GroupMapAt(chunks, c);
  }

  lemma {:induction false} WidthBelow(members: seq<bytes>, limit: nat)
    requires limit > 0 && forall i :: 0 <= i < |members| ==> |members[i]| < limit
    ensures Width(members) < limit
  {
    if members != [] {
      WidthBelow(members[..|members| - 1], limit);
    }
  }

  /** Every emitted share fits the wire format. */
  lemma ChunkEncodable(fed: seq<Fed>, chunks: seq<seq<Frame>>, tail: seq<Frame>, c: nat, k: Kind)
    requires Feedable(fed) && FramesOf(fed) == Flat(chunks) + tail && c < |chunks| && |chunks[c]| <= 255
    ensures Encodable(ShareOf(k, chunks[c]))
  {
    var a := FlatPosition(chunks, c);
    forall j | 0 <= j < |chunks[c]| ensures chunks[c][j].0 < Limit(SEQ_BYTES) && |chunks[c][j].1| < 65536 {
      assert FramesOf(fed)[a + j] == chunks[c][j];
      assert fed[a + j].seqno < Limit(SEQ_BYTES);
    }
    WidthBelow(Bodies(chunks[c]), 65536);
    assert Limit(LEN_BYTES) == 65536;
  }

  /** What arrives is what was sent. */
  lemma CarriedShare(size: nat, withQ: bool, groups: seq<Group>, chunks: seq<seq<Frame>>, g: nat, k: Kind,
                     trailing: bytes, par: ParityData)
    requires Describe(size, withQ, groups, chunks) && Carries(groups, g, k, trailing, par)
    requires Encodable(ShareOf(k, chunks[g]))
    ensures par == ShareOf(k, chunks[g])
  {
    var sent := if k.P? then groups[g].p else groups[g].q.value;
    assert groups[g] == GroupOf(withQ, chunks[g], groups[g].links);
    assert sent == ShareOf(k, chunks[g]);
    RoundTrip(sent, trailing);
  }

  lemma EventSent(fed: seq<Fed>, s: Sender, groups: seq<Group>, chunks: seq<seq<Frame>>, tail: seq<Frame>, e: Event)
    requires Feedable(fed) && Covered(s, groups, FramesOf(fed), chunks, tail) && 0 < s.groupSize <= 255
    requires FromSender(fed, groups, e)
    ensures Sent(StreamOf(FramesOf(fed), chunks), e)
  {
    match e
    case Data(q, body, _, _) =>
      var i :| 0 <= i < |fed| && FramesOf(fed)[i] == (q, body);
      FrameMapAt(FramesOf(fed), i);
    case ParityShare(k, par, _, _) =>
      var g: nat, trailing: bytes :| Carries(groups, g, k, trailing, par);
      ChunkEncodable(fed, chunks, tail, g, k);
      CarriedShare(s.groupSize, s.withQ, groups, chunks, g, k, trailing, par);
      ChunkShareSent(FramesOf(fed), chunks, tail, g, k);
      assert par.seqs[0] == chunks[g][0].0;
    case Maintenance(_) =>
  }

  /** For any frames fed to the sender, any group size, and any loss, duplication, delay or
      interleaving of frames and encoded shares: whatever the receiver recovers, at once or
      late, was fed to the sender under that sequence number, byte for byte. */
  lemma EndToEnd(groupSize: nat, parityCount: nat, fed: seq<Fed>, rxParity: nat, start: nat, es: seq<Event>)
    requires 0 < groupSize <= 255 && Feedable(fed) && es != []
    requires forall i :: 0 <= i < |es| ==>
               FromSender(fed, SendAll(NewSender(groupSize, parityCount), fed).1, es[i])
    ensures var recovered := Step(RunTo(NewRx(rxParity, start), es[..|es| - 1]), es[|es| - 1]).recovered;
            forall i :: 0 <= i < |recovered| ==> Member(FramesOf(fed), recovered[i].0, recovered[i].1)
  {
    var (s, groups) := SendAll(NewSender(groupSize, parityCount), fed);
    var chunks, tail := SenderCovers(groupSize, parityCount, fed);
    var st := StreamOf(FramesOf(fed), chunks);
    forall i | 0 <= i < |es| ensures Sent(st, es[i]) {
      EventSent(fed, s, groups, chunks, tail, es[i]);
    }
    var rx0 := NewRx(rxParity, start);
    FollowsOne(rx0, es, st);
    RunSound(rx0, es, seq(|es|, _ => st));
    var recovered := Step(RunTo(rx0, es[..|es| - 1]), es[|es| - 1]).recovered;
    forall i | 0 <= i < |recovered| ensures Member(FramesOf(fed), recovered[i].0, recovered[i].1) {
      FrameMapOnly(FramesOf(fed), recovered[i].0);
    }
  }
}
