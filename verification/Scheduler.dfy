/** The scheduler as the daemon keeps it: tables updated in place by every packet, refresh
    and feedback tick. Each method is proved to take the step the run theorems are about. */
module Scheduler {
  import opened Bytes
  import opened Common
  import opened Swrr
  import opened Scheduling
  import C = Congestion
  import D = Delivery
  import P = Primary
  import R = SchedulerRuns

  // ----- lists of positions

  ghost predicate Ascending(s: seq<nat>) {
    forall i, j :: 0 <= i < j < |s| ==> s[i] < s[j]
  }

  /** Positions in a table of `n` entries, in order. */
  ghost predicate Positions(s: seq<nat>, n: nat) {
    Ascending(s) && forall i :: 0 <= i < |s| ==> s[i] < n
  }

  lemma PositionsAppend(s: seq<nat>, x: nat, n: nat)
    requires Positions(s, x) && x < n
    ensures Positions(s + [x], n) && Elements(s + [x]) == Elements(s) + {x}
  {
  }

  lemma ElemsNext(s: seq<nat>, j: nat)
    requires j < |s| && Ascending(s)
    ensures Elements(s[..j + 1]) == Elements(s[..j]) + {s[j]} && s[j] !in Elements(s[..j])
  {
    assert s[..j + 1] == s[..j] + [s[j]];
  }

  lemma ElemsAll(s: seq<nat>)
    ensures Elements(s[..|s|]) == Elements(s)
  {
    assert s[..|s|] == s;
  }

  lemma AdvancedInsert(p: Pool, S: set<nat>, x: nat)
    requires |p.weight| == |p.current| && x < |p.current| && x !in S
    ensures Advanced(p, S + {x}) == Advanced(p, S)[x := p.current[x] + p.weight[x]]
    ensures Advanced(p, S)[x] == p.current[x]
  {
  }

  lemma WinnerInsert(d: seq<real>, S: set<nat>, b: nat, x: nat)
    requires IsWinner(d, S, b) && x < |d| && forall i :: i in S ==> i < x
    ensures IsWinner(d, S + {x}, if d[x] >= d[b] then x else b)
  {
  }

  lemma WithCurrentsUpdate(es: seq<Entry>, cs: seq<real>, x: nat, c: real)
    requires |cs| == |es| && x < |es|
    ensures WithCurrents(es, cs)[x := es[x].(current := c)] == WithCurrents(es, cs[x := c])
  {
  }

  /** The entries with those in `S` advanced by their weight. */
  ghost function AdvancedEntries(es: seq<Entry>, S: set<nat>): (r: seq<Entry>)
    ensures |r| == |es|
  {
    WithCurrents(es, Advanced(PoolOf(es), S))
  }

  lemma AdvanceNext(es: seq<Entry>, S: set<nat>, x: nat)
    requires x < |es| && x !in S
    ensures var r := AdvancedEntries(es, S);
            AdvancedEntries(es, S + {x}) == r[x := r[x].(current := r[x].current + r[x].effective)]
  {
    AdvancedInsert(PoolOf(es), S, x);
    WithCurrentsUpdate(es, Advanced(PoolOf(es), S), x, es[x].current + es[x].effective);
  }

  lemma AdvanceNone(es: seq<Entry>)
    ensures AdvancedEntries(es, {}) == es
  {
  }

  class Scheduler {
    var entries: seq<Entry>
    var rate: map<nat, Window>
    var penalized: seq<Penalty>
    var congestion: seq<C.Tracker>
    var delivery: seq<D.Tracker>
    var primary: Option<nat>
    var candidate: Option<P.Candidate>

    ghost function View(): Sched
      reads this
    {
      Sched(entries, rate, penalized, congestion, delivery, P.Choice(primary, candidate))
    }

    constructor ()
      ensures View() == EMPTY
    {
      entries, rate, penalized := [], map[], [];
      congestion, delivery := [], [];
      primary, candidate := None, None;
    }

    // ----- round robin among given positions

    method TotalWeight(eligible: seq<nat>) returns (total: real)
      requires Positions(eligible, |entries|)
      ensures total == SumIn(PoolOf(entries).weight, Elements(eligible), |entries|)
    {
      total := 0.0;
      EmptySum(PoolOf(entries).weight, |entries|);
      assert Elements(eligible[..0]) == {};
      for j := 0 to |eligible|
        invariant total == SumIn(PoolOf(entries).weight, Elements(eligible[..j]), |entries|)
      {
        ElemsNext(eligible, j);
        SumInsert(PoolOf(entries).weight, Elements(eligible[..j]), |entries|, eligible[j]);
        total := total + entries[eligible[j]].effective;
      }
      ElemsAll(eligible);
    }

    method Advance(eligible: seq<nat>)
      requires Positions(eligible, |entries|)
      modifies this`entries
      ensures entries == AdvancedEntries(old(entries), Elements(eligible))
    {
      AdvanceNone(entries);
      assert Elements(eligible[..0]) == {};
      for j := 0 to |eligible|
        invariant entries == AdvancedEntries(old(entries), Elements(eligible[..j]))
      {
        var pos := eligible[j];
        ElemsNext(eligible, j);
        AdvanceNext(old(entries), Elements(eligible[..j]), pos);
        entries := entries[pos := entries[pos].(current := entries[pos].current + entries[pos].effective)];
      }
      ElemsAll(eligible);
    }

    method LargestCurrent(eligible: seq<nat>) returns (best: nat)
      requires Positions(eligible, |entries|) && eligible != []
      ensures IsWinner(PoolOf(entries).current, Elements(eligible), best)
    {
      best := eligible[0];
      assert Elements(eligible[..1]) == {best};
      for j := 1 to |eligible|
        invariant IsWinner(PoolOf(entries).current, Elements(eligible[..j]), best)
      {
        ElemsNext(eligible, j);
        WinnerInsert(PoolOf(entries).current, Elements(eligible[..j]), best, eligible[j]);
        if entries[eligible[j]].current >= entries[best].current {
          best := eligible[j];
        }
      }
      ElemsAll(eligible);
    }

    method PickAmong(eligible: seq<nat>) returns (x: nat)
      requires Positions(eligible, |entries|) && eligible != []
      modifies this`entries
      ensures x < |old(entries)| && IsWinner(Advanced(PoolOf(old(entries)), Elements(eligible)), Elements(eligible), x)
      ensures entries == PickedEntries(old(entries), Elements(eligible), x)
    {
      var total := TotalWeight(eligible);
      Advance(eligible);
      assert PoolOf(entries).current == Advanced(PoolOf(old(entries)), Elements(eligible));
      x := LargestCurrent(eligible);
      WithCurrentsUpdate(old(entries), Advanced(PoolOf(old(entries)), Elements(eligible)), x, entries[x].current - total);
      entries := entries[x := entries[x].(current := entries[x].current - total)];
    }

    method AllPositions() returns (all: seq<nat>)
      ensures Positions(all, |entries|) && Elements(all) == All(|entries|) && |all| == |entries|
    {
      all := [];
      for i := 0 to |entries|
        invariant Positions(all, i) && Elements(all) == All(i) && |all| == i
      {
        PositionsAppend(all, i, i + 1);
        all := all + [i];
      }
    }

    /** Round robin over all entries, whatever their caps. */
    method SwrrPick() returns (x: nat)
      requires entries != []
      modifies this`entries
      ensures x < |old(entries)| && entries == PickedEntries(old(entries), All(|old(entries)|), x)
      ensures IsWinner(Advanced(PoolOf(old(entries)), All(|old(entries)|)), All(|old(entries)|), x)
    {
      var all := AllPositions();
      x := PickAmong(all);
    }

    // ----- who may compete

    method CheckCaps(now: nat, len: nat) returns (eligible: seq<nat>)
      modifies this`rate
      ensures rate == RolledRates(old(rate), entries, now, |entries|)
      ensures Positions(eligible, |entries|) && Elements(eligible) == UnderCapSet(old(View()), now, len)
      ensures forall pos: nat :: pos < |entries| ==> (pos in eligible <==> HasRoom(entries[pos], old(rate), now, len))
    {
      eligible := [];
      for pos := 0 to |entries|
        invariant rate == RolledRates(old(rate), entries, now, pos)
        invariant Positions(eligible, pos)
        invariant Elements(eligible) == UnderCapBelow(entries, old(rate), now, len, pos)
      {
        UnderCapNext(entries, old(rate), now, len, pos);
        RolledBefore(old(rate), entries, now, pos, entries[pos].link);
        PositionsAppend(eligible, pos, pos + 1);
        var ok := CheckCap(entries[pos], now, len);
        if ok {
          eligible := eligible + [pos];
        }
      }
      forall pos: nat | pos < |entries| ensures pos in eligible <==> HasRoom(entries[pos], old(rate), now, len) {
        UnderCapInBits(entries[pos], old(rate), now, len);
        assert pos in eligible <==> pos in Elements(eligible);
      }
    }

    method CheckCap(e: Entry, now: nat, len: nat) returns (ok: bool)
      modifies this`rate
      ensures rate == if e.cap.None? then old(rate) else old(rate)[e.link := Rolled(WindowOf(old(rate), e.link), now)]
      ensures ok == UnderCap(e, old(rate), now, len)
    {
      if e.cap.None? {
        return true;
      }
      if e.link !in rate {
        rate := rate[e.link := Window(now, 0)];
      }
      var w := rate[e.link];
      if now >= w.start + SECOND {
        w := Window(now, 0);
        rate := rate[e.link := w];
      }
      ok := w.bytes + len <= Budget(e.cap.value);
    }

    method DropLapsed(now: nat)
      modifies this`penalized
      ensures penalized == Retained(old(penalized), now)
    {
      var kept := [];
      for i := 0 to |penalized|
        invariant kept == Retained(penalized[..i], now)
      {
        assert penalized[..i + 1][..i] == penalized[..i];
        if penalized[i].until > now {
          kept := kept + [penalized[i]];
        }
      }
      assert penalized[..|penalized|] == penalized;
      penalized := kept;
    }

    method Unpenalized(eligible: seq<nat>) returns (r: seq<nat>)
      requires Positions(eligible, |entries|)
      ensures Positions(r, |entries|) && Elements(r) == PreferredSet(entries, delivery, penalized, Elements(eligible))
    {
      r := [];
      for j := 0 to |eligible|
        invariant Positions(r, if j < |eligible| then eligible[j] else |entries|)
        invariant forall i :: 0 <= i < j ==> (eligible[i] in Elements(r)
            <==> IsPreferred(delivery, penalized, entries[eligible[i]]))
        invariant forall p :: p in Elements(r) ==> p in Elements(eligible[..j])
      {
        var e := entries[eligible[j]];
        ElemsNext(eligible, j);
        PositionsAppend(r, eligible[j], eligible[j] + 1);
        if !IsPenalized(penalized, e.link) && DeliveryFactor(delivery, e.link) >= PENALTY_FALLBACK_MIN_DELIVERY {
          r := r + [eligible[j]];
        }
      }
    }

    method Eligible(now: nat, len: nat) returns (eligible: seq<nat>)
      modifies this`rate, this`penalized
      ensures rate == RolledRates(old(rate), entries, now, |entries|) && penalized == Retained(old(penalized), now)
      ensures Positions(eligible, |entries|) && (eligible == [] <==> AllOverCap(old(View()), now, len))
      ensures eligible != [] ==> Elements(eligible) == Competing(old(View()), now, len)
    {
      eligible := CheckCaps(now, len);
      assert eligible != [] ==> eligible[0] in Elements(eligible);
      if penalized != [] {
        DropLapsed(now);
        if penalized != [] {
          var rest := Unpenalized(eligible);
          assert rest != [] ==> rest[0] in Elements(rest);
          if rest != [] {
            eligible := rest;
          }
        }
      }
    }

    method Record(link: nat, len: nat)
      modifies this`rate
      ensures rate == Recorded(old(rate), link, len)
    {
      if link in rate {
        rate := rate[link := rate[link].(bytes := rate[link].bytes + len)];
      }
    }

    method SwrrPickUnderCap(now: nat, len: nat) returns (link: nat, ghost x: nat)
      requires entries != []
      modifies this`entries, this`rate, this`penalized
      ensures WinsPacket(old(View()), now, len, x) && View() == AfterPick(old(View()), now, len, x)
      ensures link == old(entries)[x].link
      ensures (exists pos: nat :: pos < |old(entries)| && HasRoom(old(entries)[pos], old(rate), now, len)) ==>
                HasRoom(old(entries)[x], old(rate), now, len)
    {
      var eligible := Eligible(now, len);
      var pos: nat;
      if eligible == [] {
        pos := SwrrPick();
      } else {
        pos := PickAmong(eligible);
      }
      x := pos;
      WinnerHasRoom(old(View()), now, len, x);
      link := entries[pos].link;
      Record(link, len);
    }

    // ----- selection

    method SelectFast(linkCount: nat, now: nat, len: nat) returns (r: Option<nat>, ghost x: nat)
      modifies this`entries, this`rate, this`penalized
      ensures linkCount == 0 ==> r == None && View() == old(View())
      ensures linkCount > 0 ==>
                && R.Ok(old(View()), R.Timed(now, R.Send(len, x)))
                && View() == R.Step(old(View()), R.Timed(now, R.Send(len, x)))
                && r == Selected(old(View()), x)
    {
      x := 0;
      if linkCount == 0 {
        return None, x;
      }
      if primary.Some? {
        return primary, x;
      }
      if entries != [] {
        var link;
        link, x := SwrrPickUnderCap(now, len);
        return Some(link), x;
      }
      r := None;
    }

    /** Like `SelectFast`, and the least bad link when nothing is up. */
    method Select(links: seq<LinkScore>, now: nat, len: nat) returns (r: Option<nat>, ghost x: nat)
      modifies this`entries, this`rate, this`penalized
      ensures r.None? <==> links == []
      ensures links != [] ==>
                && R.Ok(old(View()), R.Timed(now, R.Send(len, x)))
                && View() == R.Step(old(View()), R.Timed(now, R.Send(len, x)))
                && (Selected(old(View()), x).Some? ==> r == Selected(old(View()), x))
                && (Selected(old(View()), x).None? ==> exists i :: IsLeastBad(links, i) && r == Some(links[i].link))
    {
      r, x := SelectFast(|links|, now, len);
      if r.None? && links != [] {
        var best := 0;
        for i := 1 to |links|
          invariant 0 <= best < i && IsLeastBad(links[..i], best)
        {
          assert links[..i + 1][..i] == links[..i];
          if Better(links[i], links[best]) {
            best := i;
          }
        }
        assert links[..|links|] == links;
        r := Some(links[best].link);
      }
    }

    // ----- penalties

    method Penalize(link: nat, now: nat, duration: nat)
      modifies this`penalized
      ensures View() == R.Step(old(View()), R.Timed(now, R.Penalize(link, duration)))
    {
      var until := now + duration;
      var i := 0;
      while i < |penalized| && penalized[i].link != link
        invariant 0 <= i <= |penalized|
        invariant forall j :: 0 <= j < i ==> penalized[j].link != link
      {
        i := i + 1;
      }
      PenalizedAt(penalized, i, link, until);
      if i < |penalized| {
        penalized := penalized[i := Penalty(link, if penalized[i].until >= until then penalized[i].until else until)];
      } else {
        penalized := penalized + [Penalty(link, until)];
      }
    }

    method NoteQueueFull(link: nat, now: nat)
      modifies this`penalized
      ensures View() == R.Step(old(View()), R.Timed(now, R.Penalize(link, QUEUE_FULL_PENALTY)))
    {
      Penalize(link, now, QUEUE_FULL_PENALTY);
    }

    method NoteSendFailed(link: nat, now: nat)
      modifies this`penalized
      ensures View() == R.Step(old(View()), R.Timed(now, R.Penalize(link, SEND_FAILED_PENALTY)))
    {
      Penalize(link, now, SEND_FAILED_PENALTY);
    }

    // ----- refresh

    method RefreshFromScores(ups: seq<P.Up>, cfg: P.Config, peer: Option<nat>)
      modifies this`primary, this`candidate
      ensures P.Choice(primary, candidate) == P.Refresh(old(P.Choice(primary, candidate)), ups, cfg, peer)
    {
      if cfg.followPeer {
        primary := if peer.Some? && P.IsUp(ups, peer.value) then peer else None;
        candidate := None;
        return;
      }
      if !cfg.primaryMode {
        primary, candidate := None, None;
        return;
      }
      var score := if primary.Some? then P.ScoreOf(ups, primary.value) else None;
      if score.None? {
        primary, candidate := P.LinkOf(P.Best(ups)), None;
        return;
      }
      var other := P.Best(P.Others(ups, primary.value));
      if other.None? {
        candidate := None;
        return;
      }
      if other.value.score > score.value * (1.0 + P.MARGIN) {
        if candidate.Some? && candidate.value.link == other.value.link {
          candidate := Some(P.Candidate(candidate.value.link, candidate.value.count + 1));
          if candidate.value.count >= cfg.upThreshold {
            primary, candidate := Some(other.value.link), None;
          }
        } else {
          candidate := Some(P.Candidate(other.value.link, 1));
        }
      } else {
        candidate := None;
      }
    }

    method Refresh(scores: seq<real>, caps: seq<Option<real>>, cfg: P.Config, peer: Option<nat>, ghost now: nat)
      modifies this`entries, this`primary, this`candidate
      ensures View() == R.Step(old(View()), R.Timed(now, R.Refresh(scores, caps, cfg, peer)))
    {
      var ups := UpLinks(scores);
      RefreshFromScores(ups, cfg, peer);
      SameFreshEntries(ups, caps, View(), old(View()));
      entries := BuildEntries(ups, caps);
    }

    method UpLinks(scores: seq<real>) returns (ups: seq<P.Up>)
      ensures ups == Ups(scores, |scores|)
    {
      ups := [];
      for i := 0 to |scores|
        invariant ups == Ups(scores, i)
      {
        if scores[i] > 0.0 {
          ups := ups + [P.Up(i, scores[i])];
        }
      }
    }

    method BuildEntries(ups: seq<P.Up>, caps: seq<Option<real>>) returns (table: seq<Entry>)
      ensures table == FreshEntries(ups, caps, View())
    {
      table := [];
      for i := 0 to |ups|
        invariant |table| == i && forall j :: 0 <= j < i ==> table[j] == FreshEntry(ups[j], caps, View())
      {
        var u := ups[i];
        var f := Factor(u.link);
        table := table + [Entry(u.link, u.score, u.score * f, 0.0, if u.link < |caps| then caps[u.link] else None)];
      }
    }

    method Factor(link: nat) returns (f: real)
      ensures f == LinkFactor(View(), link)
    {
      f := CongestionFactor(congestion, link) * DeliveryFactor(delivery, link);
    }

    // ----- feedback

    method Reweigh()
      modifies this`entries
      ensures entries == ReweighedAll(old(entries), old(View()))
    {
      for k := 0 to |entries|
        invariant |entries| == |old(entries)|
        invariant forall j :: 0 <= j < k ==> entries[j] == Reweighed(old(entries)[j], old(View()))
        invariant forall j :: k <= j < |entries| ==> entries[j] == old(entries)[j]
      {
        var f := Factor(entries[k].link);
        entries := entries[k := entries[k].(effective := entries[k].base * f)];
      }
    }

    method UpdateDelivery(now: nat, samples: seq<Option<D.Sample>>)
      modifies this`entries, this`delivery
      ensures View() == R.Step(old(View()), R.Timed(now, R.Deliver(samples)))
    {
      delivery := Resized(delivery, |samples|, D.START);
      ghost var ts := delivery;
      for i := 0 to |samples|
        invariant entries == old(entries)
        invariant |delivery| == |ts| && forall j :: i <= j < |ts| ==> delivery[j] == ts[j]
        invariant forall j :: 0 <= j < i ==> delivery[j] == D.Observe(ts[j], now, samples[j])
      {
        delivery := delivery[i := D.Observe(delivery[i], now, samples[i])];
      }
      assert delivery == ObservedAll(ts, now, samples);
      Reweigh();
    }

    method UpdateCongestion(now: nat, snapshots: seq<C.Snapshot>)
      modifies this`entries, this`congestion
      ensures View() == R.Step(old(View()), R.Timed(now, R.Congest(snapshots)))
    {
      congestion := Resized(congestion, |snapshots|, C.START);
      ghost var ts := congestion;
      for i := 0 to |snapshots|
        invariant entries == old(entries)
        invariant |congestion| == |ts| && forall j :: i <= j < |ts| ==> congestion[j] == ts[j]
        invariant forall j :: 0 <= j < i ==> congestion[j] == C.Update(ts[j], now, snapshots[j])
      {
        congestion := congestion[i := C.Update(congestion[i], now, snapshots[i])];
      }
      assert congestion == UpdatedAll(ts, now, snapshots);
      Reweigh();
    }
  }

  lemma SameFreshEntries(ups: seq<P.Up>, caps: seq<Option<real>>, s: Sched, s': Sched)
    requires s.congestion == s'.congestion && s.delivery == s'.delivery
    ensures FreshEntries(ups, caps, s) == FreshEntries(ups, caps, s')
  {
    assert forall i :: 0 <= i < |ups| ==> FreshEntry(ups[i], caps, s) == FreshEntry(ups[i], caps, s');
  }

  ghost function UnderCapBelow(es: seq<Entry>, rate: map<nat, Window>, now: nat, len: nat, n: nat): set<nat>
    requires n <= |es|
  {
    set pos: nat | pos < n && UnderCap(es[pos], rate, now, len)
  }

  lemma UnderCapNext(es: seq<Entry>, rate: map<nat, Window>, now: nat, len: nat, n: nat)
    requires n < |es|
    ensures UnderCapBelow(es, rate, now, len, n + 1)
            == UnderCapBelow(es, rate, now, len, n) + if UnderCap(es[n], rate, now, len) then {n} else {}
  {
  }

  /** What a packet gets without looking at the links themselves. */
  ghost function Selected(s: Sched, x: nat): Option<nat> {
    if s.choice.primary.Some? then s.choice.primary
    else if s.entries != [] && x < |s.entries| then Some(s.entries[x].link)
    else None
  }

  // ----- the least bad link

  const I64_MAX: int := 0x7fff_ffff_ffff_ffff

  datatype LinkScore = LinkScore(link: nat, misses: nat, rtt: Option<real>)

  /** Whole milliseconds of round trip, as a 64-bit integer that saturates; unknown is worst. */
  function RttKey(l: LinkScore): int {
    if l.rtt.None? then I64_MAX
    else
      var ms := l.rtt.value;
      var whole := if ms >= 0.0 then ms.Floor else -((-ms).Floor);
      if whole > I64_MAX then I64_MAX else if whole < -I64_MAX - 1 then -I64_MAX - 1 else whole
  }

  predicate Better(a: LinkScore, b: LinkScore) {
    a.misses < b.misses || (a.misses == b.misses && RttKey(a) < RttKey(b))
  }

  /** Fewest misses, then shortest round trip, the first one among equals. */
  ghost predicate IsLeastBad(links: seq<LinkScore>, i: int) {
    && 0 <= i < |links|
    && (forall j :: 0 <= j < |links| ==> !Better(links[j], links[i]))
    && (forall j :: 0 <= j < i ==> Better(links[i], links[j]))
  }

  lemma {:induction false} PenalizedAt(ps: seq<Penalty>, i: nat, link: nat, until: nat)
    requires i <= |ps| && (forall j :: 0 <= j < i ==> ps[j].link != link) && (i < |ps| ==> ps[i].link == link)
    ensures Penalized(ps, link, until)
            == if i < |ps| then ps[i := Penalty(link, if ps[i].until >= until then ps[i].until else until)]
               else ps + [Penalty(link, until)]
  {
    if i > 0 {
      PenalizedAt(ps[1..], i - 1, link, until);
    }
  }

  lemma {:induction false} RolledBefore(rate: map<nat, Window>, es: seq<Entry>, now: nat, n: nat, link: nat)
    requires n <= |es|
    ensures Rolled(WindowOf(RolledRates(rate, es, now, n), link), now) == Rolled(WindowOf(rate, link), now)
  {
    if n > 0 {
      RolledBefore(rate, es, now, n - 1, link);
    }
  }
}
