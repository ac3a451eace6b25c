/** Penalties over whole runs: a link that reported a full queue or a failed send gets no
    packet until its penalty lapses, as long as a better link is left. */
module Penalties {
  import opened Bytes
  import opened Scheduling
  import opened SchedulerRuns

  /** `link` is penalized until `until` at least. */
  ghost predicate Holds(ps: seq<Penalty>, link: nat, until: nat) {
    exists p :: p in ps && p.link == link && p.until >= until
  }

  lemma {:induction false} PenalizedHolds(ps: seq<Penalty>, link: nat, until: nat)
    ensures Holds(Penalized(ps, link, until), link, until)
  {
    if ps != [] {
      if ps[0].link == link {
        assert Penalized(ps, link, until)[0] in Penalized(ps, link, until);
      } else {
        PenalizedHolds(ps[1..], link, until);
      }
    } else {
      assert Penalty(link, until) in Penalized(ps, link, until);
    }
  }

  /** A further penalty, of this link or another, never shortens one. */
  lemma {:induction false} PenalizedKeeps(ps: seq<Penalty>, other: nat, to: nat, link: nat, until: nat)
    requires Holds(ps, link, until)
    ensures Holds(Penalized(ps, other, to), link, until)
  {
    var p :| p in ps && p.link == link && p.until >= until;
    var r := Penalized(ps, other, to);
    if ps[0].link == other {
      if p == ps[0] {
        assert r[0] in r;
      } else {
        assert p in ps[1..];
      }
    } else if p == ps[0] {
      assert r[0] in r;
    } else {
      assert p in ps[1..];
      PenalizedKeeps(ps[1..], other, to, link, until);
    }
  }

  lemma {:induction false} RetainedAre(ps: seq<Penalty>, now: nat, p: Penalty)
    ensures p in Retained(ps, now) <==> p in ps && p.until > now
  {
    if ps != [] {
      RetainedAre(ps[..|ps| - 1], now, p);
      assert ps == ps[..|ps| - 1] + [ps[|ps| - 1]];
    }
  }

  lemma RetainedHolds(ps: seq<Penalty>, now: nat, link: nat, until: nat)
    requires Holds(ps, link, until) && now < until
    ensures Holds(Retained(ps, now), link, until) && IsPenalized(Retained(ps, now), link)
  {
    var p :| p in ps && p.link == link && p.until >= until;
    RetainedAre(ps, now, p);
    var i :| 0 <= i < |Retained(ps, now)| && Retained(ps, now)[i] == p;
  }

  lemma PenaltyStep(s: Sched, t: Timed, s': Sched, link: nat, until: nat)
    requires Holds(s.penalized, link, until) && t.now < until && s' == Step(s, t)
    ensures Holds(s'.penalized, link, until)
  {
    match t.op
    case Send(len, x) => RetainedHolds(s.penalized, t.now, link, until);
    case Penalize(other, duration) => PenalizedKeeps(s.penalized, other, t.now + duration, link, until);
    case Refresh(_, _, _, _) =>
    case Congest(_) =>
    case Deliver(_) =>
  }

  ghost predicate HoldsAt(ss: seq<Sched>, k: nat, link: nat, until: nat)
    requires k < |ss|
  {
    Holds(ss[k].penalized, link, until)
  }

  lemma HoldsNext(ss: seq<Sched>, ts: seq<Timed>, k: nat, link: nat, until: nat)
    requires IsRun(ss, ts) && k < |ts| && HoldsAt(ss, k, link, until) && ts[k].now < until
    ensures HoldsAt(ss, k + 1, link, until)
  {
    assert GoesAt(ss, ts, k);
    PenaltyStep(ss[k], ts[k], ss[k + 1], link, until);
  }

  lemma {:induction false} HoldsRun(ss: seq<Sched>, ts: seq<Timed>, i: nat, k: nat, link: nat, until: nat)
    requires IsRun(ss, ts) && i <= k <= |ts| && HoldsAt(ss, i, link, until) && (k > 0 ==> ts[k - 1].now < until)
    ensures HoldsAt(ss, k, link, until)
    decreases k
  {
    if k > i {
      HoldsRun(ss, ts, i, k - 1, link, until);
      HoldsNext(ss, ts, k - 1, link, until);
    }
  }

  /** Some entry under its cap is neither penalized nor delivering badly. */
  ghost predicate HasRefuge(s: Sched, now: nat, len: nat) {
    exists pos :: pos in UnderCapSet(s, now, len) && IsPreferred(s.delivery, Retained(s.penalized, now), s.entries[pos])
  }

  lemma SteersAway(s: Sched, now: nat, len: nat, x: nat, link: nat, until: nat)
    requires Holds(s.penalized, link, until) && now < until && x in Competing(s, now, len) && HasRefuge(s, now, len)
    ensures s.entries[x].link != link
  {
    RetainedHolds(s.penalized, now, link, until);
    var pos :| pos in UnderCapSet(s, now, len) && IsPreferred(s.delivery, Retained(s.penalized, now), s.entries[pos]);
    assert pos in PreferredSet(s.entries, s.delivery, Retained(s.penalized, now), UnderCapSet(s, now, len));
  }

  lemma PenalizeHolds(ss: seq<Sched>, ts: seq<Timed>, i: nat, link: nat, until: nat)
    requires IsRun(ss, ts) && i < |ts| && ts[i].op.Penalize? && ts[i].op.link == link
    requires until == ts[i].now + ts[i].op.duration
    ensures HoldsAt(ss, i + 1, link, until)
  {
    assert GoesAt(ss, ts, i);
    PenalizedHolds(ss[i].penalized, link, until);
  }

  /** From any penalty until it lapses, round robin gives the link no packet while some entry
      under its cap is unpenalized and delivers at least half as well as the best link. */
  lemma NoPacketWhilePenalized(ss: seq<Sched>, ts: seq<Timed>, i: nat, k: nat, link: nat, until: nat)
    requires IsRun(ss, ts) && i < k < |ts| && ts[i].op.Penalize? && ts[i].op.link == link
    requires until == ts[i].now + ts[i].op.duration && ts[k].now < until
    requires ts[k].op.Send? && UsesSwrr(ss[k]) && HasRefuge(ss[k], ts[k].now, ts[k].op.len)
    ensures ts[k].op.x < |ss[k].entries| && ss[k].entries[ts[k].op.x].link != link
  {
    PenalizeHolds(ss, ts, i, link, until);
    HoldsRun(ss, ts, i + 1, k, link, until);
    assert GoesAt(ss, ts, k);
    SteersAway(ss[k], ts[k].now, ts[k].op.len, ts[k].op.x, link, until);
  }

  // ----- who competes

  /** A penalty of the link that has not lapsed. */
  ghost predicate PenalizedNow(s: Sched, link: nat, now: nat) {
    exists p :: p in s.penalized && p.link == link && p.until > now
  }

  /** The entry has room under its cap. */
  ghost predicate MayTake(s: Sched, now: nat, len: nat, pos: nat) {
    pos < |s.entries| && HasRoom(s.entries[pos], s.rate, now, len)
  }

  /** It also has no penalty and delivers at least half of what the best link does. */
  ghost predicate ShouldTake(s: Sched, now: nat, len: nat, pos: nat) {
    && MayTake(s, now, len, pos)
    && !PenalizedNow(s, s.entries[pos].link, now) && DeliveryFactor(s.delivery, s.entries[pos].link) >= 0.5
  }

  lemma PenalizedIff(s: Sched, link: nat, now: nat)
    ensures IsPenalized(Retained(s.penalized, now), link) <==> PenalizedNow(s, link, now)
  {
    var ps := Retained(s.penalized, now);
    if IsPenalized(ps, link) {
      var i :| 0 <= i < |ps| && ps[i].link == link;
      RetainedAre(s.penalized, now, ps[i]);
    }
    if PenalizedNow(s, link, now) {
      var p :| p in s.penalized && p.link == link && p.until > now;
      RetainedAre(s.penalized, now, p);
      var i :| 0 <= i < |ps| && ps[i] == p;
    }
  }

  lemma RetainsAny(s: Sched, now: nat)
    ensures Retained(s.penalized, now) != [] <==> exists p :: p in s.penalized && p.until > now
  {
    var ps := Retained(s.penalized, now);
    if ps != [] {
      RetainedAre(s.penalized, now, ps[0]);
    }
    if p :| p in s.penalized && p.until > now {
      RetainedAre(s.penalized, now, p);
    }
  }

  /** Who competes for a packet: everyone if no entry has room; while a penalty is in force and
      some entry should take the packet, those that should; otherwise those that may. */
  lemma CompetesIff(s: Sched, now: nat, len: nat, x: nat)
    requires x < |s.entries|
    ensures x in Competing(s, now, len) <==>
            if forall pos: nat :: !MayTake(s, now, len, pos) then true
            else if (exists p :: p in s.penalized && p.until > now) && exists pos: nat :: ShouldTake(s, now, len, pos)
            then ShouldTake(s, now, len, x)
            else MayTake(s, now, len, x)
  {
    var under, ps := UnderCapSet(s, now, len), Retained(s.penalized, now);
    var preferred := PreferredSet(s.entries, s.delivery, ps, under);
    forall pos: nat
      ensures pos in under <==> MayTake(s, now, len, pos)
      ensures pos in preferred <==> ShouldTake(s, now, len, pos)
    {
      if pos < |s.entries| {
        UnderCapInBits(s.entries[pos], s.rate, now, len);
        PenalizedIff(s, s.entries[pos].link, now);
      }
    }
    RetainsAny(s, now);
    assert under == {} <==> forall pos: nat :: pos !in under;
    assert preferred != {} <==> exists pos: nat :: pos in preferred;
  }
}
