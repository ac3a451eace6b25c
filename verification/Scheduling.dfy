/** The link scheduler's state and steps: entries competing by smooth weighted round robin,
    byte windows for capped links, penalties, and the factors that scale the weights. */
module Scheduling {
  import opened Bytes
  import opened Common
  import opened Swrr
  import C = Congestion
  import D = Delivery
  import P = Primary

  const SECOND: nat := 1_000_000_000
  const QUEUE_FULL_PENALTY: nat := 200_000_000
  const SEND_FAILED_PENALTY: nat := 500_000_000
  const PENALTY_FALLBACK_MIN_DELIVERY: real := 0.5

  datatype Entry = Entry(link: nat, base: real, effective: real, current: real, cap: Option<real>)

  datatype Window = Window(start: nat, bytes: nat)

  datatype Penalty = Penalty(link: nat, until: nat)

  datatype Sched = Sched(
    entries: seq<Entry>, rate: map<nat, Window>, penalized: seq<Penalty>,
    congestion: seq<C.Tracker>, delivery: seq<D.Tracker>, choice: P.Choice)

  const EMPTY: Sched := Sched([], map[], [], [], [], P.UNDECIDED)

  // ----- factors and weights

  function CongestionFactor(ts: seq<C.Tracker>, link: nat): real {
    if link < |ts| then ts[link].factor else 1.0
  }

  function BestFactor(ts: seq<D.Tracker>, n: nat): real
    requires n <= |ts|
  {
    if n == 0 then 0.0
    else
      var best := BestFactor(ts, n - 1);
      if ts[n - 1].factor > best then ts[n - 1].factor else best
  }

  /** A link's delivery factor relative to the best link. */
  function DeliveryFactor(ts: seq<D.Tracker>, link: nat): real {
    if link >= |ts| then 1.0
    else
      var best := BestFactor(ts, |ts|);
      if best <= 0.0 then 1.0 else Clamp(ts[link].factor / best, D.MIN_FACTOR, 1.0)
  }

  function LinkFactor(s: Sched, link: nat): real {
    CongestionFactor(s.congestion, link) * DeliveryFactor(s.delivery, link)
  }

  function Reweighed(e: Entry, s: Sched): Entry {
    e.(effective := e.base * LinkFactor(s, e.link))
  }

  function ReweighedAll(es: seq<Entry>, s: Sched): (r: seq<Entry>)
    ensures |r| == |es|
  {
    seq(|es|, i requires 0 <= i < |es| => Reweighed(es[i], s))
  }

  lemma {:induction false} BestIsLargest(ts: seq<D.Tracker>, n: nat, i: nat)
    requires n <= |ts|
    ensures BestFactor(ts, n) >= 0.0
    ensures i < n ==> ts[i].factor <= BestFactor(ts, n)
    ensures BestFactor(ts, n) == 0.0 || exists j: nat :: j < n && ts[j].factor == BestFactor(ts, n)
  {
    if n > 0 {
      BestIsLargest(ts, n - 1, i);
    }
  }

  lemma QuotientRange(r: real, f: real, best: real, low: real)
    requires 0.0 < low <= f <= best <= 1.0 && best * r == f
    ensures low <= r <= 1.0 && (r == 1.0 <==> f == best)
  {
    ScaledSmaller(f, best);
    CancelFactor(best, f, r, best * f, f);
    CancelFactor(best, r, 1.0, f, best);
  }

  lemma ScaledSmaller(f: real, best: real)
    requires 0.0 <= f && best <= 1.0
    ensures best * f <= f
  {
    ProductSign(f, 1.0 - best);
    assert f * (1.0 - best) == f - best * f;
  }

  lemma CancelFactor(a: real, x: real, y: real, ax: real, ay: real)
    requires a > 0.0 && ax == a * x && ay == a * y && ax <= ay
    ensures x <= y
  {
    assert a * (y - x) == a * y - a * x;
    NonNegativeFactor(a, y - x);
  }

  lemma RatioArithmetic(f: real, best: real, low: real)
    requires 0.0 < low <= f <= best <= 1.0
    ensures low <= f / best <= 1.0 && f / best * best == f && (f / best == 1.0 <==> f == best)
  {
    QuotientRange(f / best, f, best, low);
  }

  lemma ProductSign(a: real, b: real)
    requires a >= 0.0 && b >= 0.0
    ensures a * b >= 0.0
  {
  }

  lemma NonNegativeFactor(a: real, b: real)
    requires a > 0.0 && a * b >= 0.0
    ensures b >= 0.0
  {
  }

  lemma BestInRange(ts: seq<D.Tracker>)
    requires ts != [] && forall t :: t in ts ==> D.Inv(t)
    ensures 0.0 < BestFactor(ts, |ts|) <= 1.0
  {
    BestIsLargest(ts, |ts|, 0);
    assert D.Inv(ts[0]);
    if j: nat :| j < |ts| && ts[j].factor == BestFactor(ts, |ts|) {
      assert D.Inv(ts[j]);
    }
  }

  /** The relative factor lies in [0.001, 1], restores the absolute one when multiplied by
      the best (the clamp never bites), and is 1 exactly for a link as good as the best:
      a shortfall shared by all links is no link's fault. */
  lemma RelativeFactor(ts: seq<D.Tracker>, link: nat)
    requires link < |ts| && forall t :: t in ts ==> D.Inv(t)
    ensures D.MIN_FACTOR <= DeliveryFactor(ts, link) <= 1.0
    ensures DeliveryFactor(ts, link) * BestFactor(ts, |ts|) == ts[link].factor
    ensures DeliveryFactor(ts, link) == 1.0 <==> forall j: nat :: j < |ts| ==> ts[j].factor <= ts[link].factor
  {
    BestInRange(ts);
    BestIsLargest(ts, |ts|, link);
    assert D.Inv(ts[link]);
    RatioArithmetic(ts[link].factor, BestFactor(ts, |ts|), D.MIN_FACTOR);
    forall j: nat | j < |ts| ensures ts[j].factor <= BestFactor(ts, |ts|) {
      BestIsLargest(ts, |ts|, j);
    }
  }

  // ----- byte windows

  /** The bytes a capped link may be given in one window; the cap is in megabits a second. */
  function Budget(cap: real): nat {
    var b := (cap * 1_000_000.0 / 8.0).Floor;
    if b < 0 then 0 else b
  }

  /** The window a link is in at `now`: its own, or a new one after a second or at first use. */
  function Rolled(w: Option<Window>, now: nat): Window {
    if w.None? || now >= w.value.start + SECOND then Window(now, 0) else w.value
  }

  function WindowOf(rate: map<nat, Window>, link: nat): Option<Window> {
    if link in rate then Some(rate[link]) else None
  }

  /** Every capped entry among the first `n` brings its link's window up to date. */
  function RolledRates(rate: map<nat, Window>, es: seq<Entry>, now: nat, n: nat): map<nat, Window>
    requires n <= |es|
  {
    if n == 0 then rate
    else
      var r, e := RolledRates(rate, es, now, n - 1), es[n - 1];
      if e.cap.None? then r else r[e.link := Rolled(WindowOf(r, e.link), now)]
  }

  predicate UnderCap(e: Entry, rate: map<nat, Window>, now: nat, len: nat) {
    e.cap.None? || Rolled(WindowOf(rate, e.link), now).bytes + len <= Budget(e.cap.value)
  }

  /** What the link was given in the one-second window that `now` falls in. */
  ghost function InWindow(rate: map<nat, Window>, link: nat, now: nat): nat {
    if link in rate && now < rate[link].start + 1_000_000_000 then rate[link].bytes else 0
  }

  /** With the packet, the bits of the window stay within the cap's megabits. */
  ghost predicate HasRoom(e: Entry, rate: map<nat, Window>, now: nat, len: nat) {
    e.cap.Some? ==>
      (8 * (InWindow(rate, e.link, now) + len)) as real <= (if e.cap.value > 0.0 then e.cap.value else 0.0) * 1_000_000.0
  }

  /** The byte budget is the cap in bits: as many bytes as fit, and not one more. */
  lemma BudgetInBits(cap: real, n: nat)
    ensures n <= Budget(cap) <==> (8 * n) as real <= (if cap > 0.0 then cap else 0.0) * 1_000_000.0
  {
    var b := cap * 1_000_000.0 / 8.0;
    assert (8 * n) as real == 8.0 * n as real;
    assert n <= b.Floor <==> n as real <= b;
  }

  lemma UnderCapInBits(e: Entry, rate: map<nat, Window>, now: nat, len: nat)
    ensures UnderCap(e, rate, now, len) <==> HasRoom(e, rate, now, len)
  {
    if e.cap.Some? {
      BudgetInBits(e.cap.value, InWindow(rate, e.link, now) + len);
    }
  }

  function Recorded(rate: map<nat, Window>, link: nat, len: nat): map<nat, Window> {
    if link in rate then rate[link := rate[link].(bytes := rate[link].bytes + len)] else rate
  }

  // ----- penalties

  function Retained(ps: seq<Penalty>, now: nat): seq<Penalty> {
    if ps == [] then []
    else
      var init, last := Retained(ps[..|ps| - 1], now), ps[|ps| - 1];
      if last.until > now then init + [last] else init
  }

  predicate IsPenalized(ps: seq<Penalty>, link: nat) {
    exists i :: 0 <= i < |ps| && ps[i].link == link
  }

  // ----- who competes for a packet

  function UnderCapSet(s: Sched, now: nat, len: nat): set<nat> {
    set pos: nat | pos < |s.entries| && UnderCap(s.entries[pos], s.rate, now, len)
  }

  predicate IsPreferred(ds: seq<D.Tracker>, ps: seq<Penalty>, e: Entry) {
    !IsPenalized(ps, e.link) && DeliveryFactor(ds, e.link) >= PENALTY_FALLBACK_MIN_DELIVERY
  }

  function PreferredSet(es: seq<Entry>, ds: seq<D.Tracker>, ps: seq<Penalty>, under: set<nat>): set<nat>
    requires forall pos :: pos in under ==> pos < |es|
  {
    set pos: nat | pos in under && IsPreferred(ds, ps, es[pos])
  }

  /** The entries under their cap, without the penalized and badly delivering ones as long
      as some other remains; everyone when all are over their cap. */
  function Competing(s: Sched, now: nat, len: nat): (E: set<nat>)
    ensures forall pos :: pos in E ==> pos < |s.entries|
  {
    var under, ps := UnderCapSet(s, now, len), Retained(s.penalized, now);
    var preferred := PreferredSet(s.entries, s.delivery, ps, under);
    if under == {} then All(|s.entries|)
    else if ps != [] && preferred != {} then preferred
    else under
  }

  predicate AllOverCap(s: Sched, now: nat, len: nat) {
    UnderCapSet(s, now, len) == {}
  }

  function PoolOf(es: seq<Entry>): (p: Pool)
    ensures |p.weight| == |p.current| == |es|
  {
    Pool(seq(|es|, i requires 0 <= i < |es| => es[i].effective), seq(|es|, i requires 0 <= i < |es| => es[i].current))
  }

  function WithCurrents(es: seq<Entry>, cs: seq<real>): (r: seq<Entry>)
    requires |cs| == |es|
    ensures |r| == |es|
  {
    seq(|es|, i requires 0 <= i < |es| => es[i].(current := cs[i]))
  }

  function PickedEntries(es: seq<Entry>, E: set<nat>, x: nat): (r: seq<Entry>)
    requires x < |es|
    ensures |r| == |es|
  {
    WithCurrents(es, Picked(PoolOf(es), E, x).current)
  }

  function AfterPick(s: Sched, now: nat, len: nat, x: nat): Sched
    requires x < |s.entries|
  {
    s.(entries := PickedEntries(s.entries, Competing(s, now, len), x),
       rate := Recorded(RolledRates(s.rate, s.entries, now, |s.entries|), s.entries[x].link, len),
       penalized := Retained(s.penalized, now))
  }

  /** Position `x` wins the packet of `len` bytes at `now`. */
  ghost predicate WinsPacket(s: Sched, now: nat, len: nat, x: nat) {
    var E := Competing(s, now, len);
    x < |s.entries| && IsWinner(Advanced(PoolOf(s.entries), E), E, x)
  }

  /** If any entry has room under its cap, the winner has. */
  lemma WinnerHasRoom(s: Sched, now: nat, len: nat, x: nat)
    requires WinsPacket(s, now, len, x)
    ensures (exists pos: nat :: pos < |s.entries| && HasRoom(s.entries[pos], s.rate, now, len))
        ==> HasRoom(s.entries[x], s.rate, now, len)
  {
    if pos: nat :| pos < |s.entries| && HasRoom(s.entries[pos], s.rate, now, len) {
      UnderCapInBits(s.entries[pos], s.rate, now, len);
      assert pos in UnderCapSet(s, now, len);
      UnderCapInBits(s.entries[x], s.rate, now, len);
    }
  }

  // ----- the other steps

  function Penalized(ps: seq<Penalty>, link: nat, until: nat): seq<Penalty> {
    if ps == [] then [Penalty(link, until)]
    else if ps[0].link == link then [Penalty(link, if ps[0].until >= until then ps[0].until else until)] + ps[1..]
    else [ps[0]] + Penalized(ps[1..], link, until)
  }

  /** The links that are up: those with a positive score, in index order. */
  function Ups(scores: seq<real>, n: nat): seq<P.Up>
    requires n <= |scores|
  {
    if n == 0 then []
    else Ups(scores, n - 1) + (if scores[n - 1] > 0.0 then [P.Up(n - 1, scores[n - 1])] else [])
  }

  lemma {:induction false} UpsAreLinks(scores: seq<real>, n: nat)
    requires n <= |scores|
    ensures forall u :: u in Ups(scores, n) <==> u.link < n && u.score == scores[u.link] && u.score > 0.0
  {
    if n > 0 {
      UpsAreLinks(scores, n - 1);
    }
  }

  function FreshEntry(u: P.Up, caps: seq<Option<real>>, s: Sched): Entry {
    Entry(u.link, u.score, u.score * LinkFactor(s, u.link), 0.0, if u.link < |caps| then caps[u.link] else None)
  }

  function FreshEntries(ups: seq<P.Up>, caps: seq<Option<real>>, s: Sched): (r: seq<Entry>)
    ensures |r| == |ups|
  {
    seq(|ups|, i requires 0 <= i < |ups| => FreshEntry(ups[i], caps, s))
  }

  function Refreshed(s: Sched, scores: seq<real>, caps: seq<Option<real>>, cfg: P.Config, peer: Option<nat>): Sched {
    var ups := Ups(scores, |scores|);
    s.(choice := P.Refresh(s.choice, ups, cfg, peer), entries := FreshEntries(ups, caps, s))
  }

  function Resized<T>(ts: seq<T>, n: nat, start: T): (r: seq<T>)
    ensures |r| >= n
  {
    if |ts| >= n then ts else ts + seq(n - |ts|, _ => start)
  }

  function UpdatedAll(ts: seq<C.Tracker>, now: nat, snapshots: seq<C.Snapshot>): (r: seq<C.Tracker>)
    ensures |r| == |ts|
  {
    seq(|ts|, i requires 0 <= i < |ts| => if i < |snapshots| then C.Update(ts[i], now, snapshots[i]) else ts[i])
  }

  function ObservedAll(ts: seq<D.Tracker>, now: nat, samples: seq<Option<D.Sample>>): (r: seq<D.Tracker>)
    ensures |r| == |ts|
  {
    seq(|ts|, i requires 0 <= i < |ts| => if i < |samples| then D.Observe(ts[i], now, samples[i]) else ts[i])
  }

  function Congested(s: Sched, now: nat, snapshots: seq<C.Snapshot>): Sched {
    var s' := s.(congestion := UpdatedAll(Resized(s.congestion, |snapshots|, C.START), now, snapshots));
    s'.(entries := ReweighedAll(s.entries, s'))
  }

  function Delivered(s: Sched, now: nat, samples: seq<Option<D.Sample>>): Sched {
    var s' := s.(delivery := ObservedAll(Resized(s.delivery, |samples|, D.START), now, samples));
    s'.(entries := ReweighedAll(s.entries, s'))
  }
}
