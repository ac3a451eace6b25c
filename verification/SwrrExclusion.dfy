/** Smooth weighted round robin when entries sit out: whatever set of entries competes for each
    pick, nobody's running weight drifts. */
module SwrrExclusion {
  import opened Swrr

  // ----- what a subset's running weights may add up to

  /** Half the total weight for every pair of one entry inside and one outside. */
  ghost function Arc(s: int, n: int, total: real): real {
    Half(total) * Pairs(s, n) as real
  }

  ghost function Pairs(s: int, n: int): int {
    s * (n - s)
  }

  ghost function Half(total: real): real {
    total / 2.0
  }

  lemma OneMoreInside(s: int, t: int)
    ensures (s + 1) * (t - 1) == s * t - s + t - 1
  {
    assert (s + 1) * (t - 1) == s * (t - 1) + (t - 1);
    assert s * (t - 1) == s * t - s;
  }

  lemma FewerInside(s: int, t: int, m: int)
    ensures (s - m) * (t + m) == s * t + m * s - m * t - m * m
  {
    assert (s - m) * (t + m) == s * (t + m) - m * (t + m);
    assert s * (t + m) == s * t + s * m;
    assert m * (t + m) == m * t + m * m;
  }

  lemma TimesPairs(m: int, q: int, s: int, t: int)
    ensures m * (q - s + t - 1) == m * q - m * s + m * t - m
  {
    assert m * (q - s + t - 1) == m * (q - s) + m * (t - 1);
    assert m * (q - s) == m * q - m * s;
    assert m * (t - 1) == m * t - m;
  }

  lemma PairsNext(s: int, m: int, n: int)
    ensures m * Pairs(s + 1, n) + Pairs(s - m, n) + 2 * m == (m + 1) * Pairs(s, n) + m * (1 - m)
  {
    var t := n - s;
    OneMoreInside(s, t);
    FewerInside(s, t, m);
    TimesPairs(m, s * t, s, t);
    assert (m + 1) * (s * t) == m * (s * t) + s * t;
    assert m * (1 - m) == m - m * m;
  }

  lemma ConvexStep(m: nat)
    ensures m * (1 - m) <= 0
  {
  }

  lemma ScaledSum(h: real, m: nat, q1: int, q2: int, q0: int)
    requires h >= 0.0 && m * q1 + q2 + 2 * m <= (m + 1) * q0
    ensures m as real * (h * q1 as real + 2.0 * h) + h * q2 as real <= (m as real + 1.0) * (h * q0 as real)
  {
    var l, r := m * q1 + q2 + 2 * m, (m + 1) * q0;
    assert l as real <= r as real;
    assert h * l as real <= h * r as real;
    assert l as real == m as real * q1 as real + q2 as real + 2.0 * m as real;
    assert r as real == (m + 1) as real * q0 as real;
    assert h * l as real == m as real * (h * q1 as real) + h * q2 as real + m as real * (2.0 * h);
  }

  ghost predicate NextBound(m: nat, b0: real, b1: real, b2: real) {
    m as real * b1 + b2 <= (m as real + 1.0) * b0
  }

  lemma ArcNext(s: nat, m: nat, n: nat, total: real)
    requires m <= s < n && total >= 0.0
    ensures NextBound(m, Arc(s, n, total), Arc(s + 1, n, total) + total, Arc(s - m, n, total))
  {
    PairsNext(s, m, n);
    ConvexStep(m);
    ScaledSum(Half(total), m, Pairs(s + 1, n), Pairs(s - m, n), Pairs(s, n));
  }

  ghost predicate AtMostTimesMore(sum: real, idle: real, m: nat, top: real) {
    sum - idle <= m as real * top
  }

  lemma Averaged(m: nat, sum: real, idle: real, top: real, b0: real, b1: real, b2: real)
    requires AtMostTimesMore(sum, idle, m, top) && sum + top <= b1 && idle <= b2 && NextBound(m, b0, b1, b2)
    ensures sum <= b0
  {
    AveragedReal(m as real, sum, idle, top, b0, b1, b2);
  }

  lemma AveragedReal(k: real, sum: real, idle: real, top: real, b0: real, b1: real, b2: real)
    requires k >= 0.0 && sum - idle <= k * top && sum + top <= b1 && idle <= b2 && k * b1 + b2 <= (k + 1.0) * b0
    ensures sum <= b0
  {
    Scaled(k, sum + top, b1);
    assert k * (sum + top) == k * sum + k * top;
    assert (k + 1.0) * sum == k * sum + sum;
    Divided(k + 1.0, sum, b0);
  }

  lemma Scaled(k: real, x: real, y: real)
    requires k >= 0.0 && x <= y
    ensures k * x <= k * y
  {
  }

  lemma Divided(k: real, x: real, y: real)
    requires k > 0.0 && k * x <= k * y
    ensures x <= y
  {
  }

  /** `m` of the `s` entries compete and are below the winner's `top`; the others add up to
      `idle`. */
  lemma ArcAverage(s: nat, m: nat, n: nat, sum: real, idle: real, top: real, total: real, b0: real, b1: real, b2: real)
    requires m <= s < n && total >= 0.0
    requires b0 == Arc(s, n, total) && b1 == Arc(s + 1, n, total) + total && b2 == Arc(s - m, n, total)
    requires AtMostTimesMore(sum, idle, m, top) && sum + top <= b1 && idle <= b2
    ensures sum <= b0
  {
    ArcNext(s, m, n, total);
    Averaged(m, sum, idle, top, b0, b1, b2);
  }

  // ----- one pick

  ghost predicate WithinArc(p: Pool, S: set<nat>)
    requires |p.weight| == |p.current|
  {
    SumIn(p.current, S, |p.current|) <= Arc(CountIn(S, |p.current|), |p.current|, Total(p))
  }

  ghost predicate AllWithinArc(p: Pool)
    requires |p.weight| == |p.current|
  {
    forall S: set<nat> :: WithinArc(p, S)
  }

  /** A sum over `S` splits into those that compete and those that do not. */
  lemma {:induction false} SplitSum(v: seq<real>, S: set<nat>, E: set<nat>, n: nat)
    requires n <= |v|
    ensures SumIn(v, S, n) == SumIn(v, S * E, n) + SumIn(v, S - E, n)
    ensures CountIn(S, n) == CountIn(S * E, n) + CountIn(S - E, n)
  {
    if n > 0 {
      SplitSum(v, S, E, n - 1);
    }
  }

  lemma {:induction false} IdleSum(p: Pool, E: set<nat>, S: set<nat>, n: nat)
    requires |p.weight| == |p.current| && n <= |p.current|
    ensures SumIn(Advanced(p, E), S - E, n) == SumIn(p.current, S - E, n)
  {
    if n > 0 {
      IdleSum(p, E, S, n - 1);
    }
  }

  lemma PaidSum(p: Pool, E: set<nat>, x: nat, S: set<nat>)
    requires p.Valid() && x < |p.current|
    ensures SumIn(Picked(p, E, x).current, S, |p.current|)
            == SumIn(Advanced(p, E), S, |p.current|) - (if x in S then SumIn(p.weight, E, |p.current|) else 0.0)
  {
    var d := Advanced(p, E);
    SumUpdate(d, S, |d|, x, d[x] - SumIn(p.weight, E, |d|));
  }

  /** The winner is in the subset: it pays at least what the subset gained. */
  lemma ArcWithWinner(p: Pool, E: set<nat>, x: nat, S: set<nat>)
    requires p.Valid() && x < |p.current| && x in S && WithinArc(p, S)
    ensures WithinArc(Picked(p, E, x), S)
  {
    var n := |p.current|;
    PaidSum(p, E, x, S);
    AdvancedSum(p, E, S, n);
    SumSubset(p.weight, S * E, E, n);
    assert Total(Picked(p, E, x)) == Total(p);
  }

  /** Advancing gains a subset at most the total weight. */
  lemma ArcGain(p: Pool, E: set<nat>, S: set<nat>)
    requires p.Valid() && WithinArc(p, S)
    ensures SumIn(Advanced(p, E), S, |p.current|) <= Arc(CountIn(S, |p.current|), |p.current|, Total(p)) + Total(p)
  {
    var n := |p.current|;
    AdvancedSum(p, E, S, n);
    AllSum(p.weight, S * E, n);
    SumSubset(p.weight, All(n) * (S * E), All(n), n);
  }

  lemma CompetingBelow(d: seq<real>, E: set<nat>, x: nat, S: set<nat>)
    requires IsWinner(d, E, x)
    ensures AtMostTimesMore(SumIn(d, S, |d|), SumIn(d, S - E, |d|), CountIn(S * E, |d|), d[x])
  {
    SplitSum(d, S, E, |d|);
    SumBelow(d, S * E, |d|, d[x]);
  }

  lemma ArcBeforePaying(p: Pool, d: seq<real>, E: set<nat>, x: nat, S: set<nat>, n: nat, total: real)
    requires p.Valid() && d == Advanced(p, E) && n == |d| && total == Total(p) && IsWinner(d, E, x) && x !in S
    requires WithinArc(p, S + {x}) && WithinArc(p, S - E)
    ensures SumIn(d, S, n) <= Arc(CountIn(S, n), n, total)
  {
    var s, m := CountIn(S, n), CountIn(S * E, n);
    SumInsert(d, S, n, x);
    CountBound(S + {x}, n);
    SplitSum(d, S, E, n);
    CompetingBelow(d, E, x, S);
    ArcGain(p, E, S + {x});
    IdleSum(p, E, S, n);
    TotalPositive(p);
    ArcAverage(s, m, n, SumIn(d, S, n), SumIn(d, S - E, n), d[x], total,
               Arc(s, n, total), Arc(s + 1, n, total) + total, Arc(s - m, n, total));
  }

  /** Whoever competes, a pick keeps every subset's bound. */
  lemma PickWithinArc(p: Pool, E: set<nat>, x: nat)
    requires p.Valid() && IsWinner(Advanced(p, E), E, x) && AllWithinArc(p)
    ensures AllWithinArc(Picked(p, E, x))
  {
    forall S: set<nat> ensures WithinArc(Picked(p, E, x), S) {
      assert WithinArc(p, S);
      if x in S {
        ArcWithWinner(p, E, x, S);
      } else {
        assert WithinArc(p, S + {x}) && WithinArc(p, S - E);
        ArcBeforePaying(p, Advanced(p, E), E, x, S, |p.current|, Total(p));
        PaidSum(p, E, x, S);
        assert Total(Picked(p, E, x)) == Total(p);
      }
    }
  }

  // ----- runs from a fresh table

  /** Who competed for a pick, and who won it. */
  datatype Pick = Pick(eligible: set<nat>, winner: nat)

  ghost predicate Ranged(w: seq<real>, ps: seq<Pick>) {
    forall k :: 0 <= k < |ps| ==> ps[k].winner < |w|
  }

  ghost function Later(w: seq<real>, ps: seq<Pick>, k: nat): (p: Pool)
    requires Ranged(w, ps) && k <= |ps|
    ensures p.weight == w && |p.current| == |w|
  {
    if k == 0 then Fresh(w) else Picked(Later(w, ps, k - 1), ps[k - 1].eligible, ps[k - 1].winner)
  }

  ghost predicate WinsAt(w: seq<real>, ps: seq<Pick>, k: nat)
    requires Ranged(w, ps) && k < |ps|
  {
    IsWinner(Advanced(Later(w, ps, k), ps[k].eligible), ps[k].eligible, ps[k].winner)
  }

  ghost predicate IsRun(w: seq<real>, ps: seq<Pick>) {
    Ranged(w, ps) && forall k: nat :: k < |ps| ==> WinsAt(w, ps, k)
  }

  /** What entry `i` has earned: its weight for every pick it competed for. */
  ghost function Earned(w: seq<real>, ps: seq<Pick>, k: nat, i: nat): real
    requires k <= |ps| && i < |w|
  {
    if k == 0 then 0.0 else Earned(w, ps, k - 1, i) + if i in ps[k - 1].eligible then w[i] else 0.0
  }

  /** What it has paid: the weight of all competitors for every pick it won. */
  ghost function Paid(w: seq<real>, ps: seq<Pick>, k: nat, i: nat): real
    requires k <= |ps|
  {
    if k == 0 then 0.0
    else Paid(w, ps, k - 1, i) + if ps[k - 1].winner == i then SumIn(w, ps[k - 1].eligible, |w|) else 0.0
  }

  /** A running weight is exactly what was earned less what was paid. */
  lemma {:induction false} Ledger(w: seq<real>, ps: seq<Pick>, k: nat, i: nat)
    requires Ranged(w, ps) && k <= |ps| && i < |w|
    ensures Later(w, ps, k).current[i] == Earned(w, ps, k, i) - Paid(w, ps, k, i)
  {
    if k > 0 {
      Ledger(w, ps, k - 1, i);
    }
  }

  lemma ArcNonNegative(s: nat, n: nat, total: real)
    requires s <= n && total >= 0.0
    ensures Arc(s, n, total) >= 0.0
  {
    assert Pairs(s, n) >= 0;
  }

  lemma FreshArc(w: seq<real>)
    requires PositiveWeights(w)
    ensures AllWithinArc(Fresh(w)) && SumIn(Fresh(w).current, All(|w|), |w|) == 0.0
  {
    var p, n := Fresh(w), |w|;
    TotalPositive(p);
    forall S: set<nat> ensures WithinArc(p, S) {
      SumZero(n, S, n);
      CountBound(S, n);
      ArcNonNegative(CountIn(S, n), n, Total(p));
    }
    SumZero(n, All(n), n);
  }

  lemma {:induction false} RunWithinArc(w: seq<real>, ps: seq<Pick>, k: nat)
    requires PositiveWeights(w) && IsRun(w, ps) && k <= |ps|
    ensures var p := Later(w, ps, k); AllWithinArc(p) && SumIn(p.current, All(|w|), |w|) == 0.0
  {
    if k == 0 {
      FreshArc(w);
    } else {
      RunWithinArc(w, ps, k - 1);
      assert WinsAt(w, ps, k - 1);
      var p, pick := Later(w, ps, k - 1), ps[k - 1];
      PickWithinArc(p, pick.eligible, pick.winner);
      PickConserves(p, pick.eligible, pick.winner);
    }
  }

  lemma {:induction false} SingleSum(v: seq<real>, i: nat, n: nat)
    requires n <= |v|
    ensures SumIn(v, {i}, n) == (if i < n then v[i] else 0.0) && CountIn({i}, n) == if i < n then 1 else 0
  {
    if n > 0 {
      SingleSum(v, i, n - 1);
    }
  }

  lemma OthersSum(v: seq<real>, i: nat, n: nat)
    requires n == |v| && i < n && SumIn(v, All(n), n) == 0.0
    ensures SumIn(v, All(n) - {i}, n) == -v[i] && CountIn(All(n) - {i}, n) == n - 1
  {
    SplitSum(v, All(n), {i}, n);
    SingleSum(v, i, n);
    CountAll(n, n);
    SameSum(v, All(n) * {i}, {i}, n);
  }

  /** How far an entry may be ahead of or behind what it earned: half of (n - 1) rounds. */
  ghost function Slack(n: nat, total: real): real {
    Half(total) * (n - 1) as real
  }

  lemma ArcOfOne(n: nat, total: real)
    ensures Arc(1, n, total) == Arc(n - 1, n, total) == Slack(n, total)
  {
    assert Pairs(1, n) == n - 1 && Pairs(n - 1, n) == n - 1;
  }

  lemma WithinSlack(p: Pool, i: nat, n: nat)
    requires |p.weight| == |p.current| == n && i < n && AllWithinArc(p) && SumIn(p.current, All(n), n) == 0.0
    ensures -Slack(n, Total(p)) <= p.current[i] <= Slack(n, Total(p))
  {
    assert WithinArc(p, {i}) && WithinArc(p, All(n) - {i});
    SingleSum(p.current, i, n);
    OthersSum(p.current, i, n);
    ArcOfOne(n, Total(p));
  }

  /** Fairness with exclusions: whatever sets of entries competed, after any number of picks what
      an entry has paid for its wins differs from what it earned by at most half of (n - 1)
      times the total weight. */
  lemma FairnessWithExclusions(w: seq<real>, ps: seq<Pick>, k: nat, i: nat, total: real)
    requires PositiveWeights(w) && IsRun(w, ps) && k <= |ps| && i < |w| && total == Total(Fresh(w))
    ensures -Slack(|w|, total) <= Earned(w, ps, k, i) - Paid(w, ps, k, i) <= Slack(|w|, total)
  {
    RunWithinArc(w, ps, k);
    Ledger(w, ps, k, i);
    WithinSlack(Later(w, ps, k), i, |w|);
  }

  lemma {:induction false} LaterPrefix(w: seq<real>, ps: seq<Pick>, ps': seq<Pick>, k: nat)
    requires Ranged(w, ps) && Ranged(w, ps') && k <= |ps| <= |ps'| && ps == ps'[..|ps|]
    ensures Later(w, ps', k) == Later(w, ps, k)
  {
    if k > 0 {
      LaterPrefix(w, ps, ps', k - 1);
    }
  }

  lemma WinsEarlier(w: seq<real>, ps: seq<Pick>, ps': seq<Pick>, k: nat)
    requires Ranged(w, ps) && Ranged(w, ps') && k < |ps| <= |ps'| && ps == ps'[..|ps|] && WinsAt(w, ps, k)
    ensures WinsAt(w, ps', k)
  {
    LaterPrefix(w, ps, ps', k);
    assert ps'[k] == ps[k];
  }

  /** A run goes on with whoever wins next. */
  lemma RunNext(w: seq<real>, ps: seq<Pick>, ps': seq<Pick>, n: nat, p: Pool)
    requires IsRun(w, ps) && Ranged(w, ps') && n == |ps| && |ps'| == n + 1 && ps == ps'[..n] && p == Later(w, ps, n)
    requires IsWinner(Advanced(p, ps'[n].eligible), ps'[n].eligible, ps'[n].winner)
    ensures IsRun(w, ps') && Later(w, ps', n + 1) == Picked(p, ps'[n].eligible, ps'[n].winner)
  {
    LaterPrefix(w, ps, ps', n);
    assert WinsAt(w, ps', n);
    forall k: nat | k < |ps'| ensures WinsAt(w, ps', k) {
      if k < n {
        assert WinsAt(w, ps, k);
        WinsEarlier(w, ps, ps', k);
      }
    }
  }
}
