/** Smooth weighted round robin on vectors of weights: conservation, bounded deviation from
    the proportional share, and exact periodicity. */
module Swrr {

  // ----- sums over subsets of positions

  /** The sum of `v` over the positions below `n` that are in `S`. */
  function SumIn(v: seq<real>, S: set<nat>, n: nat): real
    requires n <= |v|
  {
    if n == 0 then 0.0 else SumIn(v, S, n - 1) + (if n - 1 in S then v[n - 1] else 0.0)
  }

  function CountIn(S: set<nat>, n: nat): nat {
    if n == 0 then 0 else CountIn(S, n - 1) + (if n - 1 in S then 1 else 0)
  }

  lemma {:induction false} SumUpdate(v: seq<real>, S: set<nat>, n: nat, x: nat, y: real)
    requires n <= |v| && x < |v|
    ensures SumIn(v[x := y], S, n) == SumIn(v, S, n) + (if x < n && x in S then y - v[x] else 0.0)
  {
    if n > 0 {
      SumUpdate(v, S, n - 1, x, y);
    }
  }

  lemma {:induction false} SumInsert(v: seq<real>, S: set<nat>, n: nat, x: nat)
    requires n <= |v| && x < |v| && x !in S
    ensures SumIn(v, S + {x}, n) == SumIn(v, S, n) + (if x < n then v[x] else 0.0)
    ensures CountIn(S + {x}, n) == CountIn(S, n) + (if x < n then 1 else 0)
  {
    if n > 0 {
      SumInsert(v, S, n - 1, x);
    }
  }

  lemma {:induction false} SumNonNegative(v: seq<real>, S: set<nat>, n: nat)
    requires n <= |v| && forall i :: 0 <= i < |v| ==> v[i] >= 0.0
    ensures 0.0 <= SumIn(v, S, n)
  {
    if n > 0 {
      SumNonNegative(v, S, n - 1);
    }
  }

  lemma {:induction false} SumSubset(v: seq<real>, S: set<nat>, T: set<nat>, n: nat)
    requires n <= |v| && S <= T && forall i :: 0 <= i < |v| ==> v[i] >= 0.0
    ensures SumIn(v, S, n) <= SumIn(v, T, n)
    ensures CountIn(S, n) <= CountIn(T, n) <= n
  {
    if n > 0 {
      SumSubset(v, S, T, n - 1);
    }
  }

  /** A sum of terms none of which exceeds `top`. */
  lemma {:induction false} SumBelow(v: seq<real>, S: set<nat>, n: nat, top: real)
    requires n <= |v| && forall i :: 0 <= i < n && i in S ==> v[i] <= top
    ensures SumIn(v, S, n) <= CountIn(S, n) as real * top
  {
    if n > 0 {
      SumBelow(v, S, n - 1, top);
    }
  }

  lemma {:induction false} SumZero(n: nat, S: set<nat>, m: nat)
    requires m <= n
    ensures SumIn(seq(n, _ => 0.0), S, m) == 0.0
  {
    if m > 0 {
      SumZero(n, S, m - 1);
    }
  }

  /** The positions below `n`. */
  function All(n: nat): (s: set<nat>)
    ensures forall i: nat :: i in s <==> i < n
  {
    if n == 0 then {} else All(n - 1) + {n - 1}
  }

  lemma {:induction false} CountAll(n: nat, m: nat)
    requires m <= n
    ensures CountIn(All(n), m) == m
  {
    if m > 0 {
      CountAll(n, m - 1);
    }
  }

  // ----- one pick

  /** Weights and running weights of the entries that compete. */
  datatype Pool = Pool(weight: seq<real>, current: seq<real>) {
    ghost predicate Valid() {
      |weight| == |current| && |weight| > 0 && forall i :: 0 <= i < |weight| ==> weight[i] > 0.0
    }
  }

  /** Every eligible entry advances by its weight. */
  function Advanced(p: Pool, E: set<nat>): (d: seq<real>)
    requires |p.weight| == |p.current|
    ensures |d| == |p.current|
  {
    seq(|p.current|, i requires 0 <= i < |p.current| => if i in E then p.current[i] + p.weight[i] else p.current[i])
  }

  /** The eligible entry with the largest running weight, the last one among equals. */
  ghost predicate IsWinner(d: seq<real>, E: set<nat>, x: nat) {
    && x < |d| && x in E
    && (forall i :: 0 <= i < |d| && i in E ==> d[i] <= d[x])
    && (forall i :: x < i < |d| && i in E ==> d[i] < d[x])
  }

  /** The winner then pays the total weight of those that competed. */
  function Picked(p: Pool, E: set<nat>, x: nat): Pool
    requires |p.weight| == |p.current| && x < |p.current|
  {
    var d := Advanced(p, E);
    Pool(p.weight, d[x := d[x] - SumIn(p.weight, E, |p.weight|)])
  }

  lemma {:induction false} AdvancedSum(p: Pool, E: set<nat>, S: set<nat>, n: nat)
    requires |p.weight| == |p.current| && n <= |p.current|
    ensures SumIn(Advanced(p, E), S, n) == SumIn(p.current, S, n) + SumIn(p.weight, S * E, n)
  {
    if n > 0 {
      AdvancedSum(p, E, S, n - 1);
    }
  }

  lemma AllSum(v: seq<real>, E: set<nat>, n: nat)
    requires n <= |v|
    ensures SumIn(v, All(n) * E, n) == SumIn(v, E, n)
  {
    SameSum(v, All(n) * E, E, n);
  }

  lemma {:induction false} SameSum(v: seq<real>, S: set<nat>, T: set<nat>, n: nat)
    requires n <= |v| && forall i: nat :: i < n ==> (i in S <==> i in T)
    ensures SumIn(v, S, n) == SumIn(v, T, n) && CountIn(S, n) == CountIn(T, n)
  {
    if n > 0 {
      SameSum(v, S, T, n - 1);
    }
  }

  /** Conservation: whoever competes and whoever wins, the running weights keep their sum. */
  lemma PickConserves(p: Pool, E: set<nat>, x: nat)
    requires |p.weight| == |p.current| && x < |p.current| && x in E
    ensures var n := |p.current|; SumIn(Picked(p, E, x).current, All(n), n) == SumIn(p.current, All(n), n)
  {
    var n, d := |p.current|, Advanced(p, E);
    AdvancedSum(p, E, All(n), n);
    AllSum(p.weight, E, n);
    SumUpdate(d, All(n), n, x, d[x] - SumIn(p.weight, E, n));
  }

  // ----- bounded deviation when every entry competes

  /** 1/(m+1) + ... + 1/n. */
  function Tail(m: nat, n: nat): real
    requires m <= n
    decreases n - m
  {
    if m == n then 0.0 else 1.0 / (m + 1) as real + Tail(m + 1, n)
  }

  lemma {:induction false} TailNonNegative(m: nat, n: nat)
    requires m <= n
    ensures Tail(m, n) >= 0.0
    decreases n - m
  {
    if m < n {
      TailNonNegative(m + 1, n);
    }
  }

  ghost function Total(p: Pool): real {
    SumIn(p.weight, All(|p.weight|), |p.weight|)
  }

  lemma CountBound(S: set<nat>, n: nat)
    ensures CountIn(S, n) <= n
  {
  }

  /** What `m` running weights may add up to: `m` times the total weight times
      1/(m+1) + ... + 1/n. */
  ghost function Bound(m: nat, n: nat, total: real): real
    requires m <= n
  {
    m as real * (total * Tail(m, n))
  }

  ghost predicate BoundedOn(p: Pool, S: set<nat>)
    requires |p.weight| == |p.current|
  {
    var n := |p.current|;
    CountBound(S, n);
    SumIn(p.current, S, n) <= Bound(CountIn(S, n), n, Total(p))
  }

  ghost predicate BoundedAbove(p: Pool)
    requires |p.weight| == |p.current|
  {
    forall S: set<nat> :: BoundedOn(p, S)
  }

  lemma TotalPositive(p: Pool)
    requires p.Valid()
    ensures Total(p) > 0.0
  {
    var n := |p.weight|;
    SumNonNegative(p.weight, All(n), n - 1);
  }

  /** A subset gains at most the total, and the winner pays it back. */
  lemma PickSums(p: Pool, x: nat, S: set<nat>)
    requires p.Valid() && x < |p.current|
    ensures var n := |p.current|;
            var d := Advanced(p, All(n));
            && SumIn(d, S, n) <= SumIn(p.current, S, n) + Total(p)
            && SumIn(Picked(p, All(n), x).current, S, n) == SumIn(d, S, n) - (if x in S then Total(p) else 0.0)
  {
    var n := |p.current|;
    var d := Advanced(p, All(n));
    AdvancedSum(p, All(n), S, n);
    SumUpdate(d, S, n, x, d[x] - Total(p));
    SumSubset(p.weight, S * All(n), All(n), n);
  }

  /** The winner is in the subset: it pays at least what the subset gained. */
  lemma BoundWithWinner(p: Pool, x: nat, S: set<nat>)
    requires p.Valid() && x < |p.current| && x in S && BoundedOn(p, S)
    ensures BoundedOn(Picked(p, All(|p.current|), x), S)
  {
    PickSums(p, x, S);
    assert Total(Picked(p, All(|p.current|), x)) == Total(p);
  }

  lemma AverageArithmetic(m: nat, sum: real, top: real, total: real, rest: real)
    requires sum <= m as real * top
    requires sum + top <= (m + 1) as real * (total * rest) + total
    ensures sum <= m as real * (total * (1.0 / (m + 1) as real + rest))
  {
    var k := (m + 1) as real;
    assert k == m as real + 1.0;
    assert k * sum <= m as real * (sum + top) by {
      assert k * sum == m as real * sum + sum;
    }
    assert m as real * (sum + top) <= m as real * (k * (total * rest) + total);
    calc {
      m as real * (k * (total * rest) + total);
      k * (m as real * (total * rest)) + m as real * total;
      k * (m as real * (total * rest)) + k * (m as real * (total * (1.0 / k)));
      k * (m as real * (total * rest + total * (1.0 / k)));
    }
    assert total * rest + total * (1.0 / k) == total * (1.0 / k + rest);
  }

  lemma AverageBound(m: nat, n: nat, sum: real, top: real, total: real)
    requires m < n && sum <= m as real * top && sum + top <= Bound(m + 1, n, total) + total
    ensures sum <= Bound(m, n, total)
  {
    AverageArithmetic(m, sum, top, total, Tail(m + 1, n));
  }

  ghost predicate AtMostTimes(sum: real, m: nat, top: real) {
    sum <= m as real * top
  }

  ghost predicate AtMostBound(sum: real, m: nat, n: nat, total: real)
    requires m <= n
  {
    sum <= Bound(m, n, total) + total
  }

  lemma BelowWinner(d: seq<real>, x: nat, S: set<nat>)
    requires IsWinner(d, All(|d|), x)
    ensures AtMostTimes(SumIn(d, S, |d|), CountIn(S, |d|), d[x])
  {
    SumBelow(d, S, |d|, d[x]);
  }

  lemma GainBounded(p: Pool, d: seq<real>, x: nat, S: set<nat>, m: nat, total: real)
    requires p.Valid() && d == Advanced(p, All(|p.current|)) && total == Total(p) && x < |d|
    requires BoundedOn(p, S) && m == CountIn(S, |d|) <= |d|
    ensures AtMostBound(SumIn(d, S, |d|), m, |d|, total)
  {
    PickSums(p, x, S);
  }

  lemma AverageApart(m: nat, n: nat, sum: real, top: real, total: real)
    requires m < n && AtMostTimes(sum, m, top) && AtMostBound(sum + top, m + 1, n, total)
    ensures sum <= Bound(m, n, total)
  {
    AverageBound(m, n, sum, top, total);
  }

  /** As the largest, the winner is at least the subset's average, so the bound for the
      subset with the winner gives one for the subset alone. */
  lemma BoundBeforePaying(p: Pool, d: seq<real>, x: nat, S: set<nat>, total: real)
    requires p.Valid() && d == Advanced(p, All(|p.current|)) && total == Total(p)
    requires IsWinner(d, All(|p.current|), x) && x !in S && BoundedOn(p, S + {x})
    ensures CountIn(S, |d|) <= |d| && SumIn(d, S, |d|) <= Bound(CountIn(S, |d|), |d|, total)
  {
    var n := |d|;
    var m := CountIn(S, n);
    CountBound(S + {x}, n);
    assert SumIn(d, S + {x}, n) == SumIn(d, S, n) + d[x] && CountIn(S + {x}, n) == m + 1 by { SumInsert(d, S, n, x); }
    BelowWinner(d, x, S);
    GainBounded(p, d, x, S + {x}, m + 1, total);
    AverageApart(m, n, SumIn(d, S, n), d[x], total);
  }

  lemma BoundWithoutWinner(p: Pool, x: nat, S: set<nat>)
    requires p.Valid() && IsWinner(Advanced(p, All(|p.current|)), All(|p.current|), x) && x !in S
    requires BoundedOn(p, S + {x})
    ensures BoundedOn(Picked(p, All(|p.current|), x), S)
  {
    BoundBeforePaying(p, Advanced(p, All(|p.current|)), x, S, Total(p));
    PickSums(p, x, S);
    assert Total(Picked(p, All(|p.current|), x)) == Total(p);
  }

  lemma PickBounded(p: Pool, x: nat)
    requires p.Valid() && IsWinner(Advanced(p, All(|p.current|)), All(|p.current|), x) && BoundedAbove(p)
    ensures BoundedAbove(Picked(p, All(|p.current|), x))
  {
    forall S: set<nat> ensures BoundedOn(Picked(p, All(|p.current|), x), S) {
      if x in S {
        BoundWithWinner(p, x, S);
      } else {
        BoundWithoutWinner(p, x, S);
      }
    }
  }

  /** No running weight falls to minus the total, or even within 1/n of it. */
  ghost predicate BoundedBelow(p: Pool)
    requires |p.weight| == |p.current|
  {
    forall i :: 0 <= i < |p.current| ==> AboveFloor(|p.current|, p.current[i], Total(p))
  }

  ghost predicate AboveFloor(n: nat, c: real, total: real) {
    n as real * c >= (1.0 - n as real) * total
  }

  lemma FloorArithmetic(n: nat, c: real, w: real, total: real)
    requires w >= 0.0
    ensures AboveFloor(n, c, total) ==> AboveFloor(n, c + w, total)
    ensures n as real * c >= total ==> AboveFloor(n, c - total, total)
  {
    assert n as real * (c + w) == n as real * c + n as real * w;
    assert n as real * (c - total) == n as real * c - n as real * total;
  }

  /** The largest of `n` running weights that add up to the total is at least 1/n of it. */
  lemma WinnerIsLarge(p: Pool, x: nat)
    requires p.Valid() && IsWinner(Advanced(p, All(|p.current|)), All(|p.current|), x)
    requires SumIn(p.current, All(|p.current|), |p.current|) == 0.0
    ensures |p.current| as real * Advanced(p, All(|p.current|))[x] >= Total(p)
  {
    var n := |p.current|;
    var d := Advanced(p, All(n));
    AdvancedSum(p, All(n), All(n), n);
    AllSum(p.weight, All(n), n);
    SumBelow(d, All(n), n, d[x]);
    CountAll(n, n);
  }

  lemma PickBoundedBelow(p: Pool, x: nat)
    requires p.Valid() && IsWinner(Advanced(p, All(|p.current|)), All(|p.current|), x)
    requires BoundedBelow(p) && SumIn(p.current, All(|p.current|), |p.current|) == 0.0
    ensures BoundedBelow(Picked(p, All(|p.current|), x))
  {
    var n := |p.current|;
    var d, p' := Advanced(p, All(n)), Picked(p, All(n), x);
    WinnerIsLarge(p, x);
    assert Total(p') == Total(p);
    forall i | 0 <= i < n ensures AboveFloor(n, p'.current[i], Total(p)) {
      FloorArithmetic(n, p.current[i], p.weight[i], Total(p));
      FloorArithmetic(n, d[i], 0.0, Total(p));
    }
  }

  // ----- runs from a fresh table

  ghost function Fresh(w: seq<real>): Pool {
    Pool(w, seq(|w|, _ => 0.0))
  }

  ghost predicate InRange(w: seq<real>, xs: seq<nat>) {
    forall k :: 0 <= k < |xs| ==> xs[k] < |w|
  }

  /** The pool after the first `k` of the winners `xs`, starting from running weights of zero. */
  ghost function After(w: seq<real>, xs: seq<nat>, k: nat): (p: Pool)
    requires InRange(w, xs) && k <= |xs|
    ensures p.weight == w && |p.current| == |w|
  {
    if k == 0 then Fresh(w) else Picked(After(w, xs, k - 1), All(|w|), xs[k - 1])
  }

  ghost predicate Follows(w: seq<real>, xs: seq<nat>, k: nat)
    requires InRange(w, xs) && k < |xs|
  {
    IsWinner(Advanced(After(w, xs, k), All(|w|)), All(|w|), xs[k])
  }

  /** `xs` are the picks from a fresh table with the weights `w`, in order. */
  ghost predicate IsRun(w: seq<real>, xs: seq<nat>) {
    InRange(w, xs) && forall k: nat :: k < |xs| ==> Follows(w, xs, k)
  }

  lemma {:induction false} AfterPrefix(w: seq<real>, xs: seq<nat>, x: nat, k: nat)
    requires InRange(w, xs) && x < |w| && k <= |xs|
    ensures After(w, xs + [x], k) == After(w, xs, k)
  {
    if k > 0 {
      AfterPrefix(w, xs, x, k - 1);
    }
  }

  lemma FollowsPrefix(w: seq<real>, xs: seq<nat>, x: nat, xs': seq<nat>, k: nat)
    requires InRange(w, xs) && x < |w| && xs' == xs + [x] && k <= |xs|
    requires IsWinner(Advanced(After(w, xs, k), All(|w|)), All(|w|), xs'[k])
    ensures InRange(w, xs') && Follows(w, xs', k)
  {
    AfterPrefix(w, xs, x, k);
  }

  /** A run goes on with whoever wins next. */
  lemma RunNext(w: seq<real>, xs: seq<nat>, x: nat, xs': seq<nat>)
    requires IsRun(w, xs) && IsWinner(Advanced(After(w, xs, |xs|), All(|w|)), All(|w|), x) && x < |w| && xs' == xs + [x]
    ensures IsRun(w, xs') && After(w, xs', |xs'|) == Picked(After(w, xs, |xs|), All(|w|), x)
  {
    forall k: nat | k < |xs'| ensures Follows(w, xs', k) {
      assert k < |xs| ==> Follows(w, xs, k);
      FollowsPrefix(w, xs, x, xs', k);
    }
    AfterPrefix(w, xs, x, |xs|);
  }

  /** How often `i` is among the first `k` picks. */
  function Wins(xs: seq<nat>, k: nat, i: nat): nat
    requires k <= |xs|
  {
    if k == 0 then 0 else Wins(xs, k - 1, i) + (if xs[k - 1] == i then 1 else 0)
  }

  ghost predicate PositiveWeights(w: seq<real>) {
    |w| > 0 && forall i :: 0 <= i < |w| ==> w[i] > 0.0
  }

  /** A running weight records exactly how far an entry is ahead of or behind its share. */
  lemma {:induction false} Ledger(w: seq<real>, xs: seq<nat>, k: nat, i: nat)
    requires InRange(w, xs) && k <= |xs| && i < |w|
    ensures After(w, xs, k).current[i] == Balance(k, w[i], Total(Fresh(w)), Wins(xs, k, i))
  {
    if k > 0 {
      Ledger(w, xs, k - 1, i);
      BalanceNext(k - 1, w[i], Total(Fresh(w)), Wins(xs, k - 1, i));
    } else {
      BalanceZero(w[i], Total(Fresh(w)));
    }
  }

  /** What an entry has earned in `k` picks less what it has paid. */
  ghost function Balance(k: nat, w: real, total: real, wins: nat): real {
    k as real * w - total * wins as real
  }

  lemma BalanceZero(w: real, total: real)
    ensures Balance(0, w, total, 0) == 0.0
  {
  }

  lemma BalanceNext(k: nat, w: real, total: real, wins: nat)
    ensures Balance(k + 1, w, total, wins) == Balance(k, w, total, wins) + w
    ensures Balance(k + 1, w, total, wins + 1) == Balance(k, w, total, wins) + w - total
  {
    assert (k + 1) as real * w == k as real * w + w;
    assert total * (wins + 1) as real == total * wins as real + total;
  }

  lemma BoundNonNegative(m: nat, n: nat, total: real)
    requires m <= n && total >= 0.0
    ensures Bound(m, n, total) >= 0.0
  {
    TailNonNegative(m, n);
    assert total * Tail(m, n) >= 0.0;
  }

  lemma FreshInv(w: seq<real>)
    requires PositiveWeights(w)
    ensures var p := Fresh(w); BoundedAbove(p) && BoundedBelow(p) && SumIn(p.current, All(|w|), |w|) == 0.0
  {
    var p, n := Fresh(w), |w|;
    TotalPositive(p);
    forall S: set<nat> ensures BoundedOn(p, S) {
      SumZero(n, S, n);
      CountBound(S, n);
      BoundNonNegative(CountIn(S, n), n, Total(p));
    }
    SumZero(n, All(n), n);
    assert (1.0 - n as real) * Total(p) <= 0.0;
  }

  lemma {:induction false} RunInv(w: seq<real>, xs: seq<nat>, k: nat)
    requires PositiveWeights(w) && IsRun(w, xs) && k <= |xs|
    ensures var p := After(w, xs, k); BoundedAbove(p) && BoundedBelow(p) && SumIn(p.current, All(|w|), |w|) == 0.0
  {
    if k == 0 {
      FreshInv(w);
    } else {
      RunInv(w, xs, k - 1);
      assert Follows(w, xs, k - 1);
      var p := After(w, xs, k - 1);
      PickBounded(p, xs[k - 1]);
      PickBoundedBelow(p, xs[k - 1]);
      PickConserves(p, All(|w|), xs[k - 1]);
    }
  }

  lemma Singleton(v: seq<real>, i: nat, n: nat)
    requires i < n <= |v|
    ensures SumIn(v, {i}, n) == v[i] && CountIn({i}, n) == 1
  {
    SumInsert(v, {}, n, i);
    assert {} + {i} == {i};
    EmptySum(v, n);
  }

  lemma {:induction false} EmptySum(v: seq<real>, n: nat)
    requires n <= |v|
    ensures SumIn(v, {}, n) == 0.0 && CountIn({}, n) == 0
  {
    if n > 0 {
      EmptySum(v, n - 1);
    }
  }

  /** At most 1/2 + ... + 1/n of the total. */
  ghost predicate BelowCeiling(n: nat, c: real, total: real)
    requires n > 0
  {
    c <= total * Tail(1, n)
  }

  /** `wins` out of `k` picks against the proportional share `k * w / total`, for `n` entries:
      at most 1 - 1/n ahead, at most 1/2 + ... + 1/n behind. */
  ghost predicate FairShare(n: nat, k: nat, w: real, total: real, wins: nat)
    requires n > 0
  {
    && n as real * (total * wins as real) <= n as real * (k as real * w) + (n as real - 1.0) * total
    && total * wins as real >= k as real * w - total * Tail(1, n)
  }

  lemma FairArithmetic(n: nat, k: nat, w: real, total: real, wins: nat)
    requires n > 0 && AboveFloor(n, Balance(k, w, total, wins), total)
    requires BelowCeiling(n, Balance(k, w, total, wins), total)
    ensures FairShare(n, k, w, total, wins)
  {
    assert n as real * Balance(k, w, total, wins) == n as real * (k as real * w) - n as real * (total * wins as real);
    assert (1.0 - n as real) * total == -((n as real - 1.0) * total);
  }

  lemma OneBound(n: nat, c: real, total: real)
    requires n > 0 && c <= Bound(1, n, total)
    ensures BelowCeiling(n, c, total)
  {
  }

  lemma SingleBound(p: Pool, i: nat)
    requires |p.weight| == |p.current| && i < |p.current| && BoundedAbove(p)
    ensures BelowCeiling(|p.current|, p.current[i], Total(p))
  {
    Singleton(p.current, i, |p.current|);
    assert BoundedOn(p, {i});
    OneBound(|p.current|, p.current[i], Total(p));
  }

  lemma RunBounds(w: seq<real>, xs: seq<nat>, k: nat, i: nat, c: real, total: real)
    requires PositiveWeights(w) && IsRun(w, xs) && k <= |xs| && i < |w|
    requires c == After(w, xs, k).current[i] && total == Total(After(w, xs, k))
    ensures AboveFloor(|w|, c, total) && BelowCeiling(|w|, c, total)
  {
    RunInv(w, xs, k);
    SingleBound(After(w, xs, k), i);
  }

  /** Proportional fairness after any number `k` of picks from a fresh table. */
  lemma Fairness(w: seq<real>, xs: seq<nat>, k: nat, i: nat, total: real)
    requires PositiveWeights(w) && IsRun(w, xs) && k <= |xs| && i < |w| && total == Total(Fresh(w))
    ensures FairShare(|w|, k, w[i], total, Wins(xs, k, i))
  {
    Ledger(w, xs, k, i);
    RunBounds(w, xs, k, i, After(w, xs, k).current[i], total);
    FairArithmetic(|w|, k, w[i], total, Wins(xs, k, i));
  }

  lemma {:induction false} TailBelowLength(m: nat, n: nat)
    requires m <= n
    ensures Tail(m, n) <= (n - m) as real
    decreases n - m
  {
    if m < n {
      TailBelowLength(m + 1, n);
      assert 1.0 / (m + 1) as real <= 1.0;
    }
  }

  lemma PositiveFactor(n: real, d: real)
    requires n > 0.0 && n * d > 0.0
    ensures d > 0.0
  {
  }

  lemma AheadArithmetic(n: real, paid: real, earned: real, total: real)
    requires n > 0.0 && total > 0.0 && n * paid <= n * earned + (n - 1.0) * total
    ensures paid < earned + total
  {
    assert n * (earned + total - paid) == n * earned + n * total - n * paid;
    PositiveFactor(n, earned + total - paid);
  }

  /** Both sides in units of the total: fewer than one pick ahead of the proportional share
      `k * w / total`, at most `n - 1` picks behind it. */
  ghost predicate WithinPicks(n: nat, k: nat, w: real, total: real, wins: nat) {
    && total * wins as real < k as real * w + total
    && total * wins as real >= k as real * w - total * (n as real - 1.0)
  }

  lemma PicksArithmetic(n: nat, k: nat, w: real, total: real, wins: nat)
    requires n > 0 && total > 0.0 && FairShare(n, k, w, total, wins)
    ensures WithinPicks(n, k, w, total, wins)
  {
    AheadArithmetic(n as real, total * wins as real, k as real * w, total);
    TailBelowLength(1, n);
    assert total * Tail(1, n) <= total * (n as real - 1.0);
  }

  lemma FairnessInPicks(w: seq<real>, xs: seq<nat>, k: nat, i: nat, total: real)
    requires PositiveWeights(w) && IsRun(w, xs) && k <= |xs| && i < |w| && total == Total(Fresh(w))
    ensures total > 0.0 && WithinPicks(|w|, k, w[i], total, Wins(xs, k, i))
  {
    TotalPositive(Fresh(w));
    Fairness(w, xs, k, i, total);
    PicksArithmetic(|w|, k, w[i], total, Wins(xs, k, i));
  }

  // ----- whole-number weights: one period

  ghost function Weights(c: seq<nat>): (w: seq<real>)
    ensures |w| == |c|
  {
    seq(|c|, i requires 0 <= i < |c| => c[i] as real)
  }

  function WholeSum(c: seq<nat>, n: nat): nat
    requires n <= |c|
  {
    if n == 0 then 0 else WholeSum(c, n - 1) + c[n - 1]
  }

  lemma {:induction false} WholeTotal(c: seq<nat>, S: set<nat>, n: nat)
    requires n <= |c| && forall i: nat :: i < n ==> i in S
    ensures SumIn(Weights(c), S, n) == WholeSum(c, n) as real
  {
    if n > 0 {
      WholeTotal(c, S, n - 1);
    }
  }

  /** How often each entry below `n` is among the first `k` picks. */
  ghost function AllWins(xs: seq<nat>, k: nat, n: nat): (ws: seq<nat>)
    requires k <= |xs|
    ensures |ws| == n
  {
    seq(n, i requires 0 <= i < n => Wins(xs, k, i))
  }

  lemma {:induction false} AllWinsNext(xs: seq<nat>, k: nat, n: nat, m: nat)
    requires 0 < k <= |xs| && m <= n
    ensures WholeSum(AllWins(xs, k, n), m)
            == WholeSum(AllWins(xs, k - 1, n), m) + (if xs[k - 1] < m then 1 else 0)
  {
    if m > 0 {
      AllWinsNext(xs, k, n, m - 1);
    }
  }

  lemma {:induction false} NoWins(xs: seq<nat>, n: nat, m: nat)
    requires m <= n
    ensures WholeSum(AllWins(xs, 0, n), m) == 0
  {
    if m > 0 {
      NoWins(xs, n, m - 1);
    }
  }

  lemma {:induction false} AllWinsSum(xs: seq<nat>, k: nat, n: nat)
    requires k <= |xs| && forall j :: 0 <= j < |xs| ==> xs[j] < n
    ensures WholeSum(AllWins(xs, k, n), n) == k
  {
    if k == 0 {
      NoWins(xs, n, n);
    } else {
      AllWinsSum(xs, k - 1, n);
      AllWinsNext(xs, k, n, n);
    }
  }

  /** Nothing above, equal sums: equal everywhere. */
  lemma {:induction false} Squeezed(a: seq<nat>, c: seq<nat>, n: nat)
    requires n <= |a| == |c| && forall i :: 0 <= i < n ==> a[i] <= c[i]
    ensures WholeSum(a, n) <= WholeSum(c, n)
    ensures WholeSum(a, n) == WholeSum(c, n) ==> forall i :: 0 <= i < n ==> a[i] == c[i]
  {
    if n > 0 {
      Squeezed(a, c, n - 1);
    }
  }

  lemma WinsWithinWeight(n: nat, total: nat, c: nat, wins: nat)
    requires total > 0 && WithinPicks(n, total, c as real, total as real, wins)
    ensures wins <= c
  {
    var t := total as real;
    assert t * (c as real + 1.0 - wins as real) == t * c as real + t - t * wins as real;
    PositiveFactor(t, c as real + 1.0 - wins as real);
  }

  lemma BalanceSquare(total: nat, c: nat)
    ensures Balance(total, c as real, total as real, c) == 0.0
  {
  }

  ghost predicate PositiveWhole(c: seq<nat>) {
    |c| > 0 && forall i :: 0 <= i < |c| ==> c[i] > 0
  }

  lemma PeriodWins(c: seq<nat>, xs: seq<nat>, k: nat, i: nat)
    requires PositiveWhole(c) && IsRun(Weights(c), xs) && k == WholeSum(c, |c|) <= |xs| && i < |c|
    ensures Wins(xs, k, i) == c[i]
  {
    var n, w := |c|, Weights(c);
    WholeTotal(c, All(n), n);
    TotalPositive(Fresh(w));
    forall j | 0 <= j < n ensures AllWins(xs, k, n)[j] <= c[j] {
      FairnessInPicks(w, xs, k, j, k as real);
      WinsWithinWeight(n, k, c[j], Wins(xs, k, j));
    }
    AllWinsSum(xs, k, n);
    Squeezed(AllWins(xs, k, n), c, n);
    assert AllWins(xs, k, n)[i] == c[i];
  }

  lemma PeriodBalance(c: seq<nat>, xs: seq<nat>, k: nat, i: nat)
    requires PositiveWhole(c) && IsRun(Weights(c), xs) && k == WholeSum(c, |c|) <= |xs| && i < |c|
    ensures After(Weights(c), xs, k).current[i] == 0.0
  {
    WholeTotal(c, All(|c|), |c|);
    PeriodWins(c, xs, k, i);
    Ledger(Weights(c), xs, k, i);
    BalanceSquare(k, c[i]);
  }

  /** Exact periodicity: among the first `k` picks, `k` the total weight, every entry occurs
      exactly its weight in times, and then all running weights are back at zero. */
  lemma Periodicity(c: seq<nat>, xs: seq<nat>, k: nat)
    requires PositiveWhole(c) && IsRun(Weights(c), xs) && k == WholeSum(c, |c|) <= |xs|
    ensures forall i: nat :: i < |c| ==> Wins(xs, k, i) == c[i]
    ensures After(Weights(c), xs, k) == Fresh(Weights(c))
  {
    var p := After(Weights(c), xs, k);
    forall i: nat | i < |c| ensures Wins(xs, k, i) == c[i] && p.current[i] == 0.0 {
      PeriodWins(c, xs, k, i);
      PeriodBalance(c, xs, k, i);
    }
    assert p.current == Fresh(Weights(c)).current;
  }

  ghost predicate SameAt(w: seq<real>, xs: seq<nat>, i: nat, j: nat)
    requires InRange(w, xs) && i <= |xs| && j <= |xs|
  {
    After(w, xs, i) == After(w, xs, j)
  }

  /** From equal pools the same winner follows, and equal pools again. */
  lemma SamePick(w: seq<real>, xs: seq<nat>, i: nat, j: nat)
    requires IsRun(w, xs) && 0 < i <= |xs| && 0 < j <= |xs| && SameAt(w, xs, i - 1, j - 1)
    ensures xs[i - 1] == xs[j - 1] && SameAt(w, xs, i, j)
  {
    assert Follows(w, xs, i - 1) && Follows(w, xs, j - 1);
    assert After(w, xs, i) == Picked(After(w, xs, j - 1), All(|w|), xs[j - 1]);
  }

  lemma {:induction false} SameState(w: seq<real>, xs: seq<nat>, i: nat, k: nat, j: nat)
    requires IsRun(w, xs) && k <= j <= |xs| && i == j - k && SameAt(w, xs, i, 0)
    ensures SameAt(w, xs, j, k)
    decreases k
  {
    if k > 0 {
      SameState(w, xs, i, k - 1, j - 1);
      SamePick(w, xs, j, k);
    }
  }

  /** Hence every longer run repeats its first period for ever. */
  lemma RepeatsPeriod(c: seq<nat>, xs: seq<nat>, period: nat, k: nat)
    requires PositiveWhole(c) && IsRun(Weights(c), xs) && period == WholeSum(c, |c|) && period + k < |xs|
    ensures xs[period + k] == xs[k]
  {
    PeriodReturns(c, xs, period);
    SamePicks(Weights(c), xs, period, k);
  }

  lemma SamePicks(w: seq<real>, xs: seq<nat>, i: nat, k: nat)
    requires IsRun(w, xs) && i + k < |xs| && SameAt(w, xs, i, 0)
    ensures xs[i + k] == xs[k]
  {
    SameState(w, xs, i, k, i + k);
    SamePick(w, xs, i + k + 1, k + 1);
  }

  lemma PeriodReturns(c: seq<nat>, xs: seq<nat>, period: nat)
    requires PositiveWhole(c) && IsRun(Weights(c), xs) && period == WholeSum(c, |c|) <= |xs|
    ensures SameAt(Weights(c), xs, period, 0)
  {
    Periodicity(c, xs, period);
  }
}
