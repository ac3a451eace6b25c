/** Choice of the primary link: immediate when the current one is gone, and otherwise only
    after a clearly better link has kept its lead for several refreshes in a row. */
module Primary {
  import opened Bytes

  const MARGIN: real := 0.2

  /** A link that is up, with its score. */
  datatype Up = Up(link: nat, score: real)

  datatype Config = Config(followPeer: bool, primaryMode: bool, upThreshold: nat)

  datatype Candidate = Candidate(link: nat, count: nat)

  datatype Choice = Choice(primary: Option<nat>, candidate: Option<Candidate>)

  const UNDECIDED: Choice := Choice(None, None)

  predicate IsUp(ups: seq<Up>, link: nat) {
    exists i :: 0 <= i < |ups| && ups[i].link == link
  }

  /** The score of the first element for `link`. */
  function ScoreOf(ups: seq<Up>, link: nat): (r: Option<real>)
    ensures r.Some? <==> IsUp(ups, link)
  {
    if ups == [] then None
    else if ups[0].link == link then Some(ups[0].score)
    else
      var r := ScoreOf(ups[1..], link);
      assert forall i :: 0 < i < |ups| ==> ups[i] == ups[1..][i - 1];
      r
  }

  function Others(ups: seq<Up>, link: nat): seq<Up> {
    if ups == [] then []
    else Others(ups[..|ups| - 1], link) + (if ups[|ups| - 1].link == link then [] else [ups[|ups| - 1]])
  }

  /** The element with the largest score, the last one among equals. */
  function Best(ups: seq<Up>): Option<Up> {
    if ups == [] then None
    else
      var b, u := Best(ups[..|ups| - 1]), ups[|ups| - 1];
      if b.Some? && b.value.score > u.score then b else Some(u)
  }

  function LinkOf(u: Option<Up>): Option<nat> {
    if u.Some? then Some(u.value.link) else None
  }

  /** Some other link beats the primary by more than the margin, and which. */
  function Challenger(ups: seq<Up>, primary: nat): Option<nat> {
    var score, other := ScoreOf(ups, primary), Best(Others(ups, primary));
    if score.Some? && other.Some? && other.value.score > score.value * (1.0 + MARGIN) then Some(other.value.link)
        else None
  }

  function Streak(c: Choice, q: nat, threshold: nat): Choice {
    if c.candidate.Some? && c.candidate.value.link == q then
      var count := c.candidate.value.count + 1;
      if count >= threshold then Choice(Some(q), None) else Choice(c.primary, Some(Candidate(q, count)))
    else Choice(c.primary, Some(Candidate(q, 1)))
  }

  function Refresh(c: Choice, ups: seq<Up>, cfg: Config, peer: Option<nat>): Choice {
    if cfg.followPeer then Choice(if peer.Some? && IsUp(ups, peer.value) then peer else None, None)
    else if !cfg.primaryMode then UNDECIDED
    else if c.primary.None? || !IsUp(ups, c.primary.value) then Choice(LinkOf(Best(ups)), None)
    else
      var q := Challenger(ups, c.primary.value);
      if q.None? then Choice(c.primary, None) else Streak(c, q.value, cfg.upThreshold)
  }

  // ----- what the helpers mean

  lemma {:induction false} BestIsLargest(ups: seq<Up>)
    ensures Best(ups).None? <==> ups == []
    ensures Best(ups).Some? ==> exists i :: 0 <= i < |ups| && ups[i] == Best(ups).value
    ensures forall i :: 0 <= i < |ups| ==> ups[i].score <= Best(ups).value.score
  {
    if ups != [] {
      var n := |ups| - 1;
      BestIsLargest(ups[..n]);
      if Best(ups) == Best(ups[..n]) && n > 0 {
        var i :| 0 <= i < n && ups[..n][i] == Best(ups[..n]).value;
        assert ups[i] == Best(ups).value;
      }
    }
  }

  lemma {:induction false} OthersAre(ups: seq<Up>, link: nat, u: Up)
    ensures u in Others(ups, link) <==> u in ups && u.link != link
  {
    if ups != [] {
      OthersAre(ups[..|ups| - 1], link, u);
      assert ups == ups[..|ups| - 1] + [ups[|ups| - 1]];
    }
  }

  /** `u` is an up link other than `p`, and none of the others scores higher. */
  ghost predicate BestOther(ups: seq<Up>, p: nat, u: Up) {
    u in ups && u.link != p && forall v :: v in ups && v.link != p ==> v.score <= u.score
  }

  lemma BestOfOthers(ups: seq<Up>, p: nat, best: Option<Up>)
    requires best == Best(Others(ups, p))
    ensures best.Some? ==> BestOther(ups, p, best.value)
    ensures best.None? ==> forall v :: v in ups ==> v.link == p
  {
    var others := Others(ups, p);
    BestIsLargest(others);
    forall v | v in ups && v.link != p ensures v in others {
      OthersAre(ups, p, v);
    }
    if best.Some? {
      OthersAre(ups, p, best.value);
    }
  }

  /** A challenger is a best other link and leads the primary by more than a fifth; with
      none, no other link leads by so much. */
  lemma ChallengerMeans(ups: seq<Up>, p: nat, score: real)
    requires ScoreOf(ups, p) == Some(score)
    ensures var q := Challenger(ups, p);
            && (q.Some? ==> exists u :: BestOther(ups, p, u) && u.link == q.value && u.score > score * 1.2)
            && (q.None? ==> forall v :: v in ups && v.link != p ==> v.score <= score * 1.2)
  {
    BestOfOthers(ups, p, Best(Others(ups, p)));
  }

  // ----- runs of refreshes

  datatype Input = Input(ups: seq<Up>, cfg: Config, peer: Option<nat>)

  ghost function RunTo(start: Choice, xs: seq<Input>, k: nat): Choice
    requires k <= |xs|
  {
    if k == 0 then start else Refresh(RunTo(start, xs, k - 1), xs[k - 1].ups, xs[k - 1].cfg, xs[k - 1].peer)
  }

  /** At refresh `j` the scheduler chooses its own primary, that is `p`, and `q` leads it. */
  ghost predicate BeatenAt(start: Choice, xs: seq<Input>, j: nat, p: nat, q: nat)
    requires j < |xs|
  {
    && xs[j].cfg.primaryMode && !xs[j].cfg.followPeer
    && RunTo(start, xs, j).primary == Some(p) && IsUp(xs[j].ups, p) && Challenger(xs[j].ups, p) == Some(q)
  }

  /** `q` led `p` at each of the last `n` refreshes before `k`. */
  ghost predicate BeatenFor(start: Choice, xs: seq<Input>, k: nat, n: nat, p: nat, q: nat)
    requires k <= |xs|
  {
    n <= k && forall j: nat :: k - n <= j < k ==> BeatenAt(start, xs, j, p, q)
  }

  /** The candidate's count is the length of a streak against the current primary. */
  ghost predicate Justified(start: Choice, xs: seq<Input>, k: nat)
    requires k <= |xs|
  {
    var c := RunTo(start, xs, k);
    c.candidate.Some? ==>
      c.primary.Some? && c.candidate.value.count >= 1
      && BeatenFor(start, xs, k, c.candidate.value.count, c.primary.value, c.candidate.value.link)
  }

  lemma BeatenNext(start: Choice, xs: seq<Input>, k: nat, n: nat, p: nat, q: nat)
    requires k < |xs| && BeatenFor(start, xs, k, n, p, q) && BeatenAt(start, xs, k, p, q)
    ensures BeatenFor(start, xs, k + 1, n + 1, p, q)
  {
  }

  /** What a refresh may do to the choice. */
  lemma RefreshCases(c: Choice, ups: seq<Up>, cfg: Config, peer: Option<nat>, c': Choice)
    requires c' == Refresh(c, ups, cfg, peer)
    ensures c'.candidate.Some? ==>
              && cfg.primaryMode && !cfg.followPeer && c'.primary == c.primary && c.primary.Some?
              && IsUp(ups, c.primary.value) && Challenger(ups, c.primary.value) == Some(c'.candidate.value.link)
              && c'.candidate.value.count == if c.candidate.Some? && c.candidate.value.link == c'.candidate.value.link
                                             then c.candidate.value.count + 1 else 1
  {
  }

  lemma JustifiedStep(start: Choice, xs: seq<Input>, k: nat)
    requires 0 < k <= |xs| && Justified(start, xs, k - 1)
    ensures Justified(start, xs, k)
  {
    var c, c', x := RunTo(start, xs, k - 1), RunTo(start, xs, k), xs[k - 1];
    RefreshCases(c, x.ups, x.cfg, x.peer, c');
    if c'.candidate.Some? {
      var p, q, n := c'.primary.value, c'.candidate.value.link, c'.candidate.value.count;
      assert BeatenAt(start, xs, k - 1, p, q);
      BeatenNext(start, xs, k - 1, n - 1, p, q);
    }
  }

  lemma {:induction false} RunJustified(start: Choice, xs: seq<Input>, k: nat)
    requires k <= |xs| && start.candidate.None?
    ensures Justified(start, xs, k)
    decreases k
  {
    if k > 0 {
      RunJustified(start, xs, k - 1);
      JustifiedStep(start, xs, k);
    }
  }

  function Needed(threshold: nat): nat {
    if threshold <= 2 then 2 else threshold
  }

  lemma SwitchCases(c: Choice, ups: seq<Up>, cfg: Config, peer: Option<nat>, p: nat, q: nat)
    requires cfg.primaryMode && !cfg.followPeer && c.primary == Some(p) && IsUp(ups, p) && q != p
    ensures Refresh(c, ups, cfg, peer).primary == Some(q) <==>
              Challenger(ups, p) == Some(q) && c.candidate.Some? && c.candidate.value.link == q
              && c.candidate.value.count + 1 >= cfg.upThreshold
  {
  }

  lemma BeatenLess(start: Choice, xs: seq<Input>, k: nat, n: nat, m: nat, p: nat, q: nat)
    requires k <= |xs| && BeatenFor(start, xs, k, n, p, q) && m <= n
    ensures BeatenFor(start, xs, k, m, p, q)
  {
  }

  /** A streak leaves its mark: the leader is the candidate with at least that count. */
  lemma {:induction false} StreakCounted(start: Choice, xs: seq<Input>, k: nat, n: nat, p: nat, q: nat)
    requires k < |xs| && n >= 1 && BeatenFor(start, xs, k, n, p, q) && RunTo(start, xs, k).primary == Some(p) && p != q
    ensures var c := RunTo(start, xs, k).candidate; c.Some? && c.value.link == q && c.value.count >= n
  {
    assert BeatenAt(start, xs, k - 1, p, q);
    if n > 1 {
      assert BeatenFor(start, xs, k - 1, n - 1, p, q);
      StreakCounted(start, xs, k - 1, n - 1, p, q);
    }
  }

  /** Hysteresis, exactly: while the primary `p` stays up, refresh `k` moves to `q` if and
      only if `q` led `p` by more than the margin at each of the last `Needed` refreshes,
      this one included, with `p` primary throughout. */
  lemma Hysteresis(start: Choice, xs: seq<Input>, k: nat, p: nat, q: nat, n: nat)
    requires k < |xs| && start.candidate.None? && n == Needed(xs[k].cfg.upThreshold) && q != p
    requires xs[k].cfg.primaryMode && !xs[k].cfg.followPeer
    requires RunTo(start, xs, k).primary == Some(p) && IsUp(xs[k].ups, p)
    ensures RunTo(start, xs, k + 1).primary == Some(q) <==> BeatenFor(start, xs, k + 1, n, p, q)
  {
    var c, x := RunTo(start, xs, k), xs[k];
    SwitchCases(c, x.ups, x.cfg, x.peer, p, q);
    RunJustified(start, xs, k);
    if RunTo(start, xs, k + 1).primary == Some(q) {
      var count := c.candidate.value.count;
      assert BeatenAt(start, xs, k, p, q);
      BeatenNext(start, xs, k, count, p, q);
      BeatenLess(start, xs, k + 1, count + 1, n, p, q);
    }
    if BeatenFor(start, xs, k + 1, n, p, q) {
      assert BeatenAt(start, xs, k, p, q);
      assert BeatenFor(start, xs, k, n - 1, p, q);
      StreakCounted(start, xs, k, n - 1, p, q);
    }
  }

  /** A primary that is gone is replaced at once by a link that scores highest. */
  lemma Failover(c: Choice, ups: seq<Up>, cfg: Config, peer: Option<nat>)
    requires cfg.primaryMode && !cfg.followPeer && (c.primary.None? || !IsUp(ups, c.primary.value))
    ensures var c' := Refresh(c, ups, cfg, peer);
            && c'.candidate.None? && (c'.primary.None? <==> ups == [])
            && (c'.primary.Some? ==> exists u :: u in ups && u.link == c'.primary.value && forall v :: v in ups ==> v.score <= u.score)
  {
    BestIsLargest(ups);
  }

  /** Whatever the mode, a primary is always a link that is up. */
  lemma PrimaryIsUp(c: Choice, ups: seq<Up>, cfg: Config, peer: Option<nat>)
    ensures var c' := Refresh(c, ups, cfg, peer); c'.primary.Some? ==> IsUp(ups, c'.primary.value)
  {
    BestIsLargest(ups);
    if c.primary.Some? && IsUp(ups, c.primary.value) {
      BestOfOthers(ups, c.primary.value, Best(Others(ups, c.primary.value)));
    }
  }
}

/** The choice in the other modes, and between equal scores. */
module PrimaryModes {
  import opened Bytes
  import opened Primary

  /** Following the peer, its choice is taken exactly when that link is up; in neither mode
      there is no primary. A link kept as candidate is forgotten either way. */
  lemma OtherModes(c: Choice, ups: seq<Up>, cfg: Config, peer: Option<nat>, link: nat)
    requires cfg.followPeer || !cfg.primaryMode
    ensures var c' := Refresh(c, ups, cfg, peer);
            && c'.candidate.None?
            && (c'.primary == Some(link) <==> cfg.followPeer && peer == Some(link) && exists u :: u in ups && u.link == link)
  {
    if i :| 0 <= i < |ups| && ups[i].link == link {
      assert ups[i] in ups;
    }
    if u :| u in ups && u.link == link {
      var i :| 0 <= i < |ups| && ups[i] == u;
    }
  }

  /** Nothing before `i` scores higher, everything behind it less. */
  ghost predicate LastBest(ups: seq<Up>, i: nat) {
    i < |ups| && (forall j :: 0 <= j < i ==> ups[j].score <= ups[i].score) && forall j :: i < j < |ups| ==> ups[j].score < ups[i].score
  }

  /** Among equal scores the later link is preferred. */
  lemma {:induction false} BestIsLast(ups: seq<Up>) returns (i: nat)
    requires ups != []
    ensures LastBest(ups, i) && Best(ups) == Some(ups[i])
  {
    var n := |ups| - 1;
    if n > 0 && Best(ups[..n]).value.score > ups[n].score {
      i := BestIsLast(ups[..n]);
      assert forall j :: 0 <= j < n ==> ups[j] == ups[..n][j];
    } else {
      i := n;
      BestIsLargest(ups);
    }
  }
}
