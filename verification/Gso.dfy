/** Coalescing datagrams into runs for UDP segmentation offload: the greedy planner is valid
    and no other plan has fewer runs. */
module Gso {
  const MAX_SEGMENTS: nat := 64
  const MAX_BYTES: nat := 65_000
  const U16_MAX: nat := 65_535

  datatype Run = Run(start: nat, len: nat)

  /** The bytes of `len` datagrams from `i` on. */
  function Total(sizes: seq<nat>, i: nat, len: nat): nat
    requires i + len <= |sizes|
  {
    if len == 0 then 0 else Total(sizes, i, len - 1) + sizes[i + len - 1]
  }

  /** What may go out as one message: any single datagram, or several of one size of which
      the last may be shorter but not empty. */
  ghost predicate Valid(sizes: seq<nat>, i: nat, len: nat) {
    && 1 <= len && i + len <= |sizes|
    && (len > 1 ==>
      && len <= 64 && Total(sizes, i, len) <= 65_000
      && (forall j :: i <= j < i + len - 1 ==> sizes[j] == sizes[i])
      && 0 < sizes[i + len - 1] <= sizes[i])
  }

  /** Consecutive valid runs that cover the datagrams from `i` on. */
  ghost predicate IsPlan(sizes: seq<nat>, i: nat, runs: seq<Run>)
    decreases |runs|
  {
    if runs == [] then i == |sizes|
    else runs[0].start == i && Valid(sizes, i, runs[0].len) && IsPlan(sizes, i + runs[0].len, runs[1..])
  }

  // ----- the planner

  /** How far a run that starts at `i` and already has `len` equal datagrams extends. */
  function Extended(sizes: seq<nat>, i: nat, len: nat): (r: nat)
    requires 1 <= len && i + len <= |sizes|
    ensures len <= r && i + r <= |sizes|
    decreases |sizes| - len
  {
    if i + len == |sizes| || len >= MAX_SEGMENTS then len
    else
      var s, size := sizes[i + len], sizes[i];
      if s == size && len * size + s <= MAX_BYTES then Extended(sizes, i, len + 1)
      else if 0 < s < size && len * size + s <= MAX_BYTES then len + 1
      else len
  }

  function Longest(sizes: seq<nat>, i: nat): (r: nat)
    requires i < |sizes|
    ensures 1 <= r && i + r <= |sizes|
  {
    if 0 < sizes[i] <= U16_MAX then Extended(sizes, i, 1) else 1
  }

  function Plan(sizes: seq<nat>, i: nat): seq<Run>
    requires i <= |sizes|
    decreases |sizes| - i
  {
    if i == |sizes| then [] else [Run(i, Longest(sizes, i))] + Plan(sizes, i + Longest(sizes, i))
  }

  // ----- the planner's run is the longest valid one

  lemma {:induction false} TotalEqual(sizes: seq<nat>, i: nat, len: nat)
    requires i < |sizes| && i + len <= |sizes| && forall j :: i <= j < i + len ==> sizes[j] == sizes[i]
    ensures Total(sizes, i, len) == len * sizes[i]
  {
    if len > 0 {
      TotalEqual(sizes, i, len - 1);
      assert len * sizes[i] == (len - 1) * sizes[i] + sizes[i];
    }
  }

  ghost predicate AllEqual(sizes: seq<nat>, i: nat, len: nat) {
    && 1 <= len && i + len <= |sizes| && sizes[i] > 0
    && (forall j :: i <= j < i + len ==> sizes[j] == sizes[i])
    && (len > 1 ==> len <= MAX_SEGMENTS && len * sizes[i] <= MAX_BYTES)
  }

  /** A longer run would have the next datagram in its body or as its tail. */
  lemma NextMustFit(sizes: seq<nat>, i: nat, len: nat, m: nat)
    requires AllEqual(sizes, i, len) && len < m && Valid(sizes, i, m)
    ensures len < MAX_SEGMENTS && i + len < |sizes| && 0 < sizes[i + len] <= sizes[i]
    ensures len * sizes[i] + sizes[i + len] <= MAX_BYTES
    ensures sizes[i + len] < sizes[i] ==> m == len + 1
  {
    TotalEqual(sizes, i, len);
    TotalGrows(sizes, i, len + 1, m);
  }

  lemma {:induction false} TotalGrows(sizes: seq<nat>, i: nat, len: nat, m: nat)
    requires len <= m && i + m <= |sizes|
    ensures Total(sizes, i, len) <= Total(sizes, i, m)
  {
    if len < m {
      TotalGrows(sizes, i, len, m - 1);
    }
  }

  lemma ShortTail(sizes: seq<nat>, i: nat, len: nat)
    requires AllEqual(sizes, i, len) && len < MAX_SEGMENTS && i + len < |sizes|
    requires 0 < sizes[i + len] <= sizes[i] && len * sizes[i] + sizes[i + len] <= MAX_BYTES
    ensures Valid(sizes, i, len + 1)
    ensures sizes[i + len] == sizes[i] ==> AllEqual(sizes, i, len + 1)
  {
    TotalEqual(sizes, i, len);
    assert (len + 1) * sizes[i] == len * sizes[i] + sizes[i];
  }

  lemma {:induction false} ExtendedIsLongest(sizes: seq<nat>, i: nat, len: nat, m: nat)
    requires AllEqual(sizes, i, len)
    ensures Valid(sizes, i, Extended(sizes, i, len))
    ensures m > Extended(sizes, i, len) ==> !Valid(sizes, i, m)
    decreases |sizes| - len
  {
    TotalEqual(sizes, i, len);
    if m > len && Valid(sizes, i, m) {
      NextMustFit(sizes, i, len, m);
    }
    if i + len < |sizes| && len < MAX_SEGMENTS {
      var s, size := sizes[i + len], sizes[i];
      if 0 < s <= size && len * size + s <= MAX_BYTES {
        ShortTail(sizes, i, len);
        if s == size {
          ExtendedIsLongest(sizes, i, len + 1, m);
        }
      }
    }
  }

  lemma LongestIsLongest(sizes: seq<nat>, i: nat, m: nat)
    requires i < |sizes|
    ensures Valid(sizes, i, Longest(sizes, i)) && (Valid(sizes, i, m) ==> m <= Longest(sizes, i))
  {
    if 0 < sizes[i] <= U16_MAX {
      ExtendedIsLongest(sizes, i, 1, m);
    } else if m > 1 && Valid(sizes, i, m) {
      TotalGrows(sizes, i, 1, m);
    }
  }

  // ----- optimality

  lemma {:induction false} TotalSuffix(sizes: seq<nat>, i: nat, j: nat, end: nat)
    requires i <= j <= end <= |sizes|
    ensures Total(sizes, j, end - j) <= Total(sizes, i, end - i)
    decreases end
  {
    if j < end {
      TotalSuffix(sizes, i, j, end - 1);
    }
  }

  /** What is left of a valid run when it starts later is valid too. */
  lemma SuffixValid(sizes: seq<nat>, i: nat, j: nat, end: nat)
    requires i <= j < end && Valid(sizes, i, end - i)
    ensures Valid(sizes, j, end - j)
  {
    TotalSuffix(sizes, i, j, end);
  }

  lemma {:induction false} PlanIsPlan(sizes: seq<nat>, i: nat)
    requires i <= |sizes|
    ensures IsPlan(sizes, i, Plan(sizes, i))
    decreases |sizes| - i
  {
    if i < |sizes| {
      LongestIsLongest(sizes, i, 1);
      PlanIsPlan(sizes, i + Longest(sizes, i));
    }
  }

  /** From inside or before a valid run the planner gets at least as far as its end. */
  lemma ReachesEnd(sizes: seq<nat>, i: nat, j: nat, end: nat)
    requires j <= i < end && Valid(sizes, j, end - j)
    ensures i < |sizes| && i + Longest(sizes, i) >= end
  {
    SuffixValid(sizes, j, i, end);
    LongestIsLongest(sizes, i, end - i);
  }

  /** Fewest runs: a plan that starts no later than the planner does needs at least as many. */
  lemma {:induction false} FewestRuns(sizes: seq<nat>, i: nat, j: nat, runs: seq<Run>)
    requires j <= i <= |sizes| && IsPlan(sizes, j, runs)
    ensures |Plan(sizes, i)| <= |runs|
    decreases |runs|
  {
    if i < |sizes| {
      var end, rest := j + runs[0].len, runs[1..];
      if end <= i {
        FewestRuns(sizes, i, end, rest);
      } else {
        ReachesEnd(sizes, i, j, end);
        FewestRuns(sizes, i + Longest(sizes, i), end, rest);
      }
    }
  }

  // ----- the planner's loops

  method PlanRuns(sizes: seq<nat>) returns (runs: seq<Run>)
    ensures runs == Plan(sizes, 0)
    ensures IsPlan(sizes, 0, runs)
    ensures forall other :: IsPlan(sizes, 0, other) ==> |runs| <= |other|
  {
    runs := [];
    var i := 0;
    while i < |sizes|
      invariant i <= |sizes| && runs + Plan(sizes, i) == Plan(sizes, 0)
    {
      var len := RunLength(sizes, i);
      runs := runs + [Run(i, len)];
      i := i + len;
    }
    PlanIsPlan(sizes, 0);
    forall other | IsPlan(sizes, 0, other) ensures |runs| <= |other| {
      FewestRuns(sizes, 0, 0, other);
    }
  }

  method RunLength(sizes: seq<nat>, i: nat) returns (len: nat)
    requires i < |sizes|
    ensures len == Longest(sizes, i)
  {
    var size := sizes[i];
    var bytes := size;
    len := 1;
    if size > 0 && size <= U16_MAX {
      while i + len < |sizes| && len < MAX_SEGMENTS
        invariant 1 <= len && i + len <= |sizes| && bytes == len * size
        invariant Extended(sizes, i, len) == Extended(sizes, i, 1)
      {
        var s := sizes[i + len];
        if s == size && bytes + s <= MAX_BYTES {
          len := len + 1;
          bytes := bytes + s;
        } else {
          if s > 0 && s < size && bytes + s <= MAX_BYTES {
            len := len + 1;
          }
          break;
        }
      }
    }
  }
}
