/** List scheduling of a descending list of positive jobs on eight bins: every bin of the
    longest-first schedule stays within 31/24 of the heaviest bin of any other schedule. */
module LongestFirst {

  const BINS: nat := 8

  ghost predicate Schedule(at: seq<nat>, n: nat) {
    |at| == n && forall i :: 0 <= i < n ==> at[i] < BINS
  }

  /** Weight that the first `n` jobs put into bin `k`. */
  ghost function Load(jobs: seq<real>, at: seq<nat>, n: nat, k: nat): real
    requires n <= |jobs| == |at|
  {
    if n == 0 then 0.0
    else Load(jobs, at, n - 1, k) + (if at[n - 1] == k then jobs[n - 1] else 0.0)
  }

  /** Number of the first `n` jobs that lie in bin `k`. */
  ghost function Count(at: seq<nat>, n: nat, k: nat): nat
    requires n <= |at|
  {
    if n == 0 then 0 else Count(at, n - 1, k) + (if at[n - 1] == k then 1 else 0)
  }

  ghost function Total(jobs: seq<real>, n: nat): real
    requires n <= |jobs|
  {
    if n == 0 then 0.0 else Total(jobs, n - 1) + jobs[n - 1]
  }

  ghost predicate Descending(jobs: seq<real>) {
    && (forall i, j :: 0 <= i <= j < |jobs| ==> jobs[j] <= jobs[i])
    && (forall i :: 0 <= i < |jobs| ==> 0.0 < jobs[i])
  }

  /** Job `i` went to a bin that was lightest when the job was placed. */
  ghost predicate OnLightest(jobs: seq<real>, at: seq<nat>, i: nat)
    requires i < |jobs| == |at|
  {
    forall k :: 0 <= k < BINS ==> Load(jobs, at, i, at[i]) <= Load(jobs, at, i, k)
  }

  ghost predicate Greedy(jobs: seq<real>, at: seq<nat>)
    requires |jobs| == |at|
  {
    forall i: nat :: i < |jobs| ==> OnLightest(jobs, at, i)
  }

  /** No bin is heavier than `limit`. */
  ghost predicate Within(jobs: seq<real>, at: seq<nat>, n: nat, limit: real)
    requires n <= |jobs| == |at|
  {
    forall k :: 0 <= k < BINS ==> Load(jobs, at, n, k) <= limit
  }

  lemma {:induction false} LoadsSum(jobs: seq<real>, at: seq<nat>, n: nat)
    requires n <= |jobs| && Schedule(at, |jobs|)
    ensures Load(jobs, at, n, 0) + Load(jobs, at, n, 1) + Load(jobs, at, n, 2) + Load(jobs, at, n, 3)
          + Load(jobs, at, n, 4) + Load(jobs, at, n, 5) + Load(jobs, at, n, 6) + Load(jobs, at, n, 7) == Total(jobs, n)
  {
    if n > 0 { LoadsSum(jobs, at, n - 1); }
  }

  lemma {:induction false} CountsSum(at: seq<nat>, n: nat)
    requires n <= |at| && Schedule(at, |at|)
    ensures Count(at, n, 0) + Count(at, n, 1) + Count(at, n, 2) + Count(at, n, 3)
          + Count(at, n, 4) + Count(at, n, 5) + Count(at, n, 6) + Count(at, n, 7) == n
  {
    if n > 0 { CountsSum(at, n - 1); }
  }

  lemma {:induction false} LoadGrows(jobs: seq<real>, at: seq<nat>, m: nat, n: nat, k: nat)
    requires m <= n <= |jobs| == |at| && Descending(jobs)
    ensures Load(jobs, at, m, k) <= Load(jobs, at, n, k) && Count(at, m, k) <= Count(at, n, k)
    ensures Total(jobs, m) <= Total(jobs, n)
  {
    if m < n { LoadGrows(jobs, at, m, n - 1, k); }
  }

  /** The weight of `c` jobs of weight `w`. */
  ghost function Times(c: nat, w: real): real {
    if c == 0 then 0.0 else Times(c - 1, w) + w
  }

  lemma {:induction false} TimesMonotone(c: nat, v: real, w: real)
    requires v <= w
    ensures Times(c, v) <= Times(c, w)
  {
    if c > 0 { TimesMonotone(c - 1, v, w); }
  }

  lemma {:induction false} TimesAtLeast(b: nat, c: nat, w: real)
    requires b <= c && 0.0 <= w
    ensures Times(b, w) <= Times(c, w)
  {
    if b < c { TimesAtLeast(b, c - 1, w); }
  }

  /** Jobs placed from position `q` on weigh at most the job at `q` and at least the last one. */
  lemma {:induction false} LoadBounds(jobs: seq<real>, at: seq<nat>, q: nat, n: nat, k: nat)
    requires q <= n <= |jobs| == |at| && 0 < n && Descending(jobs)
    ensures Count(at, q, k) <= Count(at, n, k)
    ensures var more := Count(at, n, k) - Count(at, q, k);
            && Load(jobs, at, n, k) >= Load(jobs, at, q, k) + Times(more, jobs[n - 1])
            && (q < |jobs| ==> Load(jobs, at, n, k) <= Load(jobs, at, q, k) + Times(more, jobs[q]))
  {
    if q < n && 1 < n {
      LoadBounds(jobs, at, q, n - 1, k);
      TimesMonotone(Count(at, n - 1, k) - Count(at, q, k), jobs[n - 1], jobs[n - 2]);
    }
  }

  lemma EmptyBin(jobs: seq<real>, at: seq<nat>, n: nat) returns (k: nat)
    requires n < BINS && n <= |jobs| && Schedule(at, |jobs|) && Descending(jobs)
    ensures k < BINS && Count(at, n, k) == 0 && Load(jobs, at, n, k) == 0.0
  {
    CountsSum(at, n);
    k :| k < BINS && Count(at, n, k) == 0;
    if n > 0 { LoadBounds(jobs, at, 0, n, k); }
  }

  /** While a bin is still empty the next job opens a new bin. */
  lemma {:induction false} FirstEightApart(jobs: seq<real>, at: seq<nat>, n: nat, k: nat)
    requires n <= BINS && n <= |jobs| && k < BINS
    requires Schedule(at, |jobs|) && Descending(jobs) && Greedy(jobs, at)
    ensures Count(at, n, k) <= 1
  {
    if n > 0 {
      FirstEightApart(jobs, at, n - 1, k);
      var empty := EmptyBin(jobs, at, n - 1);
      assert OnLightest(jobs, at, n - 1);
      if n > 1 {
        LoadBounds(jobs, at, 0, n - 1, at[n - 1]);
        var c := Count(at, n - 1, at[n - 1]);
        if c > 0 { TimesAtLeast(1, c, jobs[n - 2]); }
      }
    }
  }

  /** The first `m` jobs of bin `k`, counted again among its first `n`. */
  ghost function Crowding(at: seq<nat>, m: nat, n: nat, k: nat): nat
    requires m <= |at| && n <= |at|
  {
    Count(at, m, k) + Count(at, n, k)
  }

  lemma CrowdingAtMost(at: seq<nat>, m: nat, n: nat)
    requires m <= |at| && n <= |at| && Schedule(at, |at|)
    requires forall k: nat :: k < BINS ==> Crowding(at, m, n, k) <= 2
    ensures m + n <= 2 * BINS
  {
    CountsSum(at, m);
    CountsSum(at, n);
    assert Crowding(at, m, n, 0) + Crowding(at, m, n, 1) + Crowding(at, m, n, 2) + Crowding(at, m, n, 3) <= 8;
    assert Crowding(at, m, n, 4) + Crowding(at, m, n, 5) + Crowding(at, m, n, 6) + Crowding(at, m, n, 7) <= 8;
  }

  lemma CrowdingAtLeast(at: seq<nat>, m: nat, n: nat)
    requires m <= |at| && n <= |at| && Schedule(at, |at|)
    requires forall k: nat :: k < BINS ==> Crowding(at, m, n, k) >= 2
    ensures m + n >= 2 * BINS
  {
    CountsSum(at, m);
    CountsSum(at, n);
    assert Crowding(at, m, n, 0) + Crowding(at, m, n, 1) + Crowding(at, m, n, 2) + Crowding(at, m, n, 3) >= 8;
    assert Crowding(at, m, n, 4) + Crowding(at, m, n, 5) + Crowding(at, m, n, 6) + Crowding(at, m, n, 7) >= 8;
  }

  lemma SparseBin(at: seq<nat>, m: nat, n: nat) returns (k: nat)
    requires m <= |at| && n <= |at| && Schedule(at, |at|) && m + n < 2 * BINS
    ensures k < BINS && Crowding(at, m, n, k) <= 1
  {
    if forall b: nat :: b < BINS ==> Crowding(at, m, n, b) >= 2 { CrowdingAtLeast(at, m, n); }
    k :| k < BINS && Crowding(at, m, n, k) <= 1;
  }

  /** From the ninth to the sixteenth job some bin is no heavier than the job's mirror. */
  lemma LightBin(jobs: seq<real>, at: seq<nat>, j: nat) returns (k: nat)
    requires BINS <= j < 2 * BINS && j < |jobs| && Schedule(at, |jobs|) && Descending(jobs)
    ensures k < BINS && Load(jobs, at, j, k) <= jobs[15 - j]
  {
    var q := 15 - j;
    k := SparseBin(at, q, j);
    LoadBounds(jobs, at, q, j, k);
    if q > 0 { LoadBounds(jobs, at, 0, q, k); }
    TimesAtLeast(Count(at, j, k), 1, jobs[q]);
    assert Times(1, jobs[q]) == jobs[q];
  }

  lemma {:induction false} InSomeBin(jobs: seq<real>, at: seq<nat>, j: nat, limit: real)
    requires j < |jobs| && Schedule(at, |jobs|) && Descending(jobs) && Within(jobs, at, j + 1, limit)
    ensures jobs[j] <= limit
  {
    LoadGrows(jobs, at, 0, j, at[j]);
    assert Load(jobs, at, j + 1, at[j]) == Load(jobs, at, j, at[j]) + jobs[j];
  }

  lemma AtMostTwo(jobs: seq<real>, other: seq<nat>, j: nat, b: nat, limit: real)
    requires j < |jobs| == |other| && b < BINS && Descending(jobs)
    requires Within(jobs, other, j + 1, limit) && limit < 3.0 * jobs[j]
    ensures Count(other, j + 1, b) <= 2
  {
    LoadBounds(jobs, other, 0, j + 1, b);
    assert Times(1, jobs[j]) == jobs[j];
    assert Times(3, jobs[j]) == Times(2, jobs[j]) + jobs[j] == Times(1, jobs[j]) + jobs[j] + jobs[j];
    if Count(other, j + 1, b) > 2 { TimesAtLeast(3, Count(other, j + 1, b), jobs[j]); }
  }

  /** A job too heavy for its mirror shares its bin with no job up to that mirror. */
  lemma LargeAlone(jobs: seq<real>, other: seq<nat>, q: nat, j: nat, b: nat, limit: real)
    requires q < j < |jobs| == |other| && b < BINS && Descending(jobs)
    requires Within(jobs, other, j + 1, limit) && limit < jobs[q] + jobs[j]
    requires Count(other, j + 1, b) <= 2
    ensures Crowding(other, q + 1, j + 1, b) <= 2
  {
    LoadBounds(jobs, other, 0, q + 1, b);
    LoadBounds(jobs, other, q + 1, j + 1, b);
    var early, late := Count(other, q + 1, b), Count(other, j + 1, b) - Count(other, q + 1, b);
    assert Times(1, jobs[q]) == jobs[q] && Times(2, jobs[q]) == Times(1, jobs[q]) + jobs[q];
    assert Times(1, jobs[j]) == jobs[j];
  }

  /** A schedule within the limit can put the mirror of a large job and the job together. */
  lemma MirrorPairFits(jobs: seq<real>, other: seq<nat>, j: nat, limit: real)
    requires BINS <= j < |jobs| && Schedule(other, |jobs|) && Descending(jobs)
    requires Within(jobs, other, j + 1, limit) && limit < 3.0 * jobs[j]
    ensures j < 2 * BINS && jobs[15 - j] + jobs[j] <= limit
  {
    var n := j + 1;
    forall b: nat | b < BINS ensures Crowding(other, 0, n, b) <= 2 { AtMostTwo(jobs, other, j, b, limit); }
    CrowdingAtMost(other, 0, n);
    var q := 15 - j;
    if jobs[q] + jobs[j] > limit {
      var m := q + 1;
      forall b: nat | b < BINS ensures Crowding(other, m, n, b) <= 2 {
        AtMostTwo(jobs, other, j, b, limit);
        LargeAlone(jobs, other, q, j, b, limit);
      }
      CrowdingAtMost(other, m, n);
    }
  }

  /** With at most two jobs a bin in the other schedule, longest-first is never worse than it. */
  lemma LargeJobsOptimal(jobs: seq<real>, at: seq<nat>, other: seq<nat>, j: nat, limit: real)
    requires j < |jobs| && Schedule(at, |jobs|) && Schedule(other, |jobs|)
    requires Descending(jobs) && Greedy(jobs, at)
    requires Within(jobs, other, j + 1, limit) && limit < 3.0 * jobs[j]
    ensures Load(jobs, at, j + 1, at[j]) <= limit
  {
    assert OnLightest(jobs, at, j);
    if j < BINS {
      var k := EmptyBin(jobs, at, j);
      InSomeBin(jobs, other, j, limit);
    } else {
      MirrorPairFits(jobs, other, j, limit);
      var k := LightBin(jobs, at, j);
    }
  }

  /** The average bound: a bin exceeds an eighth of the total by at most 7/8 of its last job. */
  lemma {:induction false} AverageBound(jobs: seq<real>, at: seq<nat>, j: nat)
    requires j < |jobs| && Schedule(at, |jobs|) && Greedy(jobs, at)
    ensures 8.0 * Load(jobs, at, j + 1, at[j]) <= Total(jobs, j + 1) + 7.0 * jobs[j]
  {
    LoadsSum(jobs, at, j);
    var b := at[j];
    assert OnLightest(jobs, at, j);
    assert Load(jobs, at, j, b) <= Load(jobs, at, j, 0) && Load(jobs, at, j, b) <= Load(jobs, at, j, 1);
    assert Load(jobs, at, j, b) <= Load(jobs, at, j, 2) && Load(jobs, at, j, b) <= Load(jobs, at, j, 3);
    assert Load(jobs, at, j, b) <= Load(jobs, at, j, 4) && Load(jobs, at, j, b) <= Load(jobs, at, j, 5);
    assert Load(jobs, at, j, b) <= Load(jobs, at, j, 6) && Load(jobs, at, j, b) <= Load(jobs, at, j, 7);
  }

  /** Longest-first is within 4/3 - 1/24 of every schedule of the same jobs. */
  lemma {:induction false} LongestFirstBound(jobs: seq<real>, at: seq<nat>, other: seq<nat>, n: nat, k: nat,
      limit: real)
    requires n <= |jobs| && k < BINS && Schedule(at, |jobs|) && Schedule(other, |jobs|)
    requires Descending(jobs) && Greedy(jobs, at)
    requires Within(jobs, other, |jobs|, limit)
    ensures 24.0 * Load(jobs, at, n, k) <= 31.0 * limit
  {
    if n == 0 {
      LoadGrows(jobs, other, 0, |jobs|, 0);
    } else if at[n - 1] != k {
      LongestFirstBound(jobs, at, other, n - 1, k, limit);
    } else {
      var j := n - 1;
      forall b: nat | b < BINS ensures Load(jobs, other, n, b) <= limit { LoadGrows(jobs, other, n, |jobs|, b); }
      if limit < 3.0 * jobs[j] {
        LargeJobsOptimal(jobs, at, other, j, limit);
        InSomeBin(jobs, other, j, limit);
      } else {
        AverageBound(jobs, at, j);
        LoadsSum(jobs, other, n);
      }
    }
  }

  lemma {:induction false} EveryBinUsed(jobs: seq<real>, at: seq<nat>, k: nat)
    requires Schedule(at, |jobs|) && Descending(jobs) && Greedy(jobs, at)
    requires BINS <= |jobs| && k < BINS
    ensures 0.0 < Load(jobs, at, |jobs|, k)
  {
    CountsSum(at, BINS);
    forall b: nat | b < BINS ensures Crowding(at, 0, BINS, b) <= 1 { FirstEightApart(jobs, at, BINS, b); }
    assert Crowding(at, 0, BINS, 0) + Crowding(at, 0, BINS, 1) + Crowding(at, 0, BINS, 2) +
           Crowding(at, 0, BINS, 3) <= 4;
    assert Crowding(at, 0, BINS, 4) + Crowding(at, 0, BINS, 5) + Crowding(at, 0, BINS, 6) +
           Crowding(at, 0, BINS, 7) <= 4;
    LoadGrows(jobs, at, BINS, |jobs|, k);
    LoadBounds(jobs, at, 0, BINS, k);
    assert Times(1, jobs[BINS - 1]) == jobs[BINS - 1];
  }

  lemma {:induction false} LoadSnoc(jobs: seq<real>, at: seq<nat>, x: real, b: nat, n: nat, k: nat)
    requires n <= |jobs| == |at|
    ensures Load(jobs + [x], at + [b], n, k) == Load(jobs, at, n, k)
  {
    if n > 0 { LoadSnoc(jobs, at, x, b, n - 1, k); }
  }

  lemma GreedySnoc(jobs: seq<real>, at: seq<nat>, x: real, b: nat)
    requires Schedule(at, |jobs|) && Greedy(jobs, at) && b < BINS
    requires forall k :: 0 <= k < BINS ==> Load(jobs, at, |jobs|, b) <= Load(jobs, at, |jobs|, k)
    ensures Greedy(jobs + [x], at + [b])
  {
    var jobs', at' := jobs + [x], at + [b];
    forall i: nat | i < |jobs'| ensures OnLightest(jobs', at', i) {
      forall k | 0 <= k < BINS ensures Load(jobs', at', i, at'[i]) <= Load(jobs', at', i, k) {
        LoadSnoc(jobs, at, x, b, i, k);
        LoadSnoc(jobs, at, x, b, i, at'[i]);
        if i < |jobs| { assert OnLightest(jobs, at, i); }
      }
    }
  }
}
