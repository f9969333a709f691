/** How many clusters a scheduling cycle looks for, and where the next cycle starts. */
module Feasible {
  import opened Collections

  const MIN_FEASIBLE_CLUSTERS_TO_FIND: int := 100
  const MIN_FEASIBLE_CLUSTERS_PERCENTAGE_TO_FIND: int := 5
  const TWO_31: int := 0x8000_0000

  predicate Int32(x: int) {
    -TWO_31 <= x < TWO_31
  }

  /** The int32 that a Go product wraps around to. */
  function Wrap32(x: int): int {
    (x + TWO_31) % (2 * TWO_31) - TWO_31
  }

  /** Go division truncates toward zero. */
  function TruncDiv(a: int, b: int): int
    requires b > 0
  {
    if a >= 0 then a / b else -(-a / b)
  }

  function AdaptivePercentage(percentage: int, n: int): int {
    if percentage > 0 then percentage
    else
      var p := 50 - TruncDiv(n, 125);
      if p < MIN_FEASIBLE_CLUSTERS_PERCENTAGE_TO_FIND then MIN_FEASIBLE_CLUSTERS_PERCENTAGE_TO_FIND else p
  }

  function NumFeasibleClustersToFind(percentage: int, n: int, replication: bool): int {
    if n < MIN_FEASIBLE_CLUSTERS_TO_FIND || percentage >= 100 || replication then n
    else
      var num := TruncDiv(Wrap32(n * AdaptivePercentage(percentage, n)), 100);
      if num < MIN_FEASIBLE_CLUSTERS_TO_FIND then MIN_FEASIBLE_CLUSTERS_TO_FIND else num
  }

  lemma ProductBound(n: int, p: int)
    requires n >= 0 && 0 < p < 100
    ensures 0 <= n * p <= n * 99
  {
  }

  /** For every percentage and strategy, wrapped product or not, the number lies between min(100, n) and n. */
  lemma NumFeasibleBounds(percentage: int, n: int, replication: bool)
    requires Int32(percentage) && 0 <= n < TWO_31
    ensures Min(MIN_FEASIBLE_CLUSTERS_TO_FIND, n) <= NumFeasibleClustersToFind(percentage, n, replication) <= n
  {
    if !(n < MIN_FEASIBLE_CLUSTERS_TO_FIND || percentage >= 100 || replication) {
      var p := AdaptivePercentage(percentage, n);
      ProductBound(n, p);
      var product := n * p;
      if product >= TWO_31 {
        // A wrapped int32 is below 2^31, and n is too large for its hundredth to exceed it.
        assert Wrap32(product) < TWO_31;
        assert n > TWO_31 / 99 - 1;
      } else {
        assert Wrap32(product) == product;
      }
    }
  }

  /** The percentage of clusters to look for: as configured, or one that shrinks from 50 to 5 with their number. */
  predicate Share(percentage: int, n: nat, share: int) {
    if percentage >= 1 then share == percentage
    else 5 <= share && 50 - share <= n / 125 && (share == 5 || 50 - share == n / 125)
  }

  lemma WrapOf(x: int, turns: int, w: int)
    requires x == turns * (2 * TWO_31) + w && Int32(w)
    ensures Wrap32(x) == w
  {
    var q := (x + TWO_31) / (2 * TWO_31);
    assert x + TWO_31 == turns * (2 * TWO_31) + (w + TWO_31);
    assert (q - turns) * (2 * TWO_31) == w + TWO_31 - (x + TWO_31) % (2 * TWO_31);
  }

  /**
   * With 100 clusters or more, and not all wanted: the share of them in whole clusters, but at least 100.
   * The product that is divided by 100 is an int32, whatever `turns` of 2^32 it lost.
   */
  lemma NumFeasibleIs(percentage: int, n: nat, share: int, turns: int, product: int, k: int)
    requires 100 <= n < TWO_31 && percentage < 100 && Share(percentage, n, share)
    requires n * share == turns * (2 * TWO_31) + product && Int32(product)
    requires 100 * k <= product < 100 * (k + 1)
    ensures NumFeasibleClustersToFind(percentage, n, false) == if k > 100 then k else 100
  {
    assert AdaptivePercentage(percentage, n) == share;
    WrapOf(n * share, turns, product);
  }

  /** All are wanted under Replication, of few clusters, and for 100 percent; and in no other case. */
  lemma AllWantedIff(percentage: int, n: nat, replication: bool)
    requires n < TWO_31 && Int32(percentage)
    ensures NumFeasibleClustersToFind(percentage, n, replication) == n
       <==> replication || n <= 100 || percentage >= 100
  {
    if !replication && n > 100 && percentage < 100 {
      FewerThanAll(percentage, n);
    }
  }

  lemma FewerThanAll(percentage: int, n: nat)
    requires 100 < n < TWO_31 && percentage < 100 && Int32(percentage)
    ensures NumFeasibleClustersToFind(percentage, n, false) < n
  {
    var p := AdaptivePercentage(percentage, n);
    ProductBound(n, p);
    if n * p < TWO_31 {
      assert Wrap32(n * p) == n * p;
      assert n * p <= n * 99;
    } else {
      assert Wrap32(n * p) < TWO_31 && n > TWO_31 / 99 - 1;
    }
  }

  // ---------------------------------------------------------------- rotation

  /** The order in which a cycle that starts at `start` examines the clusters. */
  function Rotate<T>(s: seq<T>, start: nat): (r: seq<T>)
    ensures |r| == |s| && forall i :: 0 <= i < |s| ==> r[i] == Nth(s, start, i)
  {
    seq(|s|, i requires 0 <= i < |s| => Nth(s, start, i))
  }

  /** The i-th cluster that a cycle starting at `start` examines. */
  function Nth<T>(s: seq<T>, start: nat, i: nat): T
    requires i < |s|
  {
    s[(start + i) % |s|]
  }

  lemma MultipleBounds(n: nat, k: int)
    ensures k >= 1 ==> n * k >= n
    ensures k <= -1 ==> n * k <= n * -1
    ensures k == 0 ==> n * k == 0
  {
  }

  lemma ModInjective(n: nat, start: nat, i: nat, j: nat)
    requires i < j < n
    ensures (start + i) % n != (start + j) % n
  {
    var q, r := (start + i) / n, (start + j) / n;
    assert j - i == n * (r - q) + ((start + j) % n - (start + i) % n) by {
      assert n * (r - q) == n * r - n * q;
    }
    MultipleBounds(n, r - q);
  }

  /** The distance from the start to position p, going around. */
  function Distance(n: nat, start: nat, p: nat): int
    requires n > 0
  {
    if p >= start % n then p - start % n else p + n - start % n
  }

  lemma DivMod(x: nat, n: nat)
    requires n > 0
    ensures x == n * (x / n) + x % n && 0 <= x % n < n
  {
  }

  lemma ModReaches(n: nat, start: nat, p: nat)
    requires p < n
    ensures 0 <= Distance(n, start, p) < n && (start + Distance(n, start, p)) % n == p
  {
    var base, q := start % n, start / n;
    DivMod(start, n);
    if p >= base {
      ModOf(n, q, p);
    } else {
      assert n * (q + 1) == n * q + n;
      ModOf(n, q + 1, p);
    }
  }

  lemma ModOf(n: nat, q: nat, r: nat)
    requires r < n
    ensures (n * q + r) % n == r && (n * q + r) / n == q
  {
    var x := n * q + r;
    var q', r' := x / n, x % n;
    assert n * (q - q') == r' - r by {
      assert n * (q - q') == n * q - n * q';
    }
    MultipleBounds(n, q - q');
  }

  /** A rotation examines every cluster exactly once. */
  lemma RotatePermutes<T>(s: seq<T>, start: nat)
    requires NoDup(s)
    ensures NoDup(Rotate(s, start)) && ToSet(Rotate(s, start)) == ToSet(s)
  {
    var r := Rotate(s, start);
    forall i, j | 0 <= i < j < |r| ensures r[i] != r[j] {
      ModInjective(|s|, start, i, j);
    }
    forall x ensures x in r <==> x in s {
      if x in s {
        var p :| 0 <= p < |s| && s[p] == x;
        ModReaches(|s|, start, p);
        assert r[Distance(|s|, start, p)] == x;
      }
    }
  }

  // ---------------------------------------------------------------- fairness without filters

  /** Where the next cycle starts after one that selected k clusters. */
  function NextStart(n: nat, start: nat, k: nat): nat
    requires n > 0
  {
    (start + k) % n
  }

  /** How often one cycle, selecting k clusters from `start` on, selects position j. */
  function Selections(n: nat, start: nat, k: nat, j: nat): nat
    requires n > 0
  {
    if k == 0 then 0 else Selections(n, start, k - 1, j) + (if NextStart(n, start, k - 1) == j then 1 else 0)
  }

  /** That is how often the cluster at position j is among those that the cycle takes. */
  lemma {:induction false} TakenAreSelections<T>(s: seq<T>, start: nat, k: nat, j: nat)
    requires NoDup(s) && k <= |s| && j < |s|
    ensures multiset(Rotate(s, start)[..k])[s[j]] == Selections(|s|, start, k, j)
  {
    if k > 0 {
      var r := Rotate(s, start);
      TakenAreSelections(s, start, k - 1, j);
      assert r[..k] == r[..k - 1] + [r[k - 1]];
      assert r[k - 1] == s[NextStart(|s|, start, k - 1)];
    }
  }

  /** How often a sequence of cycles selects position j. */
  function TotalSelections(n: nat, start: nat, ks: seq<nat>, j: nat): nat
    requires n > 0
    decreases |ks|
  {
    if ks == [] then 0 else Selections(n, start, ks[0], j) + TotalSelections(n, NextStart(n, start, ks[0]), ks[1..], j)
  }

  function Sum(ks: seq<nat>): nat {
    if ks == [] then 0 else ks[0] + Sum(ks[1..])
  }

  lemma ModShift(n: nat, q: nat, r: nat, b: nat)
    requires n > 0
    ensures (n * q + r + b) % n == (r + b) % n
  {
    var q', r' := (r + b) / n, (r + b) % n;
    DivMod(r + b, n);
    Distribute(n, q, q');
    assert n * q + r + b == n * (q + q') + r';
    ModOf(n, q + q', r');
  }

  /** (x mod n + b) mod n == (x + b) mod n */
  lemma ModTwice(n: nat, x: nat, b: nat)
    requires n > 0
    ensures (x % n + b) % n == (x + b) % n
  {
    DivMod(x, n);
    ModShift(n, x / n, x % n, b);
  }

  lemma NextStartTwice(n: nat, start: nat, a: nat, b: nat)
    requires n > 0
    ensures NextStart(n, NextStart(n, start, a), b) == NextStart(n, start, a + b)
  {
    ModTwice(n, start + a, b);
    assert start + a + b == start + (a + b);
  }

  lemma Distribute(n: nat, a: int, b: int)
    ensures n * (a + b) == n * a + n * b
  {
  }

  lemma {:induction false} SelectionsSplit(n: nat, start: nat, a: nat, b: nat, j: nat)
    requires n > 0
    ensures Selections(n, start, a + b, j) == Selections(n, start, a, j) + Selections(n, NextStart(n, start, a), b, j)
  {
    if b > 0 {
      SelectionsSplit(n, start, a, b - 1, j);
      NextStartTwice(n, start, a, b - 1);
    }
  }

  /** Consecutive cycles select like one long walk around the list. */
  lemma {:induction false} CyclesWalk(n: nat, start: nat, ks: seq<nat>, j: nat)
    requires n > 0
    ensures TotalSelections(n, start, ks, j) == Selections(n, start, Sum(ks), j)
    decreases |ks|
  {
    if ks != [] {
      CyclesWalk(n, NextStart(n, start, ks[0]), ks[1..], j);
      SelectionsSplit(n, start, ks[0], Sum(ks[1..]), j);
    }
  }

  lemma DistanceHits(n: nat, start: nat, i: nat, j: nat)
    requires i < n && j < n
    ensures (start + i) % n == j <==> i == Distance(n, start, j)
  {
    var d := Distance(n, start, j);
    ModReaches(n, start, j);
    if i < d {
      ModInjective(n, start, i, d);
    } else if d < i {
      ModInjective(n, start, d, i);
    }
  }

  /** A walk of q full turns and r further steps selects position j q times, and once more if it is among the r. */
  lemma {:induction false} WalkCount(n: nat, start: nat, q: nat, r: nat, j: nat)
    requires j < n && r < n
    ensures Selections(n, start, n * q + r, j) == q + (if Distance(n, start, j) < r then 1 else 0)
    decreases q, r
  {
    if r > 0 {
      WalkCount(n, start, q, r - 1, j);
      StepInTurn(n, start, q, r - 1);
      DistanceHits(n, start, r - 1, j);
    } else if q > 0 {
      assert n * q == n * (q - 1) + (n - 1) + 1;
      WalkCount(n, start, q - 1, n - 1, j);
      StepInTurn(n, start, q - 1, n - 1);
      DistanceHits(n, start, n - 1, j);
    }
  }

  lemma StepInTurn(n: nat, start: nat, q: nat, r: nat)
    requires r < n
    ensures NextStart(n, start, n * q + r) == (start + r) % n
  {
    var x := start + r;
    var q', r' := x / n, x % n;
    DivMod(x, n);
    Distribute(n, q, q');
    assert start + (n * q + r) == n * (q + q') + r';
    ModOf(n, q + q', r');
  }

  lemma WalkOf(n: nat, start: nat, total: nat, j: nat)
    requires j < n
    ensures Selections(n, start, total, j) == total / n + (if Distance(n, start, j) < total % n then 1 else 0)
  {
    DivMod(total, n);
    WalkCount(n, start, total / n, total % n, j);
  }

  /**
   * Round-robin fairness: over any cycles on a list of fixed length, every position is selected
   * total / n times, and the first total % n positions from the start once more.
   */
  lemma RoundRobin(n: nat, start: nat, ks: seq<nat>, j: nat)
    requires j < n
    ensures TotalSelections(n, start, ks, j)
         == Sum(ks) / n + (if Distance(n, start, j) < Sum(ks) % n then 1 else 0)
  {
    CyclesWalk(n, start, ks, j);
    WalkOf(n, start, Sum(ks), j);
  }

  /** The selection counts of any two clusters differ by at most one. */
  lemma RoundRobinIsFair(n: nat, start: nat, ks: seq<nat>, a: nat, b: nat)
    requires a < n && b < n
    ensures -1 <= TotalSelections(n, start, ks, a) - TotalSelections(n, start, ks, b) <= 1
  {
    RoundRobin(n, start, ks, a);
    RoundRobin(n, start, ks, b);
  }
}
