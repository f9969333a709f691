/** The generic scheduler (pkg/scheduler/algorithm/generic.go). */
module Scheduler {
  import opened Collections
  import opened Feasible
  import opened FilterMachine

  datatype Cluster = Cluster(ns: string, name: string, deleting: bool, labels: Labels)

  /** klog.KObj(cluster).String() */
  function KObj(c: Cluster): string {
    if c.ns == "" then c.name else c.ns + "/" + c.name
  }

  /** A label selector as a predicate on clusters, or one that does not convert. */
  datatype Affinity = Invalid | Selects(select: Cluster -> bool)

  datatype Subscription = Subscription(affinities: seq<Affinity>, replication: bool)

  datatype PreFilter = Ready | Unschedulable | Broken

  /** The scheduling framework: plugin outcomes as functions, score lists aligned with the clusters. */
  datatype Framework = Framework(
    preFilter: PreFilter,
    hasFilters: bool,
    filter: Cluster -> Outcome,
    hasScores: bool,
    scores: seq<Cluster> -> Option<seq<seq<int>>>)

  datatype Failure = BadAffinity | PreFilterFailed | FilterFailed | ScoringFailed
  datatype Reason = ByPreFilter | ByFilter
  type Statuses = map<string, Reason>

  datatype Fit = NoFit(failure: Failure) | Fits(feasible: seq<Cluster>, statuses: Statuses)

  datatype ScheduleResult =
    | NoClusters
    | Aborted(failure: Failure)
    | Unfit(statuses: Statuses)
    | Scheduled(names: seq<string>, evaluated: nat, feasible: nat)

  // ---------------------------------------------------------------- specification

  /** Cluster names identify clusters, as object keys do in a store. */
  ghost predicate DistinctKeys(cache: seq<Cluster>) {
    forall c, d :: c in cache && d in cache && KObj(c) == KObj(d) ==> c == d
  }

  /** The non-deleting clusters that some subscriber's affinity selects. */
  ghost predicate Eligible(cache: seq<Cluster>, sub: Subscription, c: Cluster) {
    c in cache && !c.deleting && exists a :: a in sub.affinities && a.Selects? && a.select(c)
  }

  ghost predicate Passes(fwk: Framework, c: Cluster) {
    fwk.hasFilters ==> fwk.filter(c).Pass?
  }

  ghost predicate AlignedScores(fwk: Framework) {
    forall cs: seq<Cluster> :: fwk.scores(cs).Some? ==>
      forall j :: 0 <= j < |fwk.scores(cs).value| ==> |fwk.scores(cs).value[j]| == |cs|
  }

  /** No selector and no plugin fails on the eligible clusters. */
  ghost predicate Healthy(cache: seq<Cluster>, sub: Subscription, fwk: Framework) {
    && (forall a :: a in sub.affinities ==> a.Selects?)
    && fwk.preFilter.Ready?
    && (fwk.hasFilters ==> forall c :: Eligible(cache, sub, c) ==> !fwk.filter(c).Error?)
    && (fwk.hasScores ==> forall cs: seq<Cluster> :: fwk.scores(cs).Some?)
  }

  // ---------------------------------------------------------------- lists

  function ListClusters(cache: seq<Cluster>, a: Affinity): (r: Option<seq<Cluster>>)
    ensures r.None? <==> a.Invalid?
    ensures r.Some? ==> forall c :: c in r.value <==> c in cache && a.select(c)
  {
    if a.Invalid? then None
    else if cache == [] then Some([])
    else
      var last := cache[|cache| - 1];
      var front := ListClusters(cache[..|cache| - 1], a).value;
      assert cache == cache[..|cache| - 1] + [last];
      Some(if a.select(last) then front + [last] else front)
  }

  /** The lists of all subscribers, one after the other; an affinity that does not convert fails. */
  method GatherClusters(cache: seq<Cluster>, sub: Subscription) returns (all: Option<seq<Cluster>>)
    ensures all.Some? <==> forall a :: a in sub.affinities ==> a.Selects?
    ensures all.Some? ==> forall c :: c in all.value <==> c in cache && exists a :: a in sub.affinities && a.select(c)
  {
    var list: seq<Cluster> := [];
    for i := 0 to |sub.affinities|
      invariant forall a :: a in sub.affinities[..i] ==> a.Selects?
      invariant forall c :: c in list <==> c in cache && exists a :: a in sub.affinities[..i] && a.select(c)
    {
      assert sub.affinities[..i + 1] == sub.affinities[..i] + [sub.affinities[i]];
      var clusters := ListClusters(cache, sub.affinities[i]);
      if clusters.None? {
        assert sub.affinities[i] in sub.affinities;
        return None;
      }
      list := list + clusters.value;
    }
    assert sub.affinities[..|sub.affinities|] == sub.affinities;
    return Some(list);
  }

  /** No live cluster of the same name comes before c's first occurrence. */
  ghost predicate FirstNamed(clusters: seq<Cluster>, c: Cluster) {
    exists i :: 0 <= i < |clusters| && clusters[i] == c
      && forall k :: 0 <= k < i ==> clusters[k].deleting || KObj(clusters[k]) != KObj(c)
  }

  lemma NamedFirst(clusters: seq<Cluster>, i: nat)
    requires i < |clusters|
    requires forall c :: c in clusters[..i] && !c.deleting ==> KObj(c) != KObj(clusters[i])
    ensures FirstNamed(clusters, clusters[i])
  {
    forall k | 0 <= k < i ensures clusters[k].deleting || KObj(clusters[k]) != KObj(clusters[i]) {
      assert clusters[k] in clusters[..i];
    }
  }

  ghost predicate NamesAre(clusters: seq<Cluster>, names: set<string>) {
    forall n :: n in names <==> exists c :: c in clusters && KObj(c) == n
  }

  lemma NamesGrow(clusters: seq<Cluster>, c: Cluster, names: set<string>)
    requires NamesAre(clusters, names) && DistinctNames(clusters) && KObj(c) !in names
    ensures NamesAre(clusters + [c], names + {KObj(c)}) && DistinctNames(clusters + [c])
  {
    var more := clusters + [c];
    assert c in more;
    forall i, j | 0 <= i < j < |more| ensures KObj(more[i]) != KObj(more[j]) {
      assert more[i] in clusters;
    }
  }

  /** Drops deleting clusters and repeated names, keeping the first of each name. */
  method NormalizedClusters(clusters: seq<Cluster>) returns (unique: seq<Cluster>)
    ensures forall i, j :: 0 <= i < j < |unique| ==> KObj(unique[i]) != KObj(unique[j])
    ensures forall c :: c in unique ==> c in clusters && !c.deleting
    ensures forall c :: c in clusters && !c.deleting ==> exists d :: d in unique && KObj(d) == KObj(c)
    ensures forall c :: c in unique ==> FirstNamed(clusters, c)
  {
    var seen: set<string> := {};
    unique := [];
    for i := 0 to |clusters|
      invariant NamesAre(unique, seen) && DistinctNames(unique)
      invariant forall c :: c in unique ==> c in clusters[..i] && !c.deleting && FirstNamed(clusters, c)
      invariant forall c :: c in clusters[..i] && !c.deleting ==> KObj(c) in seen
    {
      assert clusters[..i + 1] == clusters[..i] + [clusters[i]];
      if KObj(clusters[i]) !in seen && !clusters[i].deleting {
        NamedFirst(clusters, i);
        NamesGrow(unique, clusters[i], seen);
        unique := unique + [clusters[i]];
        seen := seen + {KObj(clusters[i])};
      }
    }
    assert clusters[..|clusters|] == clusters;
    forall c | c in clusters && !c.deleting ensures exists d :: d in unique && KObj(d) == KObj(c) {
      assert KObj(c) in seen;
    }
  }

  /** The eligible clusters, each once; an affinity that does not convert fails. */
  method EligibleClusters(cache: seq<Cluster>, sub: Subscription) returns (unique: Option<seq<Cluster>>)
    requires DistinctKeys(cache)
    ensures unique.Some? <==> forall a :: a in sub.affinities ==> a.Selects?
    ensures unique.Some? ==> ToSet(unique.value) == EligibleSet(cache, sub) && DistinctNames(unique.value)
    ensures unique.Some? ==> |unique.value| == |EligibleSet(cache, sub)| <= |cache|
  {
    var gathered := GatherClusters(cache, sub);
    if gathered.None? {
      return None;
    }
    var list := NormalizedClusters(gathered.value);
    UniqueIsEligible(cache, sub, gathered.value, list);
    return Some(list);
  }

  const TWO_63: int := 0x8000_0000_0000_0000

  /** Two's complement wrap-around of Go's int64. */
  function Wrap64(x: int): int {
    (x + TWO_63) % (2 * TWO_63) - TWO_63
  }

  /** Wrapping at each addition is wrapping the sum. */
  lemma WrapOnce(a: int, b: int)
    ensures Wrap64(Wrap64(a) + b) == Wrap64(a + b)
  {
  }

  function Total(scores: seq<seq<int>>, i: nat, n: nat): int
    requires n <= |scores| && forall j :: 0 <= j < |scores| ==> i < |scores[j]|
  {
    if n == 0 then 0 else Total(scores, i, n - 1) + scores[n - 1][i]
  }

  /** One entry per cluster, in order: a score of one without score plugins, else the sum over the plugins in int64. */
  method PrioritizeClusters(fwk: Framework, clusters: seq<Cluster>) returns (r: Option<seq<(string, int)>>)
    requires AlignedScores(fwk)
    ensures r.None? <==> fwk.hasScores && fwk.scores(clusters).None?
    ensures r.Some? ==> |r.value| == |clusters| && forall i :: 0 <= i < |clusters| ==> r.value[i].0 == KObj(clusters[i])
    ensures r.Some? && !fwk.hasScores ==> forall i :: 0 <= i < |clusters| ==> r.value[i].1 == 1
    ensures r.Some? && fwk.hasScores ==>
              forall i :: 0 <= i < |clusters| ==>
                r.value[i].1 == Wrap64(Total(fwk.scores(clusters).value, i, |fwk.scores(clusters).value|))
  {
    var list: seq<(string, int)> := [];
    if !fwk.hasScores {
      for i := 0 to |clusters|
        invariant |list| == i && forall k :: 0 <= k < i ==> list[k] == (KObj(clusters[k]), 1)
      {
        list := list + [(KObj(clusters[i]), 1)];
      }
      return Some(list);
    }
    var all := fwk.scores(clusters);
    if all.None? {
      return None;
    }
    var scores := all.value;
    for i := 0 to |clusters|
      invariant |list| == i
      invariant forall k :: 0 <= k < i ==> list[k] == (KObj(clusters[k]), Wrap64(Total(scores, k, |scores|)))
    {
      var score := 0;
      for j := 0 to |scores|
        invariant score == Wrap64(Total(scores, i, j))
      {
        WrapOnce(Total(scores, i, j), scores[j][i]);
        score := Wrap64(score + scores[j][i]);
      }
      list := list + [(KObj(clusters[i]), score)];
    }
    return Some(list);
  }

  /** Every scored cluster is suggested, in the order of the list. */
  method SelectClusters(list: seq<(string, int)>) returns (selected: Option<seq<string>>)
    ensures selected.None? <==> list == []
    ensures selected.Some? ==>
              |selected.value| == |list| && forall i :: 0 <= i < |list| ==> selected.value[i] == list[i].0
  {
    if list == [] {
      return None;
    }
    var names: seq<string> := [];
    for i := 0 to |list|
      invariant |names| == i && forall k :: 0 <= k < i ==> names[k] == list[k].0
    {
      names := names + [list[i].0];
    }
    return Some(names);
  }

  /** Scores the feasible clusters and suggests them all. */
  method Suggest(fwk: Framework, feasible: seq<Cluster>) returns (names: Option<seq<string>>)
    requires AlignedScores(fwk) && feasible != []
    ensures names.None? <==> fwk.hasScores && fwk.scores(feasible).None?
    ensures names.Some? ==>
              |names.value| == |feasible| && forall i :: 0 <= i < |feasible| ==> names.value[i] == KObj(feasible[i])
  {
    var priorities := PrioritizeClusters(fwk, feasible);
    if priorities.None? {
      return None;
    }
    names := SelectClusters(priorities.value);
  }

  // ---------------------------------------------------------------- the search as a terminating program

  function Left(pc: Pc): nat {
    match pc
    case Idle => 6
    case Adding => 5
    case Holding(_) => 4
    case Writing(_) => 1
    case Cancelling => 2
    case Subtracting => 1
    case Recording => 1
    case Reporting => 2
    case Stopping => 1
    case _ => 0
  }

  function Work(pcs: seq<Pc>): nat {
    if pcs == [] then 0 else Left(pcs[0]) + Work(pcs[1..])
  }

  lemma {:induction false} WorkDrops(pcs: seq<Pc>, i: nat, pc: Pc)
    requires i < |pcs| && Left(pc) < Left(pcs[i])
    ensures Work(pcs[i := pc]) < Work(pcs)
  {
    if i > 0 {
      WorkDrops(pcs[1..], i - 1, pc);
      assert pcs[i := pc][1..] == pcs[1..][i - 1 := pc];
    } else {
      assert pcs[i := pc][1..] == pcs[1..];
    }
  }

  /** Runs the pieces in some interleaving until the parallel-for returns. The context may be cancelled at any time. */
  method Search(j: Job) returns (s: State, ghost moves: seq<Move>)
    ensures s == Run(j, moves) && Joined(s)
  {
    s := Init(j);
    moves := [];
    while true
      invariant s == Run(j, moves)
      decreases if s.interrupted then 0 else 1, Work(s.pcs)
    {
      var movable := set i: nat | i < |s.pcs| && !Ended(s.pcs[i]);
      if movable == {} {
        forall i: nat | i < |s.pcs| ensures Ended(s.pcs[i]) {
          assert i !in movable;
        }
        break;
      }
      var done: bool, cancels: bool := *, *;
      if Joined(s) && done {
        break;
      }
      var m: Move;
      if !s.interrupted && cancels {
        m := Interrupt;
      } else {
        var i :| i in movable;
        m := Move.Advance(i);
        WorkDrops(s.pcs, i, NextPc(s.pcs[i], j.outcomes[i], s.counter, j.want));
      }
      s := Next(j, s, m);
      assert (moves + [m])[..|moves|] == moves;
      moves := moves + [m];
    }
  }

  // ---------------------------------------------------------------- from pieces to clusters

  lemma {:induction false} ImageSize<T>(s: seq<T>, picked: set<nat>)
    requires NoDup(s) && forall i :: i in picked ==> i < |s|
    ensures |set i | i in picked :: s[i]| == |picked|
  {
    if picked != {} {
      var i :| i in picked;
      var rest := picked - {i};
      ImageSize(s, rest);
      assert (set k | k in picked :: s[k]) == (set k | k in rest :: s[k]) + {s[i]};
      assert s[i] !in (set k | k in rest :: s[k]);
    }
  }

  function JobFor(fwk: Framework, rot: seq<Cluster>, want: nat): Job {
    Job(seq(|rot|, i requires 0 <= i < |rot| => fwk.filter(rot[i])), want)
  }

  function PassingClusters(fwk: Framework, clusters: seq<Cluster>): set<Cluster> {
    set c | c in clusters && fwk.filter(c).Pass?
  }

  function FailingNames(fwk: Framework, clusters: seq<Cluster>): set<string> {
    set c | c in clusters && fwk.filter(c).Fail? :: KObj(c)
  }

  ghost predicate NoFilterErrors(fwk: Framework, clusters: seq<Cluster>) {
    forall c :: c in clusters ==> !fwk.filter(c).Error?
  }

  ghost predicate DistinctNames(clusters: seq<Cluster>) {
    forall i, j :: 0 <= i < j < |clusters| ==> KObj(clusters[i]) != KObj(clusters[j])
  }

  /** The passing pieces of a rotation are as many as the passing clusters. */
  lemma PassingPieces(fwk: Framework, rot: seq<Cluster>, want: nat)
    requires NoDup(rot)
    ensures var j := JobFor(fwk, rot, want);
            && PassingClusters(fwk, rot) == (set i | i in Passing(j) :: rot[i])
            && |PassingClusters(fwk, rot)| == |Passing(j)|
  {
    var j := JobFor(fwk, rot, want);
    forall c ensures c in PassingClusters(fwk, rot) <==> c in (set i | i in Passing(j) :: rot[i]) {
      if c in PassingClusters(fwk, rot) {
        var i: nat :| i < |rot| && rot[i] == c;
        assert i in Passing(j);
      }
    }
    ImageSize(rot, Passing(j));
  }

  function Picked(rot: seq<Cluster>, list: seq<nat>): seq<Cluster>
    requires forall k :: 0 <= k < |list| ==> list[k] < |rot|
  {
    seq(|list|, k requires 0 <= k < |list| => rot[list[k]])
  }

  lemma PickedIsDistinct(fwk: Framework, rot: seq<Cluster>, want: nat, list: seq<nat>)
    requires NoDup(rot) && NoDup(list) && ToSet(list) <= Passing(JobFor(fwk, rot, want))
    ensures forall k :: 0 <= k < |list| ==> list[k] < |rot| && fwk.filter(rot[list[k]]).Pass?
    ensures NoDup(Picked(rot, list)) && ToSet(Picked(rot, list)) <= PassingClusters(fwk, rot)
    ensures ToSet(list) == Passing(JobFor(fwk, rot, want)) ==> ToSet(Picked(rot, list)) == PassingClusters(fwk, rot)
  {
    forall k | 0 <= k < |list| ensures list[k] < |rot| && fwk.filter(rot[list[k]]).Pass? {
      assert list[k] in ToSet(list);
    }
    var p := Picked(rot, list);
    forall a, b | 0 <= a < b < |p| ensures p[a] != p[b] {
      assert list[a] != list[b];
    }
    if ToSet(list) == Passing(JobFor(fwk, rot, want)) {
      forall c | c in PassingClusters(fwk, rot) ensures c in p {
        var i: nat :| i < |rot| && rot[i] == c;
        assert i in ToSet(list);
        var k :| 0 <= k < |list| && list[k] == i;
        assert p[k] == c;
      }
    }
  }

  lemma NamesOf(rot: seq<Cluster>) returns (names: seq<string>)
    requires DistinctNames(rot)
    ensures NoDup(rot) && NoDup(names)
    ensures |names| == |rot| && forall i :: 0 <= i < |rot| ==> names[i] == KObj(rot[i])
  {
    names := seq(|rot|, i requires 0 <= i < |rot| => KObj(rot[i]));
    forall i, j | 0 <= i < j < |rot| ensures rot[i] != rot[j] {
      assert KObj(rot[i]) != KObj(rot[j]);
    }
  }

  /** The status map has one entry per recorded piece. */
  lemma StatusNames(fwk: Framework, rot: seq<Cluster>, want: nat, recorded: set<nat>, keys: set<string>)
    requires DistinctNames(rot) && recorded <= Failing(JobFor(fwk, rot, want))
    requires keys == set i | i in recorded :: KObj(rot[i])
    ensures |keys| == |recorded| && keys <= FailingNames(fwk, rot)
    ensures recorded == Failing(JobFor(fwk, rot, want)) ==> keys == FailingNames(fwk, rot)
  {
    var names := NamesOf(rot);
    assert keys == set i | i in recorded :: names[i];
    ImageSize(names, recorded);
    if recorded == Failing(JobFor(fwk, rot, want)) {
      forall c | c in rot && fwk.filter(c).Fail? ensures KObj(c) in keys {
        var i: nat :| i < |rot| && rot[i] == c;
        assert i in recorded;
      }
    }
  }

  lemma NamesDiffer(clusters: seq<Cluster>, c: Cluster, d: Cluster)
    requires DistinctNames(clusters) && c in clusters && d in clusters && c != d
    ensures KObj(c) != KObj(d)
  {
  }

  lemma RotationKeepsNames(clusters: seq<Cluster>, start: nat)
    requires DistinctNames(clusters)
    ensures var rot := Rotate(clusters, start);
            DistinctNames(rot) && NoDup(rot) && ToSet(rot) == ToSet(clusters)
  {
    var _ := NamesOf(clusters);
    RotatePermutes(clusters, start);
    var rot := Rotate(clusters, start);
    forall i, j | 0 <= i < j < |rot| ensures KObj(rot[i]) != KObj(rot[j]) {
      assert rot[i] in ToSet(rot) && rot[j] in ToSet(rot) && rot[i] != rot[j];
      NamesDiffer(clusters, rot[i], rot[j]);
    }
  }

  lemma SameClusters(fwk: Framework, clusters: seq<Cluster>, rot: seq<Cluster>)
    requires ToSet(rot) == ToSet(clusters)
    ensures PassingClusters(fwk, rot) == PassingClusters(fwk, clusters)
    ensures FailingNames(fwk, rot) == FailingNames(fwk, clusters)
    ensures NoFilterErrors(fwk, rot) <==> NoFilterErrors(fwk, clusters)
  {
    assert forall c :: c in rot <==> c in ToSet(rot);
    assert forall c :: c in clusters <==> c in ToSet(clusters);
  }

  /** What the filter plugins promise about the search: any order of clusters, any interleaving. */
  ghost predicate GoodFit(fwk: Framework, clusters: seq<Cluster>, want: nat, fit: Fit, interrupted: bool) {
    && (fit.NoFit? ==> fit.failure.FilterFailed? && !NoFilterErrors(fwk, clusters))
    && (fit.Fits? ==>
          && NoDup(fit.feasible) && ToSet(fit.feasible) <= PassingClusters(fwk, clusters)
          && fit.statuses.Keys <= FailingNames(fwk, clusters))
    && (!interrupted && NoFilterErrors(fwk, clusters) ==>
          && fit.Fits? && |fit.feasible| == Min(want, |PassingClusters(fwk, clusters)|)
          && (want >= |PassingClusters(fwk, clusters)| ==>
                ToSet(fit.feasible) == PassingClusters(fwk, clusters)
                    && fit.statuses.Keys == FailingNames(fwk, clusters)))
    && (!interrupted && want >= |PassingClusters(fwk, clusters)| ==>
          (fit.NoFit? <==> !NoFilterErrors(fwk, clusters)))
  }

  /** Piece i of the rotation was examined in this search. */
  ghost predicate Saw(fwk: Framework, rot: seq<Cluster>, want: nat, moves: seq<Move>, i: int) {
    Examined(JobFor(fwk, rot, want), Run(JobFor(fwk, rot, want), moves), i)
  }

  /** The search returns the error of a cluster that it examined, whatever else it found by then. */
  ghost predicate ReportsErrors(fwk: Framework, rot: seq<Cluster>, want: nat, moves: seq<Move>, fit: Fit) {
    fit == NoFit(FilterFailed) <==> exists i :: Saw(fwk, rot, want, moves, i) && fwk.filter(rot[i]).Error?
  }

  /** What a search has seen when it ends, with or without an error: distinct passing clusters and failing ones. */
  ghost predicate GoodSight(fwk: Framework, clusters: seq<Cluster>, want: nat, seen: Fit) {
    && seen.Fits? && NoDup(seen.feasible) && |seen.feasible| <= want
    && ToSet(seen.feasible) <= PassingClusters(fwk, clusters) && seen.statuses.Keys <= FailingNames(fwk, clusters)
  }

  /** The pieces whose clusters a joined search returns. */
  lemma JoinList(fwk: Framework, rot: seq<Cluster>, want: nat, moves: seq<Move>) returns (list: seq<nat>)
    requires Joined(Run(JobFor(fwk, rot, want), moves))
    ensures Returns(Run(JobFor(fwk, rot, want), moves), list)
    ensures forall k :: 0 <= k < |list| ==> list[k] < |rot|
    ensures forall i :: i in Run(JobFor(fwk, rot, want), moves).statuses ==> i < |rot|
  {
    list := JoinIsSound(JobFor(fwk, rot, want), moves);
    forall k | 0 <= k < |list| ensures list[k] < |rot| {
      assert list[k] in ToSet(list);
    }
  }

  /** The joined search, read as clusters and names, is a good fit. */
  lemma JoinIsGoodFit(fwk: Framework, rot: seq<Cluster>, want: nat, moves: seq<Move>, list: seq<nat>,
                      statuses: Statuses)
    requires DistinctNames(rot) && Joined(Run(JobFor(fwk, rot, want), moves))
    requires Returns(Run(JobFor(fwk, rot, want), moves), list)
    requires forall k :: 0 <= k < |list| ==> list[k] < |rot|
    requires forall i :: i in Run(JobFor(fwk, rot, want), moves).statuses ==> i < |rot|
    requires statuses.Keys == set i | i in Run(JobFor(fwk, rot, want), moves).statuses :: KObj(rot[i])
    ensures var s := Run(JobFor(fwk, rot, want), moves);
            && GoodSight(fwk, rot, want, Fits(Picked(rot, list), statuses))
            && GoodFit(fwk, rot, want, if s.error then NoFit(FilterFailed) else Fits(Picked(rot, list), statuses),
                       s.interrupted)
  {
    var job := JobFor(fwk, rot, want);
    var s := Run(job, moves);
    var _ := NamesOf(rot);
    var same := JoinIsSound(job, moves);
    assert same == list;
    PickedIsDistinct(fwk, rot, want, list);
    StatusNames(fwk, rot, want, s.statuses, statuses.Keys);
    ErrorsOfSearch(fwk, rot, want, moves);
    if NoFilterErrors(fwk, rot) && !s.interrupted {
      GoodFitCounts(fwk, rot, want, moves, list);
    }
  }

  lemma ErrorsOfSearch(fwk: Framework, rot: seq<Cluster>, want: nat, moves: seq<Move>)
    requires NoDup(rot) && Joined(Run(JobFor(fwk, rot, want), moves))
    ensures Run(JobFor(fwk, rot, want), moves).error ==> !NoFilterErrors(fwk, rot)
    ensures !Run(JobFor(fwk, rot, want), moves).interrupted && want >= |PassingClusters(fwk, rot)| ==>
              (Run(JobFor(fwk, rot, want), moves).error <==> !NoFilterErrors(fwk, rot))
  {
    var job := JobFor(fwk, rot, want);
    if !NoFilterErrors(fwk, rot) {
      var i :| 0 <= i < |rot| && fwk.filter(rot[i]).Error?;
      assert job.outcomes[i].Error?;
    } else {
      forall i | 0 <= i < |rot| ensures !job.outcomes[i].Error? {
        assert rot[i] in rot;
      }
    }
    if Run(job, moves).error {
      ErrorIsReal(job, moves);
    }
    PassingPieces(fwk, rot, want);
    if !Run(job, moves).interrupted && want >= |PassingClusters(fwk, rot)| {
      WantingAllReportsErrors(job, moves);
    }
  }

  lemma GoodFitCounts(fwk: Framework, rot: seq<Cluster>, want: nat, moves: seq<Move>, list: seq<nat>)
    requires var j := JobFor(fwk, rot, want);
             && NoDup(rot) && Joined(Run(j, moves)) && !Run(j, moves).interrupted && NoErrors(j)
                  && Returns(Run(j, moves), list)
    ensures |list| == Min(want, |PassingClusters(fwk, rot)|) && !Run(JobFor(fwk, rot, want), moves).error
    ensures want >= |PassingClusters(fwk, rot)| ==>
              ToSet(list) == Passing(JobFor(fwk, rot, want))
                  && Run(JobFor(fwk, rot, want), moves).statuses == Failing(JobFor(fwk, rot, want))
  {
    var j := JobFor(fwk, rot, want);
    NoErrorNoReport(j, moves);
    PassingPieces(fwk, rot, want);
    var other := JoinFindsEnough(j, moves);
    assert list == other;
    if want >= |Passing(j)| {
      var all := WantingAllFindsAll(j, moves);
      assert list == all;
    }
  }

  lemma RunReportsErrors(fwk: Framework, rot: seq<Cluster>, want: nat, moves: seq<Move>, fit: Fit)
    requires Joined(Run(JobFor(fwk, rot, want), moves))
    requires fit.NoFit? ==> fit.failure.FilterFailed?
    requires fit.NoFit? <==> Run(JobFor(fwk, rot, want), moves).error
    ensures ReportsErrors(fwk, rot, want, moves, fit)
  {
    var job := JobFor(fwk, rot, want);
    ErrorIsReported(job, moves);
    if i :| Examined(job, Run(job, moves), i) && job.outcomes[i].Error? {
      assert Saw(fwk, rot, want, moves, i) && fwk.filter(rot[i]).Error?;
    }
    if i :| Saw(fwk, rot, want, moves, i) && fwk.filter(rot[i]).Error? {
      assert job.outcomes[i].Error?;
    }
  }

  /** feasibleClusters[:feasibleClustersLen] */
  method CollectFeasible(clusters: seq<Cluster>, start: nat, s: State, ghost list: seq<nat>)
    returns (feasible: seq<Cluster>)
    requires Returns(s, list) && forall k :: 0 <= k < |list| ==> list[k] < |clusters|
    ensures feasible == Picked(Rotate(clusters, start), list)
  {
    feasible := [];
    for k := 0 to s.counter
      invariant feasible == Picked(Rotate(clusters, start), list[..k])
    {
      assert list[..k + 1] == list[..k] + [list[k]];
      feasible := feasible + [Nth(clusters, start, s.slots[k].value)];
    }
    assert list[..|list|] == list;
  }

  method CollectStatuses(clusters: seq<Cluster>, start: nat, s: State) returns (statuses: Statuses)
    requires forall i :: i in s.statuses ==> i < |clusters|
    ensures statuses.Keys == set i | i in s.statuses :: KObj(Rotate(clusters, start)[i])
  {
    var keys := set i | i in s.statuses :: KObj(Nth(clusters, start, i));
    statuses := map key | key in keys :: ByFilter;
    assert statuses.Keys == keys;
  }

  /**
   * Runs checkCluster for every cluster from `start` on, and reads off what it saw, which is the
   * result unless a filter failed.
   */
  method RunFilters(fwk: Framework, clusters: seq<Cluster>, start: nat, want: nat)
    returns (fit: Fit, seen: Fit, interrupted: bool, ghost moves: seq<Move>)
    requires clusters != [] && DistinctNames(clusters)
    ensures GoodFit(fwk, clusters, want, fit, interrupted)
    ensures GoodSight(fwk, clusters, want, seen) && (fit.Fits? ==> fit == seen)
    ensures Joined(Run(JobFor(fwk, Rotate(clusters, start), want), moves))
    ensures ReportsErrors(fwk, Rotate(clusters, start), want, moves, fit)
  {
    ghost var rot := Rotate(clusters, start);
    RotationKeepsNames(clusters, start);
    SameClusters(fwk, clusters, rot);
    var job := Job(seq(|clusters|, i requires 0 <= i < |clusters| => fwk.filter(Nth(clusters, start, i))), want);
    assert job.outcomes == JobFor(fwk, rot, want).outcomes;
    var s;
    s, moves := Search(job);
    ghost var list := JoinList(fwk, rot, want, moves);
    var feasible := CollectFeasible(clusters, start, s, list);
    var statuses := CollectStatuses(clusters, start, s);
    JoinIsGoodFit(fwk, rot, want, moves, list, statuses);
    seen := Fits(feasible, statuses);
    interrupted := s.interrupted;
    fit := if s.error then NoFit(FilterFailed) else seen;
    RunReportsErrors(fwk, rot, want, moves, fit);
  }

  // ---------------------------------------------------------------- the scheduler

  class GenericScheduler {
    var percentage: int
    var nextStart: nat

    constructor ()
      ensures percentage == 0 && nextStart == 0
    {
      percentage, nextStart := 0, 0;
    }

    /** The branch without filter plugins: the next clusters in turn. */
    method TakeInTurn(clusters: seq<Cluster>, want: nat) returns (feasible: seq<Cluster>)
      requires want <= |clusters| && clusters != []
      modifies this`nextStart
      ensures feasible == Rotate(clusters, old(nextStart))[..want]
      ensures nextStart == NextStart(|clusters|, old(nextStart), want)
    {
      ghost var rot := Rotate(clusters, nextStart);
      var start, n := nextStart, |clusters|;
      var slots := new Cluster[want](_ => clusters[0]);
      for i := 0 to want
        invariant forall k :: 0 <= k < i ==> slots[k] == rot[k]
      {
        slots[i] := clusters[(start + i) % n];
      }
      feasible := slots[..];
      assert feasible == rot[..want];
      nextStart := (start + slots.Length) % n;
    }

    /**
     * The branch with filter plugins: search, then move on by the clusters that were seen, also
     * when a filter failed.
     */
    method SearchClusters(fwk: Framework, clusters: seq<Cluster>, want: nat)
      returns (fit: Fit, seen: Fit, interrupted: bool, ghost moves: seq<Move>)
      requires clusters != [] && DistinctNames(clusters)
      modifies this`nextStart
      ensures GoodFit(fwk, clusters, want, fit, interrupted)
      ensures ReportsErrors(fwk, Rotate(clusters, old(nextStart)), want, moves, fit)
      ensures GoodSight(fwk, clusters, want, seen) && (fit.Fits? ==> fit == seen)
      ensures nextStart == NextStart(|clusters|, old(nextStart), |seen.feasible| + |seen.statuses|)
    {
      var start := nextStart;
      fit, seen, interrupted, moves := RunFilters(fwk, clusters, start, want);
      var processed := |seen.feasible| + |seen.statuses|;
      nextStart := (start + processed) % |clusters|;
    }

    /**
     * Without filter plugins the next clusters in turn; with them, what the parallel search
     * collected and recorded.
     */
    method FindClustersThatPassFilters(fwk: Framework, replication: bool, clusters: seq<Cluster>)
      returns (fit: Fit, seen: Fit, interrupted: bool)
      requires 0 < |clusters| < TWO_31 && Int32(percentage) && DistinctNames(clusters)
      modifies this`nextStart
      ensures var want := NumFeasibleClustersToFind(percentage, |clusters|, replication);
              && 0 <= want <= |clusters|
              && (fwk.hasFilters ==> GoodFit(fwk, clusters, want, fit, interrupted))
              && (!fwk.hasFilters ==> fit == Fits(Rotate(clusters, old(nextStart))[..want], map[]))
      ensures seen.Fits? && (fit.Fits? ==> fit == seen)
      ensures fwk.hasFilters ==>
                GoodSight(fwk, clusters, NumFeasibleClustersToFind(percentage, |clusters|, replication), seen)
      ensures nextStart == NextStart(|clusters|, old(nextStart), |seen.feasible| + |seen.statuses|)
    {
      var want := NumFeasibleClustersToFind(percentage, |clusters|, replication);
      NumFeasibleBounds(percentage, |clusters|, replication);
      interrupted := false;
      if !fwk.hasFilters {
        var feasible := TakeInTurn(clusters, want);
        seen := Fits(feasible, map[]);
        fit := seen;
      } else {
        ghost var moves;
        fit, seen, interrupted, moves := SearchClusters(fwk, clusters, want);
      }
    }

    /**
     * Prefilter, then filters. An unschedulable prefilter gives every cluster the same status. Once the
     * filters run, the start index moves on by the clusters evaluated, also when a filter failed.
     */
    method FilterUnique(fwk: Framework, replication: bool, unique: seq<Cluster>)
      returns (fit: Fit, interrupted: bool, ghost evaluated: nat)
      requires |unique| < TWO_31 && Int32(percentage) && DistinctNames(unique)
      modifies this`nextStart
      ensures FitsUnique(fwk, unique, percentage, replication, fit, interrupted)
      ensures unique == [] || !fwk.preFilter.Ready? ==> nextStart == old(nextStart)
      ensures unique != [] && fwk.preFilter.Ready? ==>
                nextStart == NextStart(|unique|, old(nextStart), evaluated)
                && (fit.Fits? ==> evaluated == |fit.feasible| + |fit.statuses|)
    {
      interrupted, evaluated := false, 0;
      if unique == [] {
        return Fits([], map[]), false, 0;
      }
      if fwk.preFilter.Broken? {
        return NoFit(PreFilterFailed), false, 0;
      }
      if fwk.preFilter.Unschedulable? {
        var keys := set c | c in unique :: KObj(c);
        return Fits([], map key | key in keys :: ByPreFilter), false, 0;
      }
      var seen;
      fit, seen, interrupted := FindClustersThatPassFilters(fwk, replication, unique);
      evaluated := |seen.feasible| + |seen.statuses|;
      if !fwk.hasFilters {
        var _ := NamesOf(unique);
        RotatePermutes(unique, old(nextStart));
        PrefixOfRotation(unique, old(nextStart), NumFeasibleClustersToFind(percentage, |unique|, replication));
      }
    }

    /** The same, read as a property of the cache and the affinities. */
    method FilterEligible(fwk: Framework, cache: seq<Cluster>, sub: Subscription, unique: seq<Cluster>)
      returns (fit: Fit, interrupted: bool, ghost evaluated: nat)
      requires (forall a :: a in sub.affinities ==> a.Selects?) && ToSet(unique) == EligibleSet(cache, sub)
      requires |unique| == |EligibleSet(cache, sub)| < TWO_31 && Int32(percentage) && DistinctNames(unique)
      modifies this`nextStart
      ensures FitsSubscription(cache, sub, fwk, percentage, fit, interrupted)
      ensures Stops(cache, sub, fwk).Some? ==> nextStart == old(nextStart)
      ensures Stops(cache, sub, fwk).None? ==>
                MovesOn(cache, sub, old(nextStart), nextStart, evaluated)
                && (fit.Fits? ==> evaluated == |fit.feasible| + |fit.statuses|)
    {
      fit, interrupted, evaluated := FilterUnique(fwk, sub.replication, unique);
      FiltersRunIff(cache, sub, fwk, unique);
      FitOfUnique(cache, sub, fwk, unique, percentage, fit, interrupted);
    }

    /** Gathers the clusters of all subscribers, drops repeated and deleting ones, and filters the rest. */
    method FindClustersThatFitSubscription(fwk: Framework, cache: seq<Cluster>, sub: Subscription)
      returns (fit: Fit, interrupted: bool, ghost evaluated: nat)
      requires |cache| < TWO_31 && Int32(percentage) && DistinctKeys(cache)
      modifies this`nextStart
      ensures FitsSubscription(cache, sub, fwk, percentage, fit, interrupted)
      ensures Stops(cache, sub, fwk).Some? ==> nextStart == old(nextStart)
      ensures Stops(cache, sub, fwk).None? ==>
                MovesOn(cache, sub, old(nextStart), nextStart, evaluated)
                && (fit.Fits? ==> evaluated == |fit.feasible| + |fit.statuses|)
    {
      var unique := EligibleClusters(cache, sub);
      if unique.None? {
        BadAffinityStops(cache, sub, fwk, percentage);
        return NoFit(BadAffinity), false, 0;
      }
      fit, interrupted, evaluated := FilterEligible(fwk, cache, sub, unique.value);
    }

    /**
     * The result is as Decided says, the suggested clusters are eligible and pass, each once, and the next
     * cycle starts behind the evaluated clusters.
     */
    method Schedule(fwk: Framework, cache: seq<Cluster>, sub: Subscription)
      returns (r: ScheduleResult, interrupted: bool, ghost evaluated: nat)
      requires |cache| < TWO_31 && Int32(percentage) && DistinctKeys(cache) && AlignedScores(fwk)
      modifies this`nextStart
      ensures r.NoClusters? <==> cache == []
      ensures r.Scheduled? ==>
                && NoDup(r.names) && ToSet(r.names) <= (set c | c in PassSet(cache, sub, fwk) :: KObj(c))
                && 0 < |r.names| == r.feasible
      ensures cache != [] ==> Decided(cache, sub, fwk, percentage, r, interrupted)
      ensures r == Aborted(ScoringFailed) ==> fwk.hasScores && exists cs: seq<Cluster> :: fwk.scores(cs).None?
      ensures cache == [] || Stops(cache, sub, fwk).Some? ==> nextStart == old(nextStart)
      ensures cache != [] && Stops(cache, sub, fwk).None? ==>
                MovesOn(cache, sub, old(nextStart), nextStart, evaluated)
                && (r.Scheduled? || r.Unfit? ==> evaluated == Evaluated(r))
    {
      interrupted, evaluated := false, 0;
      if |cache| == 0 {
        return NoClusters, false, 0;
      }
      var fit;
      fit, interrupted, evaluated := FindClustersThatFitSubscription(fwk, cache, sub);
      r := Conclude(fwk, cache, sub, percentage, fit, interrupted);
    }
  }

  /** From what a cycle found to its result: an error, no fit, or the suggestion. */
  method Conclude(fwk: Framework, cache: seq<Cluster>, sub: Subscription, percentage: int, fit: Fit, interrupted: bool)
    returns (r: ScheduleResult)
    requires |cache| < TWO_31 && Int32(percentage) && DistinctKeys(cache) && AlignedScores(fwk)
    requires FitsSubscription(cache, sub, fwk, percentage, fit, interrupted)
    ensures !r.NoClusters? && Decided(cache, sub, fwk, percentage, r, interrupted)
    ensures r.Scheduled? ==>
              && NoDup(r.names) && ToSet(r.names) <= (set c | c in PassSet(cache, sub, fwk) :: KObj(c))
              && 0 < |r.names| == r.feasible
    ensures r == Aborted(ScoringFailed) ==> fwk.hasScores && exists cs: seq<Cluster> :: fwk.scores(cs).None?
    ensures r.Scheduled? || r.Unfit? ==> fit.Fits? && Evaluated(r) == |fit.feasible| + |fit.statuses|
  {
    if fit.NoFit? {
      FailureDecides(cache, sub, fwk, percentage, fit, interrupted);
      return Aborted(fit.failure);
    }
    if |fit.feasible| == 0 {
      RejectionDecides(cache, sub, fwk, percentage, fit, interrupted);
      return Unfit(fit.statuses);
    }
    var names := Suggest(fwk, fit.feasible);
    if names.None? {
      ScoringDecides(cache, sub, fwk, percentage, fit, interrupted);
      return Aborted(ScoringFailed);
    }
    SuggestionNames(cache, sub, fwk, percentage, fit, interrupted, names.value);
    SuggestionDecides(cache, sub, fwk, percentage, fit, interrupted, names.value);
    return Scheduled(names.value, |fit.feasible| + |fit.statuses|, |fit.feasible|);
  }

  /** How many clusters a cycle looks for. */
  ghost function Wanted(cache: seq<Cluster>, sub: Subscription, percentage: int): int {
    NumFeasibleClustersToFind(percentage, |EligibleSet(cache, sub)|, sub.replication)
  }

  /** No more clusters pass than are wanted. */
  ghost predicate AllFit(cache: seq<Cluster>, sub: Subscription, fwk: Framework, percentage: int) {
    |PassSet(cache, sub, fwk)| <= Wanted(cache, sub, percentage)
  }

  /** Under Replication, for few clusters and for 100 percent all are wanted. */
  lemma ReplicationWantsAll(cache: seq<Cluster>, sub: Subscription, fwk: Framework, percentage: int)
    requires sub.replication || percentage >= 100 || |EligibleSet(cache, sub)| < MIN_FEASIBLE_CLUSTERS_TO_FIND
    ensures AllFit(cache, sub, fwk, percentage)
  {
    SubsetSize(PassSet(cache, sub, fwk), EligibleSet(cache, sub));
  }

  /** The filters of some eligible cluster fail internally. */
  ghost predicate FilterFails(cache: seq<Cluster>, sub: Subscription, fwk: Framework) {
    fwk.hasFilters && exists c :: Eligible(cache, sub, c) && fwk.filter(c).Error?
  }

  /** How many clusters a cycle has evaluated, as far as its result tells. */
  function Evaluated(r: ScheduleResult): nat {
    match r
    case Scheduled(_, evaluated, _) => evaluated
    case Unfit(statuses) => |statuses|
    case _ => 0
  }

  /** The next cycle starts behind the clusters that this one evaluated. */
  ghost predicate MovesOn(cache: seq<Cluster>, sub: Subscription, start: nat, next: nat, evaluated: nat) {
    EligibleSet(cache, sub) != {} && next == NextStart(|EligibleSet(cache, sub)|, start, evaluated)
  }

  /**
   * What a cycle finds. Once the filters run, a failure is an internal error of one of them, and there is
   * one whenever all that pass are wanted and some filter fails; without one as many are found as are wanted.
   */
  ghost predicate FitsSubscription(cache: seq<Cluster>, sub: Subscription, fwk: Framework, percentage: int, fit: Fit,
                                   interrupted: bool) {
    var pass, fails := PassSet(cache, sub, fwk), FilterFails(cache, sub, fwk);
    if Stops(cache, sub, fwk).Some? then Reflects(Stops(cache, sub, fwk).value, fit)
    else
      && (fit.NoFit? ==> fit.failure.FilterFailed? && fails)
      && (fit.Fits? ==>
            NoDup(fit.feasible) && ToSet(fit.feasible) <= pass && fit.statuses.Keys <= FailNames(cache, sub, fwk))
      && (!interrupted && !fails ==>
            fit.Fits? && |fit.feasible| == Min(Wanted(cache, sub, percentage), |pass|))
      && (!interrupted && AllFit(cache, sub, fwk, percentage) ==>
            (fit.NoFit? <==> fails)
            && (!fails ==> ToSet(fit.feasible) == pass && fit.statuses.Keys == FailNames(cache, sub, fwk)))
  }

  /** What the search over distinct clusters returns, before that is read as a property of the cache. */
  ghost predicate FitsUnique(fwk: Framework, unique: seq<Cluster>, percentage: int, replication: bool, fit: Fit,
                             interrupted: bool)
    requires |unique| < TWO_31 && Int32(percentage)
  {
    if unique == [] then fit == Fits([], map[])
    else
      match fwk.preFilter
      case Broken => fit == NoFit(PreFilterFailed)
      case Unschedulable => Reflects(Rejecting(set c | c in unique :: KObj(c)), fit)
      case Ready =>
        var want := NumFeasibleClustersToFind(percentage, |unique|, replication);
        && 0 <= want <= |unique| && (replication ==> want == |unique|)
        && if fwk.hasFilters then GoodFit(fwk, unique, want, fit, interrupted)
           else
             && fit.Fits? && fit.statuses == map[] && NoDup(fit.feasible) && |fit.feasible| == want
             && ToSet(fit.feasible) <= ToSet(unique) && (want == |unique| ==> ToSet(fit.feasible) == ToSet(unique))
  }

  lemma BadAffinityStops(cache: seq<Cluster>, sub: Subscription, fwk: Framework, percentage: int)
    requires exists a :: a in sub.affinities && !a.Selects?
    ensures Stops(cache, sub, fwk) == Some(Aborting(BadAffinity))
    ensures FitsSubscription(cache, sub, fwk, percentage, NoFit(BadAffinity), false)
  {
  }

  lemma FiltersRunIff(cache: seq<Cluster>, sub: Subscription, fwk: Framework, unique: seq<Cluster>)
    requires (forall a :: a in sub.affinities ==> a.Selects?) && ToSet(unique) == EligibleSet(cache, sub)
    ensures Stops(cache, sub, fwk).None? <==> unique != [] && fwk.preFilter.Ready?
    ensures unique != [] ==> EligibleSet(cache, sub) != {}
  {
    assert unique != [] ==> unique[0] in EligibleSet(cache, sub);
  }

  lemma FitOfUnique(cache: seq<Cluster>, sub: Subscription, fwk: Framework, unique: seq<Cluster>, percentage: int,
                    fit: Fit, interrupted: bool)
    requires (forall a :: a in sub.affinities ==> a.Selects?) && ToSet(unique) == EligibleSet(cache, sub)
    requires |unique| == |EligibleSet(cache, sub)| < TWO_31 && Int32(percentage)
    requires FitsUnique(fwk, unique, percentage, sub.replication, fit, interrupted)
    ensures FitsSubscription(cache, sub, fwk, percentage, fit, interrupted)
  {
    EligibleByFilters(cache, sub, fwk, unique);
    assert fit.Fits? ==> forall c :: c in fit.feasible ==> c in ToSet(fit.feasible);
    assert unique != [] ==> unique[0] in EligibleSet(cache, sub);
  }

  /** Why the search ends before any filter runs. */
  datatype Stop = Aborting(failure: Failure) | Rejecting(names: set<string>)

  /**
   * A selector that does not convert fails; no eligible cluster leaves nothing to reject; a broken
   * prefilter fails; an unschedulable one rejects every eligible cluster.
   */
  ghost function Stops(cache: seq<Cluster>, sub: Subscription, fwk: Framework): Option<Stop> {
    if exists a :: a in sub.affinities && a.Invalid? then Some(Aborting(BadAffinity))
    else if EligibleSet(cache, sub) == {} then Some(Rejecting({}))
    else if fwk.preFilter.Broken? then Some(Aborting(PreFilterFailed))
    else if fwk.preFilter.Unschedulable? then Some(Rejecting(set c | c in EligibleSet(cache, sub) :: KObj(c)))
    else None
  }

  ghost predicate Reflects(stop: Stop, fit: Fit) {
    if stop.Aborting? then fit == NoFit(stop.failure)
    else
      fit.Fits? && fit.feasible == [] && fit.statuses.Keys == stop.names
      && forall n :: n in fit.statuses ==> fit.statuses[n].ByPreFilter?
  }

  ghost function EligibleSet(cache: seq<Cluster>, sub: Subscription): set<Cluster> {
    set c | c in cache && Eligible(cache, sub, c)
  }

  ghost function PassSet(cache: seq<Cluster>, sub: Subscription, fwk: Framework): set<Cluster> {
    set c | c in cache && Eligible(cache, sub, c) && Passes(fwk, c)
  }

  ghost function FailNames(cache: seq<Cluster>, sub: Subscription, fwk: Framework): set<string> {
    set c | c in cache && Eligible(cache, sub, c) && !Passes(fwk, c) :: KObj(c)
  }

  /** The simple specification of Schedule under Replication. */
  ghost predicate Refines(cache: seq<Cluster>, sub: Subscription, fwk: Framework, r: ScheduleResult) {
    var pass, fail := PassSet(cache, sub, fwk), FailNames(cache, sub, fwk);
    if pass == {} then r.Unfit? && r.statuses.Keys == fail
    else
      && r.Scheduled?
      && NoDup(r.names) && ToSet(r.names) == (set c | c in pass :: KObj(c))
      && r.feasible == |pass| && r.evaluated == |pass| + |fail|
  }

  /**
   * What a cycle decides. With no plugin failure and no outside cancel: when no more clusters pass than are
   * wanted, as under Replication, exactly the eligible clusters that pass all filters are suggested, each once,
   * and if there is none, the error carries exactly the eligible clusters that fail; otherwise as many are
   * suggested as are wanted. Then, too, a filter that fails internally is the result. What ends the cycle
   * before any filter runs is told as it is.
   */
  ghost predicate Decided(cache: seq<Cluster>, sub: Subscription, fwk: Framework, percentage: int, r: ScheduleResult,
                          interrupted: bool) {
    && (!interrupted && Healthy(cache, sub, fwk) && AllFit(cache, sub, fwk, percentage) ==> Refines(cache, sub, fwk, r))
    && (!interrupted && Healthy(cache, sub, fwk) ==>
          if PassSet(cache, sub, fwk) == {} then r.Unfit?
          else r.Scheduled? && r.feasible == Min(Wanted(cache, sub, percentage), |PassSet(cache, sub, fwk)|))
    && (!interrupted && Stops(cache, sub, fwk).None? && AllFit(cache, sub, fwk, percentage) ==>
          (r == Aborted(FilterFailed) <==> FilterFails(cache, sub, fwk)))
    && (r == Aborted(FilterFailed) ==> FilterFails(cache, sub, fwk))
    && (Stops(cache, sub, fwk).Some? ==>
          var stop := Stops(cache, sub, fwk).value;
          if stop.Aborting? then r == Aborted(stop.failure)
          else r.Unfit? && r.statuses.Keys == stop.names && forall n :: n in r.statuses ==> r.statuses[n].ByPreFilter?)
  }

  lemma FailureDecides(cache: seq<Cluster>, sub: Subscription, fwk: Framework, percentage: int, fit: Fit,
                       interrupted: bool)
    requires FitsSubscription(cache, sub, fwk, percentage, fit, interrupted) && fit.NoFit?
    ensures Decided(cache, sub, fwk, percentage, Aborted(fit.failure), interrupted) && !fit.failure.ScoringFailed?
  {
  }

  lemma NonePasses(cache: seq<Cluster>, sub: Subscription, fwk: Framework, percentage: int, fit: Fit, interrupted: bool)
    requires FitsSubscription(cache, sub, fwk, percentage, fit, interrupted) && fit.Fits? && fit.feasible == []
    requires Int32(percentage) && |cache| < TWO_31 && Healthy(cache, sub, fwk) && !interrupted
    ensures PassSet(cache, sub, fwk) == {} && fit.statuses.Keys == FailNames(cache, sub, fwk)
  {
    SubsetSize(PassSet(cache, sub, fwk), EligibleSet(cache, sub));
    SubsetSize(EligibleSet(cache, sub), ToSet(cache));
    ToSetSize(cache);
    NumFeasibleBounds(percentage, |EligibleSet(cache, sub)|, sub.replication);
    if EligibleSet(cache, sub) == {} {
      forall c | c in cache ensures !Eligible(cache, sub, c) {
        assert c !in EligibleSet(cache, sub);
      }
    } else {
      assert PassSet(cache, sub, fwk) == {};
    }
  }

  lemma RejectionDecides(cache: seq<Cluster>, sub: Subscription, fwk: Framework, percentage: int, fit: Fit,
                         interrupted: bool)
    requires FitsSubscription(cache, sub, fwk, percentage, fit, interrupted) && fit.Fits? && fit.feasible == []
    requires Int32(percentage) && |cache| < TWO_31
    ensures Decided(cache, sub, fwk, percentage, Unfit(fit.statuses), interrupted)
  {
    if Healthy(cache, sub, fwk) && !interrupted {
      NonePasses(cache, sub, fwk, percentage, fit, interrupted);
    }
  }

  lemma FiltersRan(cache: seq<Cluster>, sub: Subscription, fwk: Framework, percentage: int, fit: Fit, interrupted: bool)
    requires FitsSubscription(cache, sub, fwk, percentage, fit, interrupted) && fit.Fits? && fit.feasible != []
    ensures PassSet(cache, sub, fwk) != {} && Stops(cache, sub, fwk).None?
    ensures !interrupted && AllFit(cache, sub, fwk, percentage) ==> !FilterFails(cache, sub, fwk)
  {
    assert fit.feasible[0] in ToSet(fit.feasible);
  }

  lemma ScoringDecides(cache: seq<Cluster>, sub: Subscription, fwk: Framework, percentage: int, fit: Fit,
                       interrupted: bool)
    requires FitsSubscription(cache, sub, fwk, percentage, fit, interrupted) && fit.Fits? && fit.feasible != []
    requires fwk.hasScores && fwk.scores(fit.feasible).None?
    ensures Decided(cache, sub, fwk, percentage, Aborted(ScoringFailed), interrupted)
  {
    FiltersRan(cache, sub, fwk, percentage, fit, interrupted);
    assert !Healthy(cache, sub, fwk);
  }

  lemma SuggestionNames(cache: seq<Cluster>, sub: Subscription, fwk: Framework, percentage: int, fit: Fit,
                        interrupted: bool, names: seq<string>)
    requires FitsSubscription(cache, sub, fwk, percentage, fit, interrupted) && fit.Fits? && fit.feasible != []
    requires DistinctKeys(cache)
    requires |names| == |fit.feasible| && forall i :: 0 <= i < |names| ==> names[i] == KObj(fit.feasible[i])
    ensures NoDup(names) && ToSet(names) <= (set c | c in PassSet(cache, sub, fwk) :: KObj(c))
    ensures ToSet(fit.feasible) == PassSet(cache, sub, fwk) ==>
              |fit.feasible| == |PassSet(cache, sub, fwk)|
                  && ToSet(names) == (set c | c in PassSet(cache, sub, fwk) :: KObj(c))
  {
    FiltersRan(cache, sub, fwk, percentage, fit, interrupted);
    assert forall c :: c in fit.feasible ==> c in ToSet(fit.feasible);
    NamesOfFeasible(cache, sub, fwk, fit.feasible, names);
  }

  lemma SuggestionDecides(cache: seq<Cluster>, sub: Subscription, fwk: Framework, percentage: int, fit: Fit,
                          interrupted: bool, names: seq<string>)
    requires FitsSubscription(cache, sub, fwk, percentage, fit, interrupted) && fit.Fits? && fit.feasible != []
    requires NoDup(names) && |names| == |fit.feasible|
    requires ToSet(fit.feasible) == PassSet(cache, sub, fwk) ==>
               |fit.feasible| == |PassSet(cache, sub, fwk)|
                   && ToSet(names) == (set c | c in PassSet(cache, sub, fwk) :: KObj(c))
    ensures Decided(cache, sub, fwk, percentage,
                    Scheduled(names, |fit.feasible| + |fit.statuses|, |fit.feasible|), interrupted)
    ensures Stops(cache, sub, fwk).None?
  {
    FiltersRan(cache, sub, fwk, percentage, fit, interrupted);
    assert |fit.statuses| == |fit.statuses.Keys|;
  }

  lemma UniqueIsEligible(cache: seq<Cluster>, sub: Subscription, all: seq<Cluster>, unique: seq<Cluster>)
    requires DistinctKeys(cache) && forall a :: a in sub.affinities ==> a.Selects?
    requires forall c :: c in all <==> c in cache && exists a :: a in sub.affinities && a.select(c)
    requires DistinctNames(unique)
    requires forall c :: c in unique ==> c in all && !c.deleting
    requires forall c :: c in all && !c.deleting ==> exists d :: d in unique && KObj(d) == KObj(c)
    ensures ToSet(unique) == EligibleSet(cache, sub)
    ensures |unique| == |EligibleSet(cache, sub)| <= |cache|
  {
    forall c ensures c in unique <==> c in EligibleSet(cache, sub) {
      if c in EligibleSet(cache, sub) {
        assert c in all;
        var d :| d in unique && KObj(d) == KObj(c);
        assert d in cache;
      }
    }
    var _ := NamesOf(unique);
    NoDupSize(unique);
    SubsetSize(ToSet(unique), ToSet(cache));
    ToSetSize(cache);
  }

  lemma {:induction false} ToSetSize<T>(s: seq<T>)
    ensures |ToSet(s)| <= |s|
  {
    if s != [] {
      ToSetSize(s[..|s| - 1]);
      assert ToSet(s) == ToSet(s[..|s| - 1]) + {s[|s| - 1]};
    }
  }

  lemma EligibleByFilters(cache: seq<Cluster>, sub: Subscription, fwk: Framework, unique: seq<Cluster>)
    requires ToSet(unique) == EligibleSet(cache, sub)
    ensures forall c :: c in unique <==> c in cache && Eligible(cache, sub, c)
    ensures fwk.hasFilters ==> PassingClusters(fwk, unique) == PassSet(cache, sub, fwk)
    ensures !fwk.hasFilters ==> ToSet(unique) == PassSet(cache, sub, fwk) && FailNames(cache, sub, fwk) == {}
    ensures Healthy(cache, sub, fwk) && fwk.hasFilters ==>
              NoFilterErrors(fwk, unique) && FailingNames(fwk, unique) == FailNames(cache, sub, fwk)
  {
    assert forall c :: c in unique <==> c in ToSet(unique);
  }

  lemma PrefixOfRotation(unique: seq<Cluster>, start: nat, want: nat)
    requires want <= |unique| && NoDup(Rotate(unique, start)) && ToSet(Rotate(unique, start)) == ToSet(unique)
    ensures var p := Rotate(unique, start)[..want];
            NoDup(p) && ToSet(p) <= ToSet(unique) && (want == |unique| ==> ToSet(p) == ToSet(unique))
  {
  }

  lemma NamesOfFeasible(cache: seq<Cluster>, sub: Subscription, fwk: Framework, feasible: seq<Cluster>,
                        names: seq<string>)
    requires DistinctKeys(cache) && NoDup(feasible) && forall c :: c in feasible ==> c in PassSet(cache, sub, fwk)
    requires |names| == |feasible| && forall i :: 0 <= i < |names| ==> names[i] == KObj(feasible[i])
    ensures NoDup(names) && ToSet(names) == (set c | c in feasible :: KObj(c))
    ensures ToSet(feasible) == PassSet(cache, sub, fwk) ==>
              |feasible| == |PassSet(cache, sub, fwk)|
                  && ToSet(names) == (set c | c in PassSet(cache, sub, fwk) :: KObj(c))
  {
    forall i, j | 0 <= i < j < |names| ensures names[i] != names[j] {
      assert feasible[i] in PassSet(cache, sub, fwk) && feasible[j] in PassSet(cache, sub, fwk);
    }
    NoDupSize(feasible);
    if ToSet(feasible) == PassSet(cache, sub, fwk) {
      assert forall c :: c in feasible <==> c in PassSet(cache, sub, fwk) by {
        assert forall c :: c in feasible <==> c in ToSet(feasible);
      }
    }
  }
}
