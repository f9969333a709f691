/**
 * What the hub does in child clusters, in terms of the objects and catalogs alone: exactly when an object
 * is put there, taken away or abandoned, in one step and over whole runs.
 */
module Effects {
  import opened Collections
  import opened Json
  import opened Feeds
  import opened Catalog
  import opened ObjectStore
  import opened Propagation
  import opened Runs
  import opened NoLeaks

  // ---------------------------------------------------------------- the cluster of a namespace

  /** The first ManagedCluster of the namespace with the ID, or the first at all for an empty ID. */
  ghost predicate FirstListed(cat: Catalog, ns: string, id: string, i: int) {
    && ns in cat.clusters && 0 <= i < |cat.clusters[ns]|
    && (id == "" || cat.clusters[ns][i].id == id)
    && (id == "" ==> i == 0) && forall j :: 0 <= j < i ==> cat.clusters[ns][j].id != id
  }

  /** The hub may apply to it. */
  ghost predicate Pushed(cat: Catalog, ns: string, id: string) {
    id != "" && ns != ""
    && exists i :: FirstListed(cat, ns, id, i) && !cat.clusters[ns][i].mode.Pull? && cat.clusters[ns][i].appPusher
  }

  /** There is none, or its state is unknown. */
  ghost predicate Lost(cat: Catalog, ns: string, id: string) {
    forall i :: FirstListed(cat, ns, id, i) ==> cat.clusters[ns][i].unknown
  }

  lemma MatchingFirst(cat: Catalog, ns: string, id: string)
    ensures forall i :: FirstListed(cat, ns, id, i) ==>
              MatchingClusters(cat, ns, id) != [] && MatchingClusters(cat, ns, id)[0] == cat.clusters[ns][i]
    ensures MatchingClusters(cat, ns, id) != [] ==> exists i :: FirstListed(cat, ns, id, i)
  {
    if id == "" {
      assert MatchingClusters(cat, ns, id) != [] ==> FirstListed(cat, ns, id, 0);
    } else if ns in cat.clusters {
      var p := (c: ManagedCluster) => c.id == id;
      SelectedFirst(cat.clusters[ns], p);
      assert forall i :: FirstListed(cat, ns, id, i) <==> IsFirst(cat.clusters[ns], p, i);
    }
  }

  lemma PushedIff(cat: Catalog, ns: string, id: string)
    ensures DeployableByHub(cat, ns, id).ByHub? <==> Pushed(cat, ns, id)
  {
    MatchingFirst(cat, ns, id);
  }

  lemma LostIff(cat: Catalog, ns: string, id: string)
    ensures IsClusterLost(cat, ns, id) <==> Lost(cat, ns, id)
  {
    MatchingFirst(cat, ns, id);
  }

  // ---------------------------------------------------------------- one step

  /** An entry of the list is this object. */
  ghost predicate Carries(raw: seq<Raw>, id: ObjId) {
    exists r :: r in raw && Parse(r) == Some(id)
  }

  lemma IdsCarried(raw: seq<Raw>)
    ensures forall id :: id in Ids(raw) <==> Carries(raw, id)
  {
    forall id | Carries(raw, id) ensures id in Ids(raw) {
      var r :| r in raw && Parse(r) == Some(id);
    }
  }

  /** The step handles a generic Description of the namespace, deleting or not, whose cluster the hub applies to. */
  ghost predicate Handles(s: Store, st: Step, ns: string, deleting: bool) {
    && st.event.OnDescription? && st.event.key in s.descs && st.event.key.ns == ns
    && var d := s.descs[st.event.key];
       && d.deleting == deleting && d.spec.deployer.Generic? && Pushed(st.cat, ns, d.cluster)
       && (deleting || APP_FINALIZER in d.finalizers || st.api(Inject(DescriptionKind, st.event.key)))
  }

  /** It applies this object: the Description is live and carries it. */
  ghost predicate Placed(s: Store, st: Step, ns: string, id: ObjId) {
    && Handles(s, st, ns, false) && Carries(s.descs[st.event.key].spec.raw, id)
    && st.api(Connect(ns)) && Acceptable(id) && st.api(Apply(ns, id))
  }

  /** A call that deletes the object succeeds. */
  predicate Deletable(st: Step, ns: string, id: ObjId) {
    st.api(Connect(ns)) && id.group.Some? && st.api(Remove(ns, id))
  }

  /** It removes this object: the Description is deleting and carries it, and the cluster is not lost. */
  ghost predicate Offloaded(s: Store, st: Step, ns: string, id: ObjId) {
    && Handles(s, st, ns, true) && Carries(s.descs[st.event.key].spec.raw, id)
    && !Lost(st.cat, ns, s.descs[st.event.key].cluster) && Deletable(st, ns, id)
  }

  /** The current Raw carries the object, and the desired one carries none that prints like it. */
  ghost predicate Obsolete(p: Prune, id: ObjId) {
    Carries(p.current.raw, id) && forall d :: Carries(p.desired.raw, d) ==> ResourceName(d) != ResourceName(id)
  }

  /** It prunes this object. */
  ghost predicate PrunedAway(s: Store, st: Step, ns: string, id: ObjId) {
    && st.event.OnPrune? && st.event.prune in s.prunes && st.event.prune.ns == ns
    && !st.event.prune.desired.deployer.Helm? && Obsolete(st.event.prune, id) && Deletable(st, ns, id)
  }

  ghost predicate Withdrawn(s: Store, st: Step, ns: string, id: ObjId) {
    || Offloaded(s, st, ns, id) || PrunedAway(s, st, ns, id)
    || (st.event.ChildrenGone? && st.event.ns == ns && id in st.event.ids)
  }

  /** The Description that carries the object is released with its cluster lost. */
  ghost predicate Abandoned(s: Store, st: Step, ns: string, id: ObjId) {
    && Handles(s, st, ns, true) && Carries(s.descs[st.event.key].spec.raw, id)
    && Lost(st.cat, ns, s.descs[st.event.key].cluster) && st.api(Unprotect(DescriptionKind, st.event.key))
  }

  lemma GenericEffect(cat: Catalog, api: Api, s: Store, key: Key, ns: string, id: ObjId)
    requires key in s.descs
    ensures var d, s' := s.descs[key], HandleGeneric(cat, api, s, key).store;
            var here := key.ns == ns && Pushed(cat, ns, d.cluster) && Carries(d.spec.raw, id);
            && (id in ChildrenOf(s', ns) <==>
                  || (here && !d.deleting && api(Connect(ns)) && Acceptable(id) && api(Apply(ns, id)))
                  || (id in ChildrenOf(s, ns)
                      && !(here && d.deleting && !Lost(cat, ns, d.cluster) && api(Connect(ns))
                           && Removes(api, ns, id))))
            && ((ns, id) in s'.abandoned <==>
                  || (here && d.deleting && Lost(cat, ns, d.cluster) && api(Unprotect(DescriptionKind, key)))
                  || ((ns, id) in s.abandoned
                      && !(here && !d.deleting && api(Connect(ns)) && Acceptable(id) && api(Apply(ns, id)))))
  {
    var d := s.descs[key];
    PushedIff(cat, key.ns, d.cluster);
    LostIff(cat, key.ns, d.cluster);
    IdsCarried(d.spec.raw);
  }

  /** The Description as its deployer gets it, if it is generic. */
  function Prepared(s: Store, st: Step): Option<Obj<DescSpec>>
    requires st.event.OnDescription?
  {
    var d := Get(s.descs, st.event.key);
    if d.None? || !d.value.spec.deployer.Generic? then None
    else Protected(st.api, DescriptionKind, st.event.key, d.value)
  }

  lemma Unprepared(s: Store, st: Step)
    requires st.event.OnDescription? && Prepared(s, st).None?
    ensures var s' := HandleDescription(st.cat, st.api, s, st.event.key).store;
            s'.children == s.children && s'.abandoned == s.abandoned
    ensures forall ns, deleting :: !Handles(s, st, ns, deleting)
  {
  }

  lemma PreparedHandles(s: Store, st: Step)
    requires st.event.OnDescription? && Prepared(s, st).Some?
    ensures var key := st.event.key;
            && HandleDescription(st.cat, st.api, s, key)
                 == HandleGeneric(st.cat, st.api, s.(descs := s.descs[key := Prepared(s, st).value]), key)
            && forall ns, deleting :: Handles(s, st, ns, deleting) <==>
                 key.ns == ns && s.descs[key].deleting == deleting && Pushed(st.cat, ns, s.descs[key].cluster)
    ensures var d := Prepared(s, st).value;
            && d.spec == s.descs[st.event.key].spec && d.deleting == s.descs[st.event.key].deleting
            && d.cluster == s.descs[st.event.key].cluster
  {
  }

  lemma DescriptionEffect(s: Store, st: Step, ns: string, id: ObjId)
    requires st.event.OnDescription?
    ensures var s' := HandleDescription(st.cat, st.api, s, st.event.key).store;
            && (id in ChildrenOf(s', ns) <==>
                  Placed(s, st, ns, id) || (id in ChildrenOf(s, ns) && !Offloaded(s, st, ns, id)))
            && ((ns, id) in s'.abandoned <==>
                  Abandoned(s, st, ns, id) || ((ns, id) in s.abandoned && !Placed(s, st, ns, id)))
  {
    if Prepared(s, st).None? {
      Unprepared(s, st);
    } else {
      PreparedHandles(s, st);
      GenericEffect(st.cat, st.api, s.(descs := s.descs[st.event.key := Prepared(s, st).value]), st.event.key, ns, id);
    }
  }

  lemma PruneIdsObsolete(p: Prune, id: ObjId)
    ensures id in PruneIds(p) <==> Obsolete(p, id)
  {
    IdsCarried(p.current.raw);
    IdsCarried(p.desired.raw);
  }

  /** The prune gets as far as to delete what is obsolete. */
  predicate Prunes(api: Api, s: Store, p: Prune) {
    p in s.prunes && !p.desired.deployer.Helm? && api(Connect(p.ns))
  }

  lemma PruneEffect(api: Api, s: Store, p: Prune, ns: string, id: ObjId)
    ensures id in ChildrenOf(RunPrune(api, s, p).store, ns) <==>
              id in ChildrenOf(s, ns) && !(Prunes(api, s, p) && p.ns == ns && Obsolete(p, id) && Removes(api, ns, id))
  {
    PruneIdsObsolete(p, id);
    if Prunes(api, s, p) {
      assert RunPrune(api, s, p).store.children
          == s.children[p.ns := ChildrenOf(s, p.ns) - Removed(api, p.ns, PruneIds(p))];
    } else {
      assert RunPrune(api, s, p).store.children == s.children;
    }
  }

  lemma DeletedReachesNoChild(s: Store, kind: Kind, k: Key)
    ensures Deleted(s, kind, k).abandoned == s.abandoned && Deleted(s, kind, k).children == s.children
    ensures Deleted(s, kind, k).prunes == s.prunes
  {
  }

  lemma HoldingReachesNoChild(s: Store, kind: Kind, k: Key, f: string)
    ensures Holding(s, kind, k, f).abandoned == s.abandoned && Holding(s, kind, k, f).children == s.children
    ensures Freeing(s, kind, k, f).abandoned == s.abandoned && Freeing(s, kind, k, f).children == s.children
    ensures Holding(s, kind, k, f).prunes == s.prunes && Freeing(s, kind, k, f).prunes == s.prunes
  {
  }

  /** Other handlers and users do not reach the children. */
  lemma OthersReachNoChild(s: Store, st: Step)
    requires !st.event.OnDescription? && !st.event.OnPrune? && !st.event.ChildrenGone?
    ensures Effect(s, st).abandoned == s.abandoned && Effect(s, st).children == s.children
  {
    if st.event.DeleteObject? {
      DeletedReachesNoChild(s, st.event.kind, st.event.key);
    } else if st.event.HoldObject? || st.event.FreeObject? {
      HoldingReachesNoChild(s, st.event.kind, st.event.key, st.event.finalizer);
    }
  }

  lemma PruneStep(s: Store, st: Step, ns: string, id: ObjId)
    requires st.event.OnPrune?
    ensures id in ChildrenOf(Next(s, st), ns) <==> id in ChildrenOf(s, ns) && !PrunedAway(s, st, ns, id)
  {
    PruneEffect(st.api, s, st.event.prune, ns, id);
    assert ChildrenOf(Next(s, st), ns) == ChildrenOf(RunPrune(st.api, s, st.event.prune).store, ns);
  }

  /** Exactly when an object that the hub manages is in a child cluster after a step. */
  lemma ChildrenAfterIff(s: Store, st: Step, ns: string, id: ObjId)
    ensures id in ChildrenOf(Next(s, st), ns) <==>
              Placed(s, st, ns, id) || (id in ChildrenOf(s, ns) && !Withdrawn(s, st, ns, id))
  {
    if st.event.OnDescription? {
      DescriptionEffect(s, st, ns, id);
      assert Withdrawn(s, st, ns, id) <==> Offloaded(s, st, ns, id);
    } else if st.event.OnPrune? {
      PruneStep(s, st, ns, id);
    } else if !st.event.ChildrenGone? {
      OthersReachNoChild(s, st);
    }
  }

  /**
   * Exactly when an object counts as abandoned after a step: its deleting Description was released with
   * the cluster lost, and nothing has applied it again.
   */
  lemma AbandonedAfterIff(s: Store, st: Step, ns: string, id: ObjId)
    ensures (ns, id) in Next(s, st).abandoned <==>
              Abandoned(s, st, ns, id) || ((ns, id) in s.abandoned && !Placed(s, st, ns, id))
  {
    assert Next(s, st).abandoned == Effect(s, st).abandoned;
    if st.event.OnDescription? {
      DescriptionEffect(s, st, ns, id);
    } else if st.event.OnPrune? {
      assert !Abandoned(s, st, ns, id) && !Placed(s, st, ns, id);
    } else if !st.event.ChildrenGone? {
      OthersReachNoChild(s, st);
    }
  }

  /** A step abandons an object only with the ManagedCluster of its Description's ID missing or unknown. */
  lemma AbandonedWhenLost(s: Store, st: Step, ns: string, id: ObjId)
    requires (ns, id) in Next(s, st).abandoned && (ns, id) !in s.abandoned
    ensures st.event.OnDescription? && st.event.key.ns == ns && st.event.key in s.descs
    ensures var d := s.descs[st.event.key];
            d.deleting && Carries(d.spec.raw, id)
            && forall i :: FirstListed(st.cat, ns, d.cluster, i) ==> st.cat.clusters[ns][i].unknown
  {
    AbandonedAfterIff(s, st, ns, id);
  }

  // ---------------------------------------------------------------- prunes

  /**
   * An attempt of a prune takes exactly the current objects that no desired one is by kind, namespace and
   * name and whose deletion succeeds; every desired object and every other namespace stays.
   */
  lemma PruneTakes(api: Api, s: Store, p: Prune, ns: string, id: ObjId)
    requires p in s.prunes && !p.desired.deployer.Helm? && id in ChildrenOf(s, ns)
    ensures var left := ChildrenOf(RunPrune(api, s, p).store, ns);
            && (Slashless(id) ==>
                  (id !in left <==>
                     && ns == p.ns && Carries(p.current.raw, id) && api(Connect(ns))
                     && id.group.Some? && api(Remove(ns, id))
                     && forall d :: Carries(p.desired.raw, d) ==> !SameButGroup(d, id)))
            && (Carries(p.desired.raw, id) ==> id in left)
  {
    PruneEffect(api, s, p, ns, id);
    if Slashless(id) {
      forall d ensures ResourceName(d) == ResourceName(id) <==> SameButGroup(d, id) {
        ResourceNamesEqual(id, d);
      }
    }
  }

  /** It brings nothing, and is over when everything parsed and everything obsolete was deleted. */
  lemma PruneEndsIff(api: Api, s: Store, p: Prune)
    requires p in s.prunes
    ensures var r := RunPrune(api, s, p);
            && (forall ns, id :: id in ChildrenOf(r.store, ns) ==> id in ChildrenOf(s, ns))
            && r.store.prunes == (if r.done then s.prunes - multiset{p} else s.prunes)
            && (r.done <==>
                  || p.desired.deployer.Helm?
                  || (&& api(Connect(p.ns)) && AllParse(p.current.raw) && AllParse(p.desired.raw)
                      && forall id :: Obsolete(p, id) ==> id.group.Some? && api(Remove(p.ns, id))))
  {
    forall ns, id | id in ChildrenOf(RunPrune(api, s, p).store, ns) ensures id in ChildrenOf(s, ns) {
      PruneEffect(api, s, p, ns, id);
    }
    IdsCarried(p.current.raw);
    IdsCarried(p.desired.raw);
    assert forall id :: id in PruneIds(p) <==> Obsolete(p, id);
    assert Removed(api, p.ns, PruneIds(p)) == PruneIds(p) <==>
        forall id :: id in PruneIds(p) ==> id.group.Some? && api(Remove(p.ns, id));
  }

  // ---------------------------------------------------------------- whole runs

  /** Which steps of a run apply, take away or abandon the object. */
  ghost function Placings(steps: seq<Step>, ns: string, id: ObjId): int -> bool {
    i => 0 <= i < |steps| && Placed(Run(steps[..i]), steps[i], ns, id)
  }

  ghost function Withdrawals(steps: seq<Step>, ns: string, id: ObjId): int -> bool {
    i => 0 <= i < |steps| && Withdrawn(Run(steps[..i]), steps[i], ns, id)
  }

  ghost function Losses(steps: seq<Step>, ns: string, id: ObjId): int -> bool {
    i => 0 <= i < |steps| && Abandoned(Run(steps[..i]), steps[i], ns, id)
  }

  ghost function InChild(steps: seq<Step>, ns: string, id: ObjId): int -> bool {
    i => 0 <= i <= |steps| && id in ChildrenOf(Run(steps[..i]), ns)
  }

  ghost function InAbandoned(steps: seq<Step>, ns: string, id: ObjId): int -> bool {
    i => 0 <= i <= |steps| && (ns, id) in Run(steps[..i]).abandoned
  }

  lemma StepSwitches(steps: seq<Step>, i: nat, ns: string, id: ObjId)
    requires i < |steps|
    ensures Switches(InChild(steps, ns, id), Placings(steps, ns, id), Withdrawals(steps, ns, id), i)
    ensures Switches(InAbandoned(steps, ns, id), Losses(steps, ns, id), Placings(steps, ns, id), i)
  {
    RunPrefix(steps, i);
    ChildrenAfterIff(Run(steps[..i]), steps[i], ns, id);
    AbandonedAfterIff(Run(steps[..i]), steps[i], ns, id);
  }

  lemma AllSwitch(steps: seq<Step>, ns: string, id: ObjId)
    ensures forall i :: 0 <= i < |steps| ==>
              Switches(InChild(steps, ns, id), Placings(steps, ns, id), Withdrawals(steps, ns, id), i)
    ensures forall i :: 0 <= i < |steps| ==>
              Switches(InAbandoned(steps, ns, id), Losses(steps, ns, id), Placings(steps, ns, id), i)
  {
    forall i | 0 <= i < |steps|
      ensures Switches(InChild(steps, ns, id), Placings(steps, ns, id), Withdrawals(steps, ns, id), i)
      ensures Switches(InAbandoned(steps, ns, id), Losses(steps, ns, id), Placings(steps, ns, id), i)
    {
      StepSwitches(steps, i, ns, id);
    }
  }

  lemma HistoryOfChild(steps: seq<Step>, ns: string, id: ObjId)
    ensures InChild(steps, ns, id)(|steps|)
       <==> exists i :: Latest(Placings(steps, ns, id), Withdrawals(steps, ns, id), |steps|, i)
  {
    AllSwitch(steps, ns, id);
    assert !InChild(steps, ns, id)(0);
    OnSinceLatest(InChild(steps, ns, id), Placings(steps, ns, id), Withdrawals(steps, ns, id), |steps|);
  }

  lemma HistoryOfLoss(steps: seq<Step>, ns: string, id: ObjId)
    ensures InAbandoned(steps, ns, id)(|steps|)
       <==> exists i :: Latest(Losses(steps, ns, id), Placings(steps, ns, id), |steps|, i)
  {
    AllSwitch(steps, ns, id);
    assert !InAbandoned(steps, ns, id)(0);
    OnSinceLatest(InAbandoned(steps, ns, id), Losses(steps, ns, id), Placings(steps, ns, id), |steps|);
  }

  /** What is in a child after a run is what some step applied and none since took away. */
  lemma ChildrenInRunIff(steps: seq<Step>, ns: string, id: ObjId)
    ensures id in ChildrenOf(Run(steps), ns)
       <==> exists i :: Latest(Placings(steps, ns, id), Withdrawals(steps, ns, id), |steps|, i)
  {
    HistoryOfChild(steps, ns, id);
    assert steps[..|steps|] == steps;
  }

  /** What counts as abandoned after a run is what some step abandoned and none since applied. */
  lemma AbandonedInRunIff(steps: seq<Step>, ns: string, id: ObjId)
    ensures (ns, id) in Run(steps).abandoned
       <==> exists i :: Latest(Losses(steps, ns, id), Placings(steps, ns, id), |steps|, i)
  {
    HistoryOfLoss(steps, ns, id);
    assert steps[..|steps|] == steps;
  }

  lemma AppliedHasApi(s: Store, st: Step, ns: string, id: ObjId)
    requires id in ChildrenOf(Next(s, st), ns) && id !in ChildrenOf(s, ns)
    ensures id.group.Some? && '/' !in id.kind && '/' !in id.ns && '/' !in id.name
  {
    ChildrenAfterIff(s, st, ns, id);
  }

  /** In every run all that is in a child has an API, and no slash in its kind, namespace or name. */
  lemma {:induction false} ChildrenHaveApi(steps: seq<Step>, ns: string, id: ObjId)
    requires id in ChildrenOf(Run(steps), ns)
    ensures id.group.Some? && '/' !in id.kind && '/' !in id.ns && '/' !in id.name
  {
    var n := |steps| - 1;
    if id in ChildrenOf(Run(steps[..n]), ns) {
      ChildrenHaveApi(steps[..n], ns, id);
    } else {
      AppliedHasApi(Run(steps[..n]), steps[n], ns, id);
    }
  }

  /** No ManagedCluster of the catalog is in an unknown state. */
  ghost predicate AllKnown(cat: Catalog) {
    forall ns, c :: ns in cat.clusters && c in cat.clusters[ns] ==> !c.unknown
  }

  lemma KnownNotAbandoned(s: Store, st: Step, ns: string, id: ObjId)
    requires AllKnown(st.cat)
    ensures !Abandoned(s, st, ns, id)
  {
    if Handles(s, st, ns, true) {
      var c := s.descs[st.event.key].cluster;
      var i :| FirstListed(st.cat, ns, c, i);
      assert st.cat.clusters[ns][i] in st.cat.clusters[ns];
    }
  }

  lemma KnownStepAbandonsNothing(s: Store, st: Step)
    requires AllKnown(st.cat) && s.abandoned == {}
    ensures Next(s, st).abandoned == {}
  {
    forall x ensures x !in Next(s, st).abandoned {
      AbandonedAfterIff(s, st, x.0, x.1);
      KnownNotAbandoned(s, st, x.0, x.1);
    }
  }

  /** In a run in which no cluster is lost nothing is abandoned. */
  lemma {:induction false} NothingAbandoned(steps: seq<Step>)
    requires forall st :: st in steps ==> AllKnown(st.cat)
    ensures Run(steps).abandoned == {}
  {
    if steps != [] {
      var n := |steps| - 1;
      NothingAbandoned(steps[..n]);
      KnownStepAbandonsNothing(Run(steps[..n]), steps[n]);
    }
  }

  /** In the Raw of a Description that has the hub's finalizer, or in a started prune. */
  ghost predicate TrackedByHub(s: Store, ns: string, id: ObjId) {
    (exists k :: CoveredAt(s, ns, id, k)) || exists p :: p in s.prunes && PrunedBy(p, ns, id)
  }

  lemma KnownTracked(s: Store, ns: string, id: ObjId)
    requires LeakFree(s) && s.abandoned == {} && id in ChildrenOf(s, ns)
    ensures TrackedByHub(s, ns, id)
  {
    assert Tracked(s, ns, id);
  }

  /** So then, if also no rendering of the run loses an object, the hub still tracks all that is in a child. */
  lemma TrackedWhileKnown(steps: seq<Step>, ns: string, id: ObjId)
    requires forall st :: st in steps ==> AllKnown(st.cat)
    requires forall i :: !LeakyAt(steps, i)
    requires id in ChildrenOf(Run(steps), ns)
    ensures TrackedByHub(Run(steps), ns, id)
  {
    InvInTightRun(steps);
    NothingAbandoned(steps);
    KnownTracked(Run(steps), ns, id);
  }
}
