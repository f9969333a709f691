/** Rounds of handlers over the tree of a deleting Subscription. */
module Rounds {
  import opened Collections
  import opened Json
  import opened Catalog
  import opened ObjectStore
  import opened Propagation
  import opened Runs
  import opened NoOrphans
  import opened Teardown

  /** Nothing but the hub acts, and no feed changes. */
  predicate Quiet(st: Step) {
    st.event.OnSubscription? || st.event.OnBase? || st.event.OnDescription? || st.event.OnRelease? || st.event.OnPrune?
  }

  function Exec(s: Store, steps: seq<Step>): Store {
    if steps == [] then s else Next(Exec(s, steps[..|steps| - 1]), steps[|steps| - 1])
  }

  // ---------------------------------------------------------------- what one quiet step keeps

  ghost predicate Ages<S>(o: Option<Obj<S>>, after: Option<Obj<S>>) {
    && (after.Some? ==> o.Some? && after.value.born == o.value.born && (o.value.deleting ==> after.value.deleting))
    && (Plain(o) ==> Plain(after))
  }

  ghost predicate AllAge<S>(m: Objects<S>, after: Objects<S>) {
    forall k :: Ages(Get(m, k), Get(after, k))
  }

  ghost predicate DescsWane(s: Store, s': Store) {
    forall r :: Dying(s.bases, r) ==> AllWane(s.descs, s'.descs, r)
  }

  ghost predicate ReleasesWane(s: Store, s': Store) {
    forall r :: Dying(s.descs, r) ==> AllWane(s.releases, s'.releases, r)
  }

  /** Subscriptions only age, and what belongs to a deleting owner only wanes. */
  ghost predicate Quieter(s: Store, s': Store, r: Ref) {
    && AllAge(s.subs, s'.subs)
    && AllWane(s.bases, s'.bases, r)
    && DescsWane(s, s')
    && ReleasesWane(s, s')
  }

  lemma PreparedAges<S>(api: Api, kind: Kind, key: Key, o: Obj<S>)
    ensures Protected(api, kind, key, o).Some? ==> Ages(Some(o), Protected(api, kind, key, o))
    ensures Labelled(api, kind, key, o).Some? ==> Ages(Some(o), Labelled(api, kind, key, o))
    ensures Ages(Some(o), Unprotected(o))
  {
  }

  lemma AgePut<S>(m: Objects<S>, k: Key, o: Option<Obj<S>>)
    requires Ages(Get(m, k), o)
    ensures AllAge(m, Put(m, k, o))
  {
  }

  lemma AgeTwice<S>(a: Objects<S>, b: Objects<S>, c: Objects<S>)
    requires AllAge(a, b) && AllAge(b, c)
    ensures AllAge(a, c)
  {
  }

  lemma ProcessSubscriptionAges(cat: Catalog, api: Api, s: Store, key: Key)
    requires key in s.subs
    ensures AllAge(s.subs, ProcessSubscription(cat, api, s, key).store.subs)
  {
  }

  lemma HandleSubscriptionAges(cat: Catalog, api: Api, s: Store, key: Key)
    ensures AllAge(s.subs, HandleSubscription(cat, api, s, key).store.subs)
  {
    if key in s.subs {
      PreparedAges(api, SubscriptionKind, key, s.subs[key]);
      var sub := Protected(api, SubscriptionKind, key, s.subs[key]);
      if sub.Some? {
        AgePut(s.subs, key, sub);
        PreparedAges(api, SubscriptionKind, key, sub.value);
        var labelled := Labelled(api, SubscriptionKind, key, sub.value);
        if labelled.Some? {
          var s' := s.(subs := Put(s.subs, key, labelled));
          AgePut(s.subs, key, labelled);
          ProcessSubscriptionAges(cat, api, s', key);
          AgeTwice(s.subs, s'.subs, ProcessSubscription(cat, api, s', key).store.subs);
        }
      }
    }
  }

  lemma SubscriptionQuiets(cat: Catalog, api: Api, s: Store, k: Key, r: Ref)
    requires Dying(s.subs, r)
    ensures Quieter(s, HandleSubscription(cat, api, s, k).store, r)
  {
    var s' := HandleSubscription(cat, api, s, k).store;
    HandleSubscriptionAges(cat, api, s, k);
    HandleSubscriptionWanes(cat, api, s, k, r);
  }

  lemma BaseWanesDescs(cat: Catalog, api: Api, s: Store, k: Key)
    ensures DescsWane(s, HandleBase(cat, api, s, k).store)
  {
    forall b | Dying(s.bases, b) ensures AllWane(s.descs, HandleBase(cat, api, s, k).store.descs, b) {
      HandleBaseWanesDescs(cat, api, s, k, b);
    }
  }

  lemma BaseQuiets(cat: Catalog, api: Api, s: Store, k: Key, r: Ref)
    ensures Quieter(s, HandleBase(cat, api, s, k).store, r)
  {
    HandleBaseWanesBases(cat, api, s, k, r);
    BaseWanesDescs(cat, api, s, k);
  }

  lemma DescriptionWanesDescs(cat: Catalog, api: Api, s: Store, k: Key)
    ensures DescsWane(s, HandleDescription(cat, api, s, k).store)
  {
    forall b ensures AllWane(s.descs, HandleDescription(cat, api, s, k).store.descs, b) {
      HandleDescriptionWanesDescs(cat, api, s, k, b);
    }
  }

  lemma DescriptionWanesReleases(cat: Catalog, api: Api, s: Store, k: Key)
    ensures ReleasesWane(s, HandleDescription(cat, api, s, k).store)
  {
    forall d | Dying(s.descs, d) ensures AllWane(s.releases, HandleDescription(cat, api, s, k).store.releases, d) {
      HandleDescriptionWanesReleases(cat, api, s, k, d);
    }
  }

  lemma ReleaseWanesReleases(cat: Catalog, api: Api, s: Store, k: Key)
    ensures ReleasesWane(s, HandleRelease(cat, api, s, k).store)
  {
    forall d ensures AllWane(s.releases, HandleRelease(cat, api, s, k).store.releases, d) {
      HandleReleaseWanes(cat, api, s, k, d);
    }
  }

  lemma StepQuiets(s: Store, st: Step, r: Ref)
    requires Quiet(st) && Dying(s.subs, r)
    ensures Quieter(s, Next(s, st), r)
  {
    var e := st.event;
    if e.OnSubscription? {
      SubscriptionQuiets(st.cat, st.api, s, e.key, r);
    } else if e.OnBase? {
      BaseQuiets(st.cat, st.api, s, e.key, r);
    } else if e.OnDescription? {
      DescriptionWanesDescs(st.cat, st.api, s, e.key);
      DescriptionWanesReleases(st.cat, st.api, s, e.key);
    } else if e.OnRelease? {
      ReleaseWanesReleases(st.cat, st.api, s, e.key);
    }
  }

  // ---------------------------------------------------------------- the tree and its goals

  /** The Description belongs to a Base of the Subscription r. */
  ghost predicate InTree(s: Store, r: Ref, o: Option<Obj<DescSpec>>) {
    o.Some? && o.value.owner.Some? &&
    var b := o.value.owner.value;
    OwnedBy(Get(s.bases, b.key), r) && s.bases[b.key].born == b.born
  }

  /** The HelmRelease belongs to such a Description. */
  ghost predicate ReleaseInTree(s: Store, r: Ref, o: Option<Obj<ReleaseSpec>>) {
    o.Some? && o.value.owner.Some? &&
    var d := o.value.owner.value;
    InTree(s, r, Get(s.descs, d.key)) && s.descs[d.key].born == d.born
  }

  ghost predicate Gone<S>(m: Objects<S>, r: Ref) {
    var o := Get(m, r.key);
    o.Some? ==> o.value.born != r.born
  }

  ghost predicate AllDeleting<S>(m: Objects<S>, r: Ref) {
    forall k :: OwnedBy(Get(m, k), r) ==> m[k].deleting
  }

  /**
   * The goals in the order in which they are reached: Bases are deleting; their Descriptions are;
   * of those only helm Descriptions stay, whose HelmReleases are deleting; no HelmReleases;
   * no Descriptions; no Bases; no Subscription.
   */
  ghost predicate Goal(n: nat, s: Store, r: Ref, k: Key) {
    if n == 1 then OwnedBy(Get(s.bases, k), r) ==> s.bases[k].deleting
    else if n == 2 then OwnedBy(Get(s.bases, k), r) ==> AllDeleting(s.descs, RefOf(k, s.bases[k]))
    else if n == 3 then InTree(s, r, Get(s.descs, k)) ==>
      s.descs[k].spec.deployer.Helm? && AllDeleting(s.releases, RefOf(k, s.descs[k]))
    else if n == 4 then !ReleaseInTree(s, r, Get(s.releases, k))
    else if n == 5 then !InTree(s, r, Get(s.descs, k))
    else if n == 6 then !OwnedBy(Get(s.bases, k), r)
    else Gone(s.subs, r)
  }

  ghost predicate Reached(n: nat, s: Store, r: Ref) {
    forall k :: Goal(n, s, r, k)
  }

  /** The Subscription is deleting, the hub alone holds it and the other objects, and there are no orphans. */
  ghost predicate TearingDown(s: Store, r: Ref) {
    Inv(s) && Dying(s.subs, r) && Plain(Get(s.subs, r.key))
    && AllPlain(s.bases) && AllPlain(s.descs) && AllPlain(s.releases)
  }

  ghost predicate Stage(n: nat, s: Store, r: Ref) {
    TearingDown(s, r) && forall m :: 1 <= m < n ==> Reached(m, s, r)
  }

  lemma SomeDying<S>(m: Objects<S>) returns (r: Ref)
    ensures Dying(m, r)
  {
    var k := Key("", "");
    r := if k in m then Ref(k, m[k].born + 1) else Ref(k, 0);
  }

  lemma WaningStaysPlain<S>(m: Objects<S>, m': Objects<S>, r: Ref)
    requires AllWane(m, m', r) && AllPlain(m)
    ensures AllPlain(m')
  {
  }

  lemma TearingDownStays(s: Store, st: Step, r: Ref)
    requires TearingDown(s, r) && Quiet(st)
    ensures TearingDown(Next(s, st), r)
  {
    NextKeeps(s, st);
    StepQuiets(s, st, r);
    var s' := Next(s, st);
    assert Ages(Get(s.subs, r.key), Get(s'.subs, r.key));
    WaningStaysPlain(s.bases, s'.bases, r);
    var b := SomeDying(s.bases);
    WaningStaysPlain(s.descs, s'.descs, b);
    var d := SomeDying(s.descs);
    WaningStaysPlain(s.releases, s'.releases, d);
  }

  // ---------------------------------------------------------------- goals stay reached

  lemma BaseBefore(s: Store, s': Store, r: Ref, k: Key)
    requires Quieter(s, s', r) && OwnedBy(Get(s'.bases, k), r)
    ensures OwnedBy(Get(s.bases, k), r) && RefOf(k, s'.bases[k]) == RefOf(k, s.bases[k])
    ensures s.bases[k].deleting ==> s'.bases[k].deleting
  {
  }

  lemma DescBefore(s: Store, s': Store, r: Ref, k: Key)
    requires Quieter(s, s', r) && Reached(1, s, r) && InTree(s', r, Get(s'.descs, k))
    ensures InTree(s, r, Get(s.descs, k)) && RefOf(k, s'.descs[k]) == RefOf(k, s.descs[k])
    ensures s'.descs[k].spec == s.descs[k].spec && s'.descs[k].owner == s.descs[k].owner
    ensures s.descs[k].deleting ==> s'.descs[k].deleting
  {
    var b := s'.descs[k].owner.value;
    BaseBefore(s, s', r, b.key);
    assert Goal(1, s, r, b.key);
    assert Dying(s.bases, b);
    assert Wanes(Get(s.descs, k), Get(s'.descs, k), b);
  }

  lemma DescDying(s: Store, r: Ref, k: Key)
    requires Reached(1, s, r) && Reached(2, s, r) && InTree(s, r, Get(s.descs, k))
    ensures s.descs[k].deleting && Dying(s.descs, RefOf(k, s.descs[k]))
  {
    var b := s.descs[k].owner.value;
    assert Goal(2, s, r, b.key);
    assert OwnedBy(Get(s.descs, k), b);
  }

  lemma ReleaseBefore(s: Store, s': Store, r: Ref, k: Key)
    requires Quieter(s, s', r) && Reached(1, s, r) && Reached(2, s, r) && ReleaseInTree(s', r, Get(s'.releases, k))
    ensures ReleaseInTree(s, r, Get(s.releases, k))
  {
    var d := s'.releases[k].owner.value;
    DescBefore(s, s', r, d.key);
    DescDying(s, r, d.key);
    assert Wanes(Get(s.releases, k), Get(s'.releases, k), d);
  }

  lemma DeletingStays<S>(m: Objects<S>, m': Objects<S>, q: Ref)
    requires AllWane(m, m', q) && AllDeleting(m, q)
    ensures AllDeleting(m', q)
  {
  }

  lemma EarlyGoalStays(n: nat, s: Store, s': Store, r: Ref, k: Key)
    requires 1 <= n <= 3 && Quieter(s, s', r) && Goal(n, s, r, k)
    requires n >= 2 ==> Reached(1, s, r)
    requires n >= 3 ==> Reached(2, s, r)
    ensures Goal(n, s', r, k)
  {
    if n <= 2 && OwnedBy(Get(s'.bases, k), r) {
      BaseBefore(s, s', r, k);
      if n == 2 {
        assert Goal(1, s, r, k);
        var b := RefOf(k, s.bases[k]);
        assert Dying(s.bases, b);
        DeletingStays(s.descs, s'.descs, b);
      }
    } else if n == 3 && InTree(s', r, Get(s'.descs, k)) {
      DescBefore(s, s', r, k);
      DescDying(s, r, k);
      DeletingStays(s.releases, s'.releases, RefOf(k, s.descs[k]));
    }
  }

  lemma LateGoalStays(n: nat, s: Store, s': Store, r: Ref, k: Key)
    requires 4 <= n <= 7 && Quieter(s, s', r) && Goal(n, s, r, k) && Reached(1, s, r) && Reached(2, s, r)
    ensures Goal(n, s', r, k)
  {
    if n == 4 && ReleaseInTree(s', r, Get(s'.releases, k)) {
      ReleaseBefore(s, s', r, k);
    } else if n == 5 && InTree(s', r, Get(s'.descs, k)) {
      DescBefore(s, s', r, k);
    } else if n == 6 && OwnedBy(Get(s'.bases, k), r) {
      BaseBefore(s, s', r, k);
    } else if n == 7 {
      assert Ages(Get(s.subs, r.key), Get(s'.subs, r.key));
    }
  }

  lemma ReachedStays(n: nat, s: Store, s': Store, r: Ref)
    requires 1 <= n <= 7 && Quieter(s, s', r) && Reached(n, s, r)
    requires n >= 2 ==> Reached(1, s, r)
    requires n >= 3 ==> Reached(2, s, r)
    ensures Reached(n, s', r)
  {
    forall k ensures Goal(n, s', r, k) {
      assert Goal(n, s, r, k);
      if n <= 3 {
        EarlyGoalStays(n, s, s', r, k);
      } else {
        LateGoalStays(n, s, s', r, k);
      }
    }
  }

  lemma StageStays(n: nat, s: Store, st: Step, r: Ref)
    requires n <= 8 && Stage(n, s, r) && Quiet(st)
    ensures Stage(n, Next(s, st), r)
  {
    TearingDownStays(s, st, r);
    StepQuiets(s, st, r);
    forall m | 1 <= m < n ensures Reached(m, Next(s, st), r) {
      ReachedStays(m, s, Next(s, st), r);
    }
  }

  // ---------------------------------------------------------------- goals are reached

  /** The handler of a goal: the Subscription's, a Base's, a Description's or a HelmRelease's. */
  function HandlerFor(n: nat, r: Ref, k: Key): Event {
    if n == 1 || n == 7 then OnSubscription(r.key)
    else if n == 2 || n == 6 then OnBase(k)
    else if n == 4 then OnRelease(k)
    else OnDescription(k)
  }

  predicate PushEnabled(cat: Catalog, ns: string, cluster: string) {
    DeployableByHub(cat, ns, cluster).ByHub?
  }

  /** Every object parses, and so does its API version. */
  ghost predicate AllServed(raw: seq<Raw>) {
    AllParse(raw) && forall id :: id in Ids(raw) ==> id.group.Some?
  }

  /** The handler's calls succeed, its cluster is pushed to, and its objects parse. */
  ghost predicate Calm(s: Store, st: Step) {
    && (forall c :: st.api(c))
    && (st.event.OnDescription? && st.event.key in s.descs ==>
          var d := s.descs[st.event.key];
          PushEnabled(st.cat, st.event.key.ns, d.cluster) && (d.spec.deployer.Generic? ==> AllServed(d.spec.raw)))
    && (st.event.OnRelease? && st.event.key in s.releases ==>
          PushEnabled(st.cat, st.event.key.ns, s.releases[st.event.key].cluster))
  }

  lemma NoneOwned<S, P>(m: Objects<S>, parents: Objects<P>, r: Ref)
    requires Attached(m, parents) && Gone(parents, r)
    ensures forall k :: !OwnedBy(Get(m, k), r)
  {
    forall k ensures !OwnedBy(Get(m, k), r) {
      assert AttachedAt(m, parents, k);
    }
  }

  lemma SubscriptionOffloads(s: Store, st: Step, r: Ref)
    requires Calm(s, st) && st.event == OnSubscription(r.key) && !Gone(s.subs, r) && Dying(s.subs, r)
    ensures var s1 := s.(subs := s.subs[r.key := Labelled(st.api, SubscriptionKind, r.key, s.subs[r.key]).value]);
            HandleSubscription(st.cat, st.api, s, r.key) == OffloadSubscription(st.api, s1, r.key)
  {
  }

  lemma SubscriptionMarksBases(s: Store, st: Step, r: Ref, k: Key)
    requires TearingDown(s, r) && Calm(s, st) && st.event == OnSubscription(r.key) && !Gone(s.subs, r)
    ensures Goal(1, Next(s, st), r, k)
  {
    SubscriptionOffloads(s, st, r);
    if OwnedBy(Get(s.bases, k), r) {
      assert k in Owned(s.bases, r);
    }
  }

  lemma ReachFirst(s: Store, st: Step, r: Ref, k: Key)
    requires TearingDown(s, r) && Calm(s, st) && Quiet(st) && st.event == OnSubscription(r.key)
    ensures Goal(1, Next(s, st), r, k)
  {
    if Gone(s.subs, r) {
      NoneOwned(s.bases, s.subs, r);
      StepQuiets(s, st, r);
      EarlyGoalStays(1, s, Next(s, st), r, k);
    } else {
      SubscriptionMarksBases(s, st, r, k);
    }
  }

  lemma BaseOffloads(s: Store, st: Step, r: Ref, k: Key)
    requires Calm(s, st) && st.event == OnBase(k) && OwnedBy(Get(s.bases, k), r) && s.bases[k].deleting
    ensures var s1 := s.(bases := s.bases[k := Labelled(st.api, BaseKind, k, s.bases[k]).value]);
            HandleBase(st.cat, st.api, s, k) == OffloadBase(st.api, s1, k)
  {
  }

  lemma ReachSecond(s: Store, st: Step, r: Ref, k: Key)
    requires Stage(2, s, r) && Calm(s, st) && Quiet(st) && st.event == OnBase(k)
    ensures Goal(2, Next(s, st), r, k)
  {
    var s' := Next(s, st);
    StepQuiets(s, st, r);
    if OwnedBy(Get(s'.bases, k), r) {
      BaseBefore(s, s', r, k);
      assert Reached(1, s, r) && Goal(1, s, r, k);
      BaseOffloads(s, st, r, k);
      var b := RefOf(k, s.bases[k]);
      forall j | OwnedBy(Get(s'.descs, j), b) ensures s'.descs[j].deleting {
        assert OwnedBy(Get(s.descs, j), b) ==> j in Owned(s.descs, b);
      }
    }
  }

  lemma HelmHandled(s: Store, st: Step, k: Key)
    requires Calm(s, st) && st.event == OnDescription(k) && k in s.descs && s.descs[k].deleting
        && s.descs[k].spec.deployer.Helm?
    ensures HandleDescription(st.cat, st.api, s, k) == OffloadReleases(st.api, s, k)
  {
  }

  lemma GenericHandled(s: Store, st: Step, k: Key)
    requires Calm(s, st) && st.event == OnDescription(k) && k in s.descs && s.descs[k].deleting
    requires s.descs[k].spec.deployer.Generic? && Plain(Get(s.descs, k))
    ensures k !in Next(s, st).descs
  {
    assert s.descs[k := s.descs[k]] == s.descs;
    assert Removed(st.api, k.ns, Ids(s.descs[k].spec.raw)) == Ids(s.descs[k].spec.raw);
    assert Unprotected(s.descs[k]) == None;
  }

  /** A deleting Description goes, unless it is helm's and still has HelmReleases, which are then all deleting. */
  lemma DescriptionHandled(s: Store, st: Step, k: Key)
    requires Calm(s, st) && st.event == OnDescription(k) && k in s.descs && s.descs[k].deleting
    requires Plain(Get(s.descs, k)) && SoundDesc(k, Get(s.descs, k))
    ensures var s', d := Next(s, st), RefOf(k, s.descs[k]);
            if s.descs[k].spec.deployer.Helm? && Owned(s.releases, d) != {}
            then s'.descs == s.descs && s'.releases == MarkOwned(s.releases, d, Deletes(st.api, ReleaseKind))
            else k !in s'.descs
  {
    if s.descs[k].spec.deployer.Helm? {
      HelmHandled(s, st, k);
      assert Unprotected(s.descs[k]) == None;
    } else {
      GenericHandled(s, st, k);
    }
  }

  lemma ReachThird(s: Store, st: Step, r: Ref, k: Key)
    requires Stage(3, s, r) && Calm(s, st) && Quiet(st) && st.event == OnDescription(k)
    ensures Goal(3, Next(s, st), r, k)
  {
    var s' := Next(s, st);
    StepQuiets(s, st, r);
    assert Reached(1, s, r) && Reached(2, s, r);
    if InTree(s', r, Get(s'.descs, k)) {
      DescBefore(s, s', r, k);
      DescDying(s, r, k);
      assert SoundDesc(k, Get(s.descs, k)) && Plain(Get(s.descs, k));
      DescriptionHandled(s, st, k);
      var d := RefOf(k, s.descs[k]);
      forall j | OwnedBy(Get(s'.releases, j), d) ensures s'.releases[j].deleting {
        assert OwnedBy(Get(s.releases, j), d) ==> j in Owned(s.releases, d);
      }
    }
  }

  lemma ReleaseHandled(s: Store, st: Step, k: Key)
    requires Calm(s, st) && st.event == OnRelease(k) && k in s.releases && s.releases[k].deleting
        && Plain(Get(s.releases, k))
    ensures k !in Next(s, st).releases
  {
  }

  lemma ReachFourth(s: Store, st: Step, r: Ref, k: Key)
    requires Stage(4, s, r) && Calm(s, st) && Quiet(st) && st.event == OnRelease(k)
    ensures Goal(4, Next(s, st), r, k)
  {
    var s' := Next(s, st);
    StepQuiets(s, st, r);
    assert Reached(1, s, r) && Reached(2, s, r) && Reached(3, s, r);
    if ReleaseInTree(s', r, Get(s'.releases, k)) {
      ReleaseBefore(s, s', r, k);
      var d := s.releases[k].owner.value;
      assert Goal(3, s, r, d.key);
      assert OwnedBy(Get(s.releases, k), d) && Plain(Get(s.releases, k));
      ReleaseHandled(s, st, k);
    }
  }

  lemma ReachFifth(s: Store, st: Step, r: Ref, k: Key)
    requires Stage(5, s, r) && Calm(s, st) && Quiet(st) && st.event == OnDescription(k)
    ensures Goal(5, Next(s, st), r, k)
  {
    var s' := Next(s, st);
    StepQuiets(s, st, r);
    assert Reached(1, s, r) && Reached(2, s, r) && Reached(4, s, r);
    if InTree(s', r, Get(s'.descs, k)) {
      DescBefore(s, s', r, k);
      DescDying(s, r, k);
      assert SoundDesc(k, Get(s.descs, k)) && Plain(Get(s.descs, k));
      forall j ensures j !in Owned(s.releases, RefOf(k, s.descs[k])) {
        assert Goal(4, s, r, j);
      }
      DescriptionHandled(s, st, k);
    }
  }

  lemma BaseHandled(s: Store, st: Step, r: Ref, k: Key)
    requires Calm(s, st) && st.event == OnBase(k) && OwnedBy(Get(s.bases, k), r) && s.bases[k].deleting
    requires Plain(Get(s.bases, k)) && Owned(s.descs, RefOf(k, s.bases[k])) == {}
    ensures k !in Next(s, st).bases
  {
  }

  lemma ReachSixth(s: Store, st: Step, r: Ref, k: Key)
    requires Stage(6, s, r) && Calm(s, st) && Quiet(st) && st.event == OnBase(k)
    ensures Goal(6, Next(s, st), r, k)
  {
    var s' := Next(s, st);
    StepQuiets(s, st, r);
    assert Reached(1, s, r) && Reached(5, s, r);
    if OwnedBy(Get(s'.bases, k), r) {
      BaseBefore(s, s', r, k);
      assert Goal(1, s, r, k) && Plain(Get(s.bases, k));
      forall j ensures j !in Owned(s.descs, RefOf(k, s.bases[k])) {
        assert Goal(5, s, r, j);
      }
      BaseHandled(s, st, r, k);
    }
  }

  lemma SubscriptionHandled(s: Store, st: Step, r: Ref)
    requires Calm(s, st) && st.event == OnSubscription(r.key) && !Gone(s.subs, r) && Dying(s.subs, r)
    requires Plain(Get(s.subs, r.key)) && Owned(s.bases, r) == {}
    ensures r.key !in Next(s, st).subs
  {
  }

  lemma ReachSeventh(s: Store, st: Step, r: Ref, k: Key)
    requires Stage(7, s, r) && Calm(s, st) && Quiet(st) && st.event == OnSubscription(r.key)
    ensures Goal(7, Next(s, st), r, k)
  {
    assert Reached(6, s, r);
    if Gone(s.subs, r) {
      StepQuiets(s, st, r);
      assert Ages(Get(s.subs, r.key), Get(Next(s, st).subs, r.key));
    } else {
      forall j ensures j !in Owned(s.bases, r) {
        assert Goal(6, s, r, j);
      }
      SubscriptionHandled(s, st, r);
    }
  }

  lemma Reach(n: nat, s: Store, st: Step, r: Ref, k: Key)
    requires 1 <= n <= 7 && Stage(n, s, r) && Calm(s, st) && Quiet(st) && st.event == HandlerFor(n, r, k)
    ensures Goal(n, Next(s, st), r, k)
  {
    if n == 1 {
      ReachFirst(s, st, r, k);
    } else if n == 2 {
      ReachSecond(s, st, r, k);
    } else if n == 3 {
      ReachThird(s, st, r, k);
    } else if n == 4 {
      ReachFourth(s, st, r, k);
    } else if n == 5 {
      ReachFifth(s, st, r, k);
    } else if n == 6 {
      ReachSixth(s, st, r, k);
    } else {
      ReachSeventh(s, st, r, k);
    }
  }

  // ---------------------------------------------------------------- phases and rounds

  /** Somewhere in the steps the event is handled, calmly. */
  ghost predicate Handled(s: Store, steps: seq<Step>, e: Event) {
    steps != [] &&
    var front, last := steps[..|steps| - 1], steps[|steps| - 1];
    Handled(s, front, e) || (last.event == e && Calm(Exec(s, front), last))
  }

  ghost predicate AllQuiet(steps: seq<Step>) {
    forall i :: 0 <= i < |steps| ==> Quiet(steps[i])
  }

  lemma GoalStays(n: nat, s: Store, s': Store, r: Ref, k: Key)
    requires 1 <= n <= 7 && Quieter(s, s', r) && Goal(n, s, r, k) && Stage(n, s, r)
    ensures Goal(n, s', r, k)
  {
    assert n >= 2 ==> Reached(1, s, r);
    assert n >= 3 ==> Reached(2, s, r);
    if n <= 3 {
      EarlyGoalStays(n, s, s', r, k);
    } else {
      LateGoalStays(n, s, s', r, k);
    }
  }

  lemma {:induction false} StageStaysInRun(n: nat, s: Store, steps: seq<Step>, r: Ref)
    requires n <= 8 && Stage(n, s, r) && AllQuiet(steps)
    ensures Stage(n, Exec(s, steps), r)
  {
    if steps != [] {
      StageStaysInRun(n, s, steps[..|steps| - 1], r);
      StageStays(n, Exec(s, steps[..|steps| - 1]), steps[|steps| - 1], r);
    }
  }

  lemma {:induction false} GoalReachedInRun(n: nat, s: Store, steps: seq<Step>, r: Ref, k: Key)
    requires 1 <= n <= 7 && Stage(n, s, r) && AllQuiet(steps)
    requires Goal(n, s, r, k) || Handled(s, steps, HandlerFor(n, r, k))
    ensures Goal(n, Exec(s, steps), r, k)
  {
    if steps != [] {
      var front, last := steps[..|steps| - 1], steps[|steps| - 1];
      var s1 := Exec(s, front);
      StageStaysInRun(n, s, front, r);
      if Goal(n, s, r, k) || Handled(s, front, HandlerFor(n, r, k)) {
        GoalReachedInRun(n, s, front, r, k);
        StepQuiets(s1, last, r);
        GoalStays(n, s1, Next(s1, last), r, k);
      } else {
        Reach(n, s1, last, r, k);
      }
    }
  }

  /** In these steps every object of the tree of one kind is handled at least once, in any order. */
  ghost predicate Phase(kind: Kind, s: Store, steps: seq<Step>, r: Ref) {
    && AllQuiet(steps)
    && match kind
       case SubscriptionKind => Handled(s, steps, OnSubscription(r.key))
       case BaseKind => forall k :: OwnedBy(Get(s.bases, k), r) ==> Handled(s, steps, OnBase(k))
       case DescriptionKind => forall k :: InTree(s, r, Get(s.descs, k)) ==> Handled(s, steps, OnDescription(k))
       case ReleaseKind => forall k :: ReleaseInTree(s, r, Get(s.releases, k)) ==> Handled(s, steps, OnRelease(k))
  }

  function KindOf(n: nat): Kind {
    if n == 1 || n == 7 then SubscriptionKind
    else if n == 2 || n == 6 then BaseKind
    else if n == 4 then ReleaseKind
    else DescriptionKind
  }

  lemma PhaseReaches(n: nat, s: Store, steps: seq<Step>, r: Ref)
    requires 1 <= n <= 7 && Stage(n, s, r) && Phase(KindOf(n), s, steps, r)
    ensures Stage(n + 1, Exec(s, steps), r)
  {
    StageStaysInRun(n, s, steps, r);
    forall k ensures Goal(n, Exec(s, steps), r, k) {
      GoalReachedInRun(n, s, steps, r, k);
    }
  }

  lemma PhaseKeeps(n: nat, kind: Kind, s: Store, steps: seq<Step>, r: Ref)
    requires n <= 8 && Stage(n, s, r) && Phase(kind, s, steps, r)
    ensures Stage(n, Exec(s, steps), r)
  {
    StageStaysInRun(n, s, steps, r);
  }

  /** A top-down round. */
  datatype Round = Round(subs: seq<Step>, bases: seq<Step>, descs: seq<Step>, releases: seq<Step>)

  function AfterSubs(s: Store, round: Round): Store {
    Exec(s, round.subs)
  }

  function AfterBases(s: Store, round: Round): Store {
    Exec(AfterSubs(s, round), round.bases)
  }

  function AfterDescs(s: Store, round: Round): Store {
    Exec(AfterBases(s, round), round.descs)
  }

  function AfterRound(s: Store, round: Round): Store {
    Exec(AfterDescs(s, round), round.releases)
  }

  ghost predicate TopDown(s: Store, round: Round, r: Ref) {
    && Phase(SubscriptionKind, s, round.subs, r)
    && Phase(BaseKind, AfterSubs(s, round), round.bases, r)
    && Phase(DescriptionKind, AfterBases(s, round), round.descs, r)
    && Phase(ReleaseKind, AfterDescs(s, round), round.releases, r)
  }

  lemma FirstRound(s: Store, a: Round, r: Ref)
    requires TearingDown(s, r) && TopDown(s, a, r)
    ensures Stage(5, AfterRound(s, a), r)
  {
    PhaseReaches(1, s, a.subs, r);
    PhaseReaches(2, AfterSubs(s, a), a.bases, r);
    PhaseReaches(3, AfterBases(s, a), a.descs, r);
    PhaseReaches(4, AfterDescs(s, a), a.releases, r);
  }

  lemma HalfOfSecond(s: Store, b: Round, r: Ref)
    requires Stage(5, s, r) && Phase(SubscriptionKind, s, b.subs, r) && Phase(BaseKind, AfterSubs(s, b), b.bases, r)
    ensures Stage(5, AfterBases(s, b), r)
  {
    PhaseKeeps(5, SubscriptionKind, s, b.subs, r);
    PhaseKeeps(5, BaseKind, AfterSubs(s, b), b.bases, r);
  }

  lemma OtherHalfOfSecond(s: Store, descs: seq<Step>, releases: seq<Step>, r: Ref)
    requires Stage(5, s, r) && Phase(DescriptionKind, s, descs, r) && Phase(ReleaseKind, Exec(s, descs), releases, r)
    ensures Stage(6, Exec(Exec(s, descs), releases), r)
  {
    PhaseReaches(5, s, descs, r);
    PhaseKeeps(6, ReleaseKind, Exec(s, descs), releases, r);
  }

  lemma SecondRound(s: Store, b: Round, r: Ref)
    requires Stage(5, s, r) && TopDown(s, b, r)
    ensures Stage(6, AfterRound(s, b), r)
  {
    HalfOfSecond(s, b, r);
    OtherHalfOfSecond(AfterBases(s, b), b.descs, b.releases, r);
  }

  lemma ThirdRound(s: Store, c: Round, r: Ref)
    requires Stage(6, s, r) && TopDown(s, c, r)
    ensures Stage(7, AfterRound(s, c), r)
  {
    PhaseKeeps(6, SubscriptionKind, s, c.subs, r);
    PhaseReaches(6, AfterSubs(s, c), c.bases, r);
    PhaseKeeps(7, DescriptionKind, AfterBases(s, c), c.descs, r);
    PhaseKeeps(7, ReleaseKind, AfterDescs(s, c), c.releases, r);
  }

  lemma FourthRound(s: Store, d: Round, r: Ref)
    requires Stage(7, s, r) && TopDown(s, d, r)
    ensures Stage(8, AfterRound(s, d), r)
  {
    PhaseReaches(7, s, d.subs, r);
    PhaseKeeps(8, BaseKind, AfterSubs(s, d), d.bases, r);
    PhaseKeeps(8, DescriptionKind, AfterBases(s, d), d.descs, r);
    PhaseKeeps(8, ReleaseKind, AfterDescs(s, d), d.releases, r);
  }

  /** The Base is in the store and does not belong to r. */
  ghost predicate Elsewhere(s: Store, r: Ref, b: Ref) {
    !Gone(s.bases, b) && b.key in s.bases && s.bases[b.key].owner != Some(r)
  }

  /** The Description belongs to a Base that is not of r. */
  ghost predicate DescElsewhere(s: Store, r: Ref, k: Key) {
    k in s.descs ==> s.descs[k].owner.Some? && Elsewhere(s, r, s.descs[k].owner.value)
  }

  /** The HelmRelease belongs to such a Description. */
  ghost predicate ReleaseElsewhere(s: Store, r: Ref, k: Key) {
    k in s.releases ==>
      s.releases[k].owner.Some? &&
      var d := s.releases[k].owner.value;
      d.key in s.descs && s.descs[d.key].born == d.born && DescElsewhere(s, r, d.key)
  }

  /**
   * The Subscription is gone, no Base carries its UID, and every Description and HelmRelease that is
   * left belongs to a Base in the store that is not of r. So each object of its tree is gone,
   * unless another Subscription with the name took its Base over before it was marked.
   */
  ghost predicate TornDown(s: Store, r: Ref) {
    && Gone(s.subs, r) && (forall k :: !OwnedBy(Get(s.bases, k), r)) && OrphanFree(s)
    && (forall k :: DescElsewhere(s, r, k)) && (forall k :: ReleaseElsewhere(s, r, k))
  }

  lemma LeftIsElsewhere(s: Store, r: Ref, k: Key)
    requires Inv(s) && forall j :: !OwnedBy(Get(s.bases, j), r)
    ensures DescElsewhere(s, r, k) && ReleaseElsewhere(s, r, k)
  {
    assert SoundRelease(Get(s.releases, k)) && AttachedAt(s.releases, s.descs, k);
    var j := if k in s.releases then s.releases[k].owner.value.key else k;
    forall i | i == k || i == j ensures DescElsewhere(s, r, i) {
      assert SoundDesc(i, Get(s.descs, i)) && AttachedAt(s.descs, s.bases, i);
      if i in s.descs {
        assert !OwnedBy(Get(s.bases, s.descs[i].owner.value.key), r);
      }
    }
  }

  lemma LastStageIsTornDown(s: Store, r: Ref)
    requires Stage(8, s, r)
    ensures TornDown(s, r)
  {
    assert Reached(6, s, r) && Reached(7, s, r);
    assert Goal(7, s, r, r.key);
    forall k ensures !OwnedBy(Get(s.bases, k), r) {
      assert Goal(6, s, r, k);
    }
    forall k ensures DescElsewhere(s, r, k) && ReleaseElsewhere(s, r, k) {
      LeftIsElsewhere(s, r, k);
    }
  }

  function AfterRounds(s: Store, rounds: seq<Round>): Store {
    if rounds == [] then s else AfterRound(AfterRounds(s, rounds[..|rounds| - 1]), rounds[|rounds| - 1])
  }

  ghost predicate AllTopDown(s: Store, rounds: seq<Round>, r: Ref) {
    rounds == [] ||
    var front, last := rounds[..|rounds| - 1], rounds[|rounds| - 1];
    AllTopDown(s, front, r) && TopDown(AfterRounds(s, front), last, r)
  }

  /** The stage after each of the first four rounds. */
  lemma {:induction false} RoundsReach(s: Store, r: Ref, rounds: seq<Round>)
    requires TearingDown(s, r) && 1 <= |rounds| <= 4 && AllTopDown(s, rounds, r)
    ensures Stage(4 + |rounds|, AfterRounds(s, rounds), r)
  {
    var front, last := rounds[..|rounds| - 1], rounds[|rounds| - 1];
    if |rounds| == 1 {
      FirstRound(s, last, r);
    } else {
      RoundsReach(s, r, front);
      var there := AfterRounds(s, front);
      if |rounds| == 2 {
        SecondRound(there, last, r);
      } else if |rounds| == 3 {
        ThirdRound(there, last, r);
      } else {
        FourthRound(there, last, r);
      }
    }
  }

  /**
   * Four top-down rounds of handlers remove a deleting Subscription and its whole tree, whatever
   * its size, the order within a phase, and what other quiet steps come in between.
   */
  lemma FourRoundsSuffice(s: Store, r: Ref, rounds: seq<Round>)
    requires TearingDown(s, r) && |rounds| == 4 && AllTopDown(s, rounds, r)
    ensures TornDown(AfterRounds(s, rounds), r)
  {
    RoundsReach(s, r, rounds);
    LastStageIsTornDown(AfterRounds(s, rounds), r);
  }
}
