/**
 * No orphans: what carries the UID of a Subscription, Base or Description has that owner in the
 * store, with its finalizer.
 */
module NoOrphans {
  import opened Collections
  import opened Feeds
  import opened Catalog
  import opened ObjectStore
  import opened Propagation
  import opened Runs
  import Localizer

  ghost predicate Holds<P>(parents: Objects<P>, r: Ref) {
    var o := Get(parents, r.key);
    o.Some? && o.value.born == r.born && APP_FINALIZER in o.value.finalizers
  }

  ghost predicate AttachedAt<S, P>(m: Objects<S>, parents: Objects<P>, k: Key) {
    var o := Get(m, k);
    o.Some? && o.value.owner.Some? ==> Holds(parents, o.value.owner.value)
  }

  ghost predicate Attached<S, P>(m: Objects<S>, parents: Objects<P>) {
    forall k :: AttachedAt(m, parents, k)
  }

  ghost predicate OrphanFree(s: Store) {
    Attached(s.bases, s.subs) && Attached(s.descs, s.bases) && Attached(s.releases, s.descs)
  }

  predicate HelmNamed(k: Key) {
    |k.name| >= 5 && k.name[|k.name| - 5..] == "-helm"
  }

  /** The name of a Description tells its deployer, and every Description has an owner. */
  ghost predicate SoundDesc(k: Key, o: Option<Obj<DescSpec>>) {
    o.Some? ==> o.value.spec.deployer == DeployerOf(k) && o.value.owner.Some?
  }

  function DeployerOf(k: Key): Deployer {
    if HelmNamed(k) then Helm else Generic
  }

  ghost predicate SoundDescs(m: Objects<DescSpec>) {
    forall k :: SoundDesc(k, Get(m, k))
  }

  ghost predicate SoundRelease(o: Option<Obj<ReleaseSpec>>) {
    o.Some? ==> o.value.owner.Some? && HelmNamed(o.value.owner.value.key)
  }

  ghost predicate SoundReleases(m: Objects<ReleaseSpec>) {
    forall k :: SoundRelease(Get(m, k))
  }

  ghost predicate Inv(s: Store) {
    OrphanFree(s) && SoundDescs(s.descs) && SoundReleases(s.releases)
  }

  // ---------------------------------------------------------------- tame changes

  /** The object keeps its owner, or gets r, and keeps the finalizer if it has it. */
  ghost predicate Tame<S>(o: Option<Obj<S>>, after: Option<Obj<S>>, r: Option<Ref>) {
    && (after.Some? && after.value.owner.Some? ==>
          (o.Some? && o.value.owner == after.value.owner) || after.value.owner == r)
    && (o.Some? && APP_FINALIZER in o.value.finalizers ==>
          after.Some? && after.value.born == o.value.born && APP_FINALIZER in after.value.finalizers)
  }

  ghost predicate AllTame<S>(m: Objects<S>, after: Objects<S>, r: Option<Ref>) {
    forall k :: Tame(Get(m, k), Get(after, k), r)
  }

  lemma StillHolds<P>(parents: Objects<P>, after: Objects<P>, r: Option<Ref>, x: Ref)
    requires AllTame(parents, after, r) && Holds(parents, x)
    ensures Holds(after, x)
  {
  }

  lemma StayAttached<S, P>(m: Objects<S>, parents: Objects<P>, m': Objects<S>, parents': Objects<P>,
                           r: Option<Ref>, q: Option<Ref>)
    requires Attached(m, parents) && AllTame(m, m', r) && AllTame(parents, parents', q)
    requires r.Some? ==> Holds(parents, r.value) || Holds(parents', r.value)
    ensures Attached(m', parents')
  {
    forall k ensures AttachedAt(m', parents', k) {
      assert AttachedAt(m, parents, k) && Tame(Get(m, k), Get(m', k), r);
      var o := Get(m', k);
      if o.Some? && o.value.owner.Some? && Holds(parents, o.value.owner.value) {
        StillHolds(parents, parents', q, o.value.owner.value);
      }
    }
  }

  /** Only an owner without objects gives up its finalizer. */
  lemma ReleaseOwner<S, P>(m: Objects<S>, parents: Objects<P>, key: Key)
    requires key in parents && Attached(m, parents) && Owned(m, RefOf(key, parents[key])) == {}
    ensures Attached(m, Put(parents, key, Unprotected(parents[key])))
  {
    var r, after := RefOf(key, parents[key]), Put(parents, key, Unprotected(parents[key]));
    forall k ensures AttachedAt(m, after, k) {
      assert AttachedAt(m, parents, k);
      assert k !in Owned(m, r);
    }
  }

  lemma MarkOneTame<S>(k: Key, o: Option<Obj<S>>, r: Ref, api: Key -> bool)
    ensures Tame(o, MarkOne(k, o, r, api), None)
  {
  }

  lemma MarkOwnedTame<S>(m: Objects<S>, r: Ref, api: Key -> bool)
    ensures AllTame(m, MarkOwned(m, r, api), None)
  {
    forall k ensures Tame(Get(m, k), Get(MarkOwned(m, r, api), k), None) {
      MarkOneTame(k, Get(m, k), r, api);
    }
  }

  lemma PreparedTame<S>(api: Api, kind: Kind, key: Key, o: Obj<S>)
    ensures Protected(api, kind, key, o).Some? ==> Tame(Some(o), Protected(api, kind, key, o), None)
    ensures Labelled(api, kind, key, o).Some? ==> Tame(Some(o), Labelled(api, kind, key, o), None)
  {
  }

  lemma SetTame<S>(m: Objects<S>, k: Key, o: Obj<S>, r: Option<Ref>)
    requires Tame(Get(m, k), Some(o), r)
    ensures AllTame(m, m[k := o], r)
  {
  }

  // ---------------------------------------------------------------- Subscriptions

  lemma BaseAfterTame(cat: Catalog, api: Api, clock: nat, owner: Ref, spec: SubSpec, k: Key,
                      was: Option<Obj<seq<Feed>>>)
    ensures Tame(was, BaseAfter(cat, api, clock, owner, spec, k, was), Some(owner))
  {
    BindingsSync(cat, api, clock, owner, spec.feeds, spec.bindings, k, was);
  }

  lemma PopulateBasesKeeps(cat: Catalog, api: Api, s: Store, owner: Ref, spec: SubSpec)
    requires Inv(s) && Holds(s.subs, owner)
    ensures Inv(PopulateBases(cat, api, s, owner, spec).store)
  {
    var bases := PopulateBases(cat, api, s, owner, spec).store.bases;
    forall k ensures Tame(Get(s.bases, k), Get(bases, k), Some(owner)) {
      BaseAfterTame(cat, api, s.clock, owner, spec, k, Get(s.bases, k));
    }
    BasesChange(s, bases, Some(owner));
  }

  /** The Bases change tamely; Subscriptions, Descriptions and HelmReleases stay. */
  lemma BasesChange(s: Store, bases: Objects<seq<Feed>>, r: Option<Ref>)
    requires OrphanFree(s) && AllTame(s.bases, bases, r)
    requires r.Some? ==> Holds(s.subs, r.value)
    ensures Attached(bases, s.subs) && Attached(s.descs, bases)
  {
    assert AllTame(s.subs, s.subs, None) && AllTame(s.descs, s.descs, None);
    StayAttached(s.bases, s.subs, bases, s.subs, r, None);
    StayAttached(s.descs, s.bases, s.descs, bases, None, r);
  }

  lemma SubsChange(s: Store, subs: Objects<SubSpec>)
    requires OrphanFree(s) && AllTame(s.subs, subs, None)
    ensures Attached(s.bases, subs)
  {
    assert AllTame(s.bases, s.bases, None);
    StayAttached(s.bases, s.subs, s.bases, subs, None, None);
  }

  lemma OffloadSubscriptionKeeps(api: Api, s: Store, key: Key)
    requires Inv(s) && key in s.subs
    ensures Inv(OffloadSubscription(api, s, key).store)
  {
    var owner := RefOf(key, s.subs[key]);
    if Owned(s.bases, owner) != {} {
      var bases := MarkOwned(s.bases, owner, DeletesBases(api));
      MarkOwnedTame(s.bases, owner, DeletesBases(api));
      assert AllTame(s.bases, bases, None);
      BasesChange(s, bases, None);
    } else {
      ReleaseOwner(s.bases, s.subs, key);
    }
  }

  lemma HandleSubscriptionKeeps(cat: Catalog, api: Api, s: Store, key: Key)
    requires Inv(s)
    ensures Inv(HandleSubscription(cat, api, s, key).store)
  {
    if key in s.subs {
      var sub := Protected(api, SubscriptionKind, key, s.subs[key]);
      if sub.Some? {
        PreparedTame(api, SubscriptionKind, key, s.subs[key]);
        SetTame(s.subs, key, sub.value, None);
        SubsChange(s, s.subs[key := sub.value]);
        var labelled := Labelled(api, SubscriptionKind, key, sub.value);
        if labelled.Some? {
          SetTame(s.subs, key, labelled.value, None);
          SubsChange(s, s.subs[key := labelled.value]);
          var s' := s.(subs := s.subs[key := labelled.value]);
          if labelled.value.deleting {
            OffloadSubscriptionKeeps(api, s', key);
          } else {
            PopulateBasesKeeps(cat, api, s', RefOf(key, labelled.value), labelled.value.spec);
          }
        }
      }
    }
  }

  // ---------------------------------------------------------------- Bases

  lemma TemplatesSound(base: Key, g: Gathered)
    requires g.Gathered?
    ensures forall k :: k in Templates(base, g) ==>
              k in {HelmKey(base), GenericKey(base)} && Templates(base, g)[k].deployer == DeployerOf(k)
  {
    assert HelmKey(base).name[|base.name|..] == "-helm";
    var n := GenericKey(base).name;
    assert n[|n| - 1] == 'c';
    assert n[|n| - 5..][4] == 'c';
  }

  lemma DescAfterTame(cat: Catalog, api: Api, clock: nat, owner: Ref, cluster: string, t: map<Key, DescSpec>, k: Key,
                      was: Option<Obj<DescSpec>>)
    ensures var o := DescAfter(cat, api, clock, owner, cluster, t, k, was);
            && Tame(was, o, Some(owner))
            && (SoundDesc(k, was) && (k in t ==> t[k].deployer == DeployerOf(k)) ==> SoundDesc(k, o))
  {
  }

  /** The Descriptions change tamely, and their Bases and HelmReleases stay. */
  lemma DescsChange(s: Store, descs: Objects<DescSpec>, r: Option<Ref>)
    requires OrphanFree(s) && AllTame(s.descs, descs, r)
    requires r.Some? ==> Holds(s.bases, r.value)
    ensures Attached(descs, s.bases) && Attached(s.releases, descs)
  {
    assert AllTame(s.bases, s.bases, None) && AllTame(s.releases, s.releases, None);
    StayAttached(s.descs, s.bases, descs, s.bases, r, None);
    StayAttached(s.releases, s.descs, s.releases, descs, None, r);
  }

  /** Rendering keeps the invariant exactly because the Base still has its finalizer. */
  lemma PopulateDescriptionsKeeps(cat: Catalog, api: Api, s: Store, key: Key, base: Obj<seq<Feed>>)
    requires Inv(s) && Get(s.bases, key) == Some(base) && APP_FINALIZER in base.finalizers
    ensures Inv(PopulateDescriptions(cat, api, s, key, base).store)
  {
    var g := Gather(cat, base.spec);
    if g.Gathered? {
      var t, owner := Templates(key, g), RefOf(key, base);
      var descs := PopulateDescriptions(cat, api, s, key, base).store.descs;
      TemplatesSound(key, g);
      forall k ensures Tame(Get(s.descs, k), Get(descs, k), Some(owner)) && SoundDesc(k, Get(descs, k)) {
        assert SoundDesc(k, Get(s.descs, k));
        DescAfterTame(cat, api, s.clock, owner, base.cluster, t, k, Get(s.descs, k));
      }
      DescsChange(s, descs, Some(owner));
    }
  }

  lemma PutKeepsAttached<S, P>(m: Objects<S>, parents: Objects<P>, key: Key, o: Option<Obj<S>>)
    requires Attached(m, parents) && key in m && (o.Some? ==> o.value.owner == m[key].owner)
    ensures Attached(Put(m, key, o), parents)
  {
    forall k ensures AttachedAt(Put(m, key, o), parents, k) {
      assert AttachedAt(m, parents, k);
    }
  }

  lemma MarkedDescsStaySound(m: Objects<DescSpec>, r: Ref, api: Key -> bool)
    requires SoundDescs(m)
    ensures SoundDescs(MarkOwned(m, r, api))
  {
  }

  lemma OffloadBaseKeeps(api: Api, s: Store, key: Key)
    requires Inv(s) && key in s.bases
    ensures Inv(OffloadBase(api, s, key).store)
  {
    var owner := RefOf(key, s.bases[key]);
    if Owned(s.descs, owner) != {} {
      MarkOwnedTame(s.descs, owner, Deletes(api, DescriptionKind));
      MarkedDescsStaySound(s.descs, owner, Deletes(api, DescriptionKind));
      DescsChange(s, MarkOwned(s.descs, owner, Deletes(api, DescriptionKind)), None);
    } else {
      ReleaseOwner(s.descs, s.bases, key);
      PutKeepsAttached(s.bases, s.subs, key, Unprotected(s.bases[key]));
    }
  }

  lemma BaseSet(s: Store, key: Key, o: Obj<seq<Feed>>)
    requires Inv(s) && Tame(Get(s.bases, key), Some(o), None)
    ensures Inv(s.(bases := s.bases[key := o]))
  {
    SetTame(s.bases, key, o, None);
    BasesChange(s, s.bases[key := o], None);
  }

  lemma HandlePreparedBase(cat: Catalog, api: Api, s: Store, key: Key)
    requires Inv(s) && key in s.bases && (s.bases[key].deleting || APP_FINALIZER in s.bases[key].finalizers)
    ensures !s.bases[key].deleting ==> Inv(PopulateDescriptions(cat, api, s, key, s.bases[key]).store)
    ensures s.bases[key].deleting ==> Inv(OffloadBase(api, s, key).store)
  {
    if s.bases[key].deleting {
      OffloadBaseKeeps(api, s, key);
    } else {
      PopulateDescriptionsKeeps(cat, api, s, key, s.bases[key]);
    }
  }

  lemma HandleBaseKeeps(cat: Catalog, api: Api, s: Store, key: Key)
    requires Inv(s)
    ensures Inv(HandleBase(cat, api, s, key).store)
  {
    if key in s.bases {
      PreparedTame(api, BaseKind, key, s.bases[key]);
      var base := Protected(api, BaseKind, key, s.bases[key]);
      if base.Some? {
        BaseSet(s, key, base.value);
        var labelled := Labelled(api, BaseKind, key, base.value);
        if labelled.Some? {
          BaseSet(s, key, labelled.value);
          HandlePreparedBase(cat, api, s.(bases := s.bases[key := labelled.value]), key);
        }
      }
    }
  }

  // ---------------------------------------------------------------- Descriptions and HelmReleases

  lemma {:induction false} SyncChartsTame(cat: Catalog, api: Api, clock: nat, owner: Ref, cluster: string,
                                          charts: seq<Key>, k: Key, was: Option<Obj<ReleaseSpec>>)
    requires (forall c :: c in charts ==> c in cat.charts) && SoundRelease(was) && HelmNamed(owner.key)
    ensures var o := SyncCharts(cat, api, clock, owner, cluster, charts, k, was).obj;
            Tame(was, o, Some(owner)) && SoundRelease(o)
  {
    if charts != [] {
      SyncChartsTame(cat, api, clock, owner, cluster, charts[..|charts| - 1], k, was);
    }
  }

  lemma ReleaseAfterTame(cat: Catalog, api: Api, clock: nat, owner: Ref, cluster: string, charts: seq<Key>,
                         complete: bool, k: Key, was: Option<Obj<ReleaseSpec>>)
    requires SoundRelease(was) && HelmNamed(owner.key)
    ensures var o := ReleaseAfter(cat, api, clock, owner, cluster, charts, complete, k, was);
            Tame(was, o, Some(owner)) && SoundRelease(o)
  {
    if forall c :: c in charts ==> c in cat.charts {
      SyncChartsTame(cat, api, clock, owner, cluster, charts, k, was);
    }
  }

  lemma ReleasesChange(s: Store, releases: Objects<ReleaseSpec>, r: Option<Ref>)
    requires OrphanFree(s) && AllTame(s.releases, releases, r)
    requires r.Some? ==> Holds(s.descs, r.value)
    ensures Attached(releases, s.descs)
  {
    assert AllTame(s.descs, s.descs, None);
    StayAttached(s.releases, s.descs, releases, s.descs, r, None);
  }

  lemma PopulateReleasesKeeps(cat: Catalog, api: Api, s: Store, owner: Ref, cluster: string, all: seq<Key>)
    requires Inv(s) && Holds(s.descs, owner) && HelmNamed(owner.key)
    ensures Inv(PopulateReleases(cat, api, s, owner, cluster, all).store)
  {
    var releases := PopulateReleases(cat, api, s, owner, cluster, all).store.releases;
    var charts := all[..Known(cat, all)];
    forall k ensures Tame(Get(s.releases, k), Get(releases, k), Some(owner)) && SoundRelease(Get(releases, k)) {
      assert SoundRelease(Get(s.releases, k));
      ReleaseAfterTame(cat, api, s.clock, owner, cluster, charts, |charts| == |all|, k, Get(s.releases, k));
    }
    ReleasesChange(s, releases, Some(owner));
  }

  lemma MarkedReleasesStaySound(m: Objects<ReleaseSpec>, r: Ref, api: Key -> bool)
    requires SoundReleases(m)
    ensures SoundReleases(MarkOwned(m, r, api))
  {
  }

  /** A Description without HelmReleases may give up its finalizer. */
  lemma DescReleased(s: Store, key: Key)
    requires Inv(s) && key in s.descs && Owned(s.releases, RefOf(key, s.descs[key])) == {}
    ensures Inv(s.(descs := Put(s.descs, key, Unprotected(s.descs[key]))))
  {
    ReleaseOwner(s.releases, s.descs, key);
    PutKeepsAttached(s.descs, s.bases, key, Unprotected(s.descs[key]));
    assert SoundDesc(key, Get(s.descs, key));
  }

  lemma HandleHelmKeeps(cat: Catalog, api: Api, s: Store, key: Key)
    requires Inv(s) && key in s.descs && s.descs[key].spec.deployer.Helm?
    requires s.descs[key].deleting || APP_FINALIZER in s.descs[key].finalizers
    ensures Inv(HandleHelm(cat, api, s, key).store)
  {
    var d := s.descs[key];
    var owner := RefOf(key, d);
    assert SoundDesc(key, Get(s.descs, key));
    if !d.deleting {
      PopulateReleasesKeeps(cat, api, s, owner, d.cluster, d.spec.charts);
    } else if Owned(s.releases, owner) != {} {
      MarkOwnedTame(s.releases, owner, Deletes(api, ReleaseKind));
      MarkedReleasesStaySound(s.releases, owner, Deletes(api, ReleaseKind));
      ReleasesChange(s, MarkOwned(s.releases, owner, Deletes(api, ReleaseKind)), None);
    } else {
      DescReleased(s, key);
    }
  }

  /** The invariant speaks of the four kinds of objects only. */
  lemma ObjectsOnly(s: Store, s': Store)
    requires Inv(s) && s'.subs == s.subs && s'.bases == s.bases && s'.descs == s.descs && s'.releases == s.releases
    ensures Inv(s')
  {
  }

  lemma HandleGenericDescs(cat: Catalog, api: Api, s: Store, key: Key)
    requires key in s.descs
    ensures var s' := HandleGeneric(cat, api, s, key).store;
            && s'.subs == s.subs && s'.bases == s.bases && s'.releases == s.releases
            && (s'.descs == s.descs || s'.descs == Put(s.descs, key, Unprotected(s.descs[key])))
  {
  }

  lemma HandleGenericKeeps(cat: Catalog, api: Api, s: Store, key: Key)
    requires Inv(s) && key in s.descs && !s.descs[key].spec.deployer.Helm?
    ensures Inv(HandleGeneric(cat, api, s, key).store)
  {
    var owner := RefOf(key, s.descs[key]);
    assert SoundDesc(key, Get(s.descs, key));
    forall k ensures k !in Owned(s.releases, owner) {
      assert SoundRelease(Get(s.releases, k));
    }
    DescReleased(s, key);
    HandleGenericDescs(cat, api, s, key);
    var s' := HandleGeneric(cat, api, s, key).store;
    ObjectsOnly(s.(descs := s'.descs), s');
  }

  lemma HandleDescriptionKeeps(cat: Catalog, api: Api, s: Store, key: Key)
    requires Inv(s)
    ensures Inv(HandleDescription(cat, api, s, key).store)
  {
    if key in s.descs {
      assert SoundDesc(key, Get(s.descs, key));
      var desc := Protected(api, DescriptionKind, key, s.descs[key]);
      if desc.Some? {
        PreparedTame(api, DescriptionKind, key, s.descs[key]);
        SetTame(s.descs, key, desc.value, None);
        DescsChange(s, s.descs[key := desc.value], None);
        var s' := s.(descs := s.descs[key := desc.value]);
        match desc.value.spec.deployer {
          case Helm => HandleHelmKeeps(cat, api, s', key);
          case Generic => HandleGenericKeeps(cat, api, s', key);
          case Other =>
        }
      }
    }
  }

  lemma ReleasePut(s: Store, key: Key, o: Option<Obj<ReleaseSpec>>)
    requires Inv(s) && key in s.releases && (o.Some? ==> o.value.owner == s.releases[key].owner)
    ensures Inv(s.(releases := Put(s.releases, key, o)))
  {
    assert SoundRelease(Get(s.releases, key));
    PutKeepsAttached(s.releases, s.descs, key, o);
  }

  lemma HandleReleaseKeeps(cat: Catalog, api: Api, s: Store, key: Key)
    requires Inv(s)
    ensures Inv(HandleRelease(cat, api, s, key).store)
  {
    if key in s.releases {
      var hr := Protected(api, ReleaseKind, key, s.releases[key]);
      if hr.Some? {
        var s' := s.(releases := s.releases[key := hr.value]);
        ReleasePut(s, key, hr);
        assert Put(s.releases, key, hr) == s'.releases;
        ReleasePut(s', key, Unprotected(hr.value));
      }
    }
  }

  // ---------------------------------------------------------------- users and other controllers

  lemma ChangeTame<S>(m: Objects<S>, k: Key, change: Obj<S> -> Option<Obj<S>>)
    requires k in m ==> Tame(Some(m[k]), change(m[k]), None)
    ensures AllTame(m, Change(m, k, change), None)
  {
  }

  lemma DeletedKeeps(s: Store, kind: Kind, k: Key)
    requires Inv(s)
    ensures Inv(Deleted(s, kind, k))
  {
    var s' := Deleted(s, kind, k);
    match kind {
      case SubscriptionKind =>
        ChangeTame(s.subs, k, o => Marked(o));
        SubsChange(s, s'.subs);
      case BaseKind =>
        ChangeTame(s.bases, k, o => Marked(o));
        BasesChange(s, s'.bases, None);
      case DescriptionKind =>
        assert SoundDesc(k, Get(s.descs, k));
        ChangeTame(s.descs, k, o => Marked(o));
        DescsChange(s, s'.descs, None);
      case ReleaseKind =>
        assert SoundRelease(Get(s.releases, k));
        ChangeTame(s.releases, k, o => Marked(o));
        ReleasesChange(s, s'.releases, None);
    }
  }

  lemma HoldingKeeps(s: Store, kind: Kind, k: Key, f: string)
    requires Inv(s)
    ensures Inv(Holding(s, kind, k, f))
  {
    var s' := Holding(s, kind, k, f);
    match kind {
      case SubscriptionKind =>
        ChangeTame(s.subs, k, o => Held(o, f));
        SubsChange(s, s'.subs);
      case BaseKind =>
        ChangeTame(s.bases, k, o => Held(o, f));
        BasesChange(s, s'.bases, None);
      case DescriptionKind =>
        assert SoundDesc(k, Get(s.descs, k));
        ChangeTame(s.descs, k, o => Held(o, f));
        DescsChange(s, s'.descs, None);
      case ReleaseKind =>
        assert SoundRelease(Get(s.releases, k));
        ChangeTame(s.releases, k, o => Held(o, f));
        ReleasesChange(s, s'.releases, None);
    }
  }

  lemma FreedTame<S>(o: Obj<S>, f: string)
    ensures Tame(Some(o), Freed(o, f), None)
  {
    if APP_FINALIZER in o.finalizers && f != APP_FINALIZER {
      assert APP_FINALIZER in o.finalizers - {f};
    }
  }

  lemma FreeingKeeps(s: Store, kind: Kind, k: Key, f: string)
    requires Inv(s)
    ensures Inv(Freeing(s, kind, k, f))
  {
    var s' := Freeing(s, kind, k, f);
    match kind {
      case SubscriptionKind =>
        if k in s.subs {
          FreedTame(s.subs[k], f);
        }
        ChangeTame(s.subs, k, o => Freed(o, f));
        SubsChange(s, s'.subs);
      case BaseKind =>
        if k in s.bases {
          FreedTame(s.bases[k], f);
        }
        ChangeTame(s.bases, k, o => Freed(o, f));
        BasesChange(s, s'.bases, None);
      case DescriptionKind =>
        assert SoundDesc(k, Get(s.descs, k));
        if k in s.descs {
          FreedTame(s.descs[k], f);
        }
        ChangeTame(s.descs, k, o => Freed(o, f));
        DescsChange(s, s'.descs, None);
      case ReleaseKind =>
        assert SoundRelease(Get(s.releases, k));
        if k in s.releases {
          FreedTame(s.releases[k], f);
        }
        ChangeTame(s.releases, k, o => Freed(o, f));
        ReleasesChange(s, s'.releases, None);
    }
  }

  lemma NewBaseKeeps(s: Store, k: Key, o: Obj<seq<Feed>>)
    requires Inv(s) && o.owner.None?
    ensures Inv(s.(bases := Insert(s.bases, k, o)))
  {
    var bases := Insert(s.bases, k, o);
    assert AllTame(s.bases, bases, None);
    BasesChange(s, bases, None);
  }

  lemma UserSubsKeep(s: Store, subs: Objects<SubSpec>)
    requires Inv(s) && AllTame(s.subs, subs, None)
    ensures Inv(s.(subs := subs))
  {
    SubsChange(s, subs);
  }

  lemma HandlersKeep(s: Store, st: Step)
    requires Inv(s)
    requires st.event.OnSubscription? || st.event.OnBase? || st.event.OnDescription? || st.event.OnRelease?
    ensures Inv(Effect(s, st))
  {
    if st.event.OnSubscription? {
      HandleSubscriptionKeeps(st.cat, st.api, s, st.event.key);
    } else if st.event.OnBase? {
      HandleBaseKeeps(st.cat, st.api, s, st.event.key);
    } else if st.event.OnDescription? {
      HandleDescriptionKeeps(st.cat, st.api, s, st.event.key);
    } else {
      HandleReleaseKeeps(st.cat, st.api, s, st.event.key);
    }
  }

  lemma OthersKeep(s: Store, st: Step)
    requires Inv(s)
    requires st.event.NewSubscription? || st.event.EditSubscription? || st.event.NewBase? || st.event.DeleteObject?
          || st.event.HoldObject? || st.event.FreeObject?
    ensures Inv(Effect(s, st))
  {
    var e := st.event;
    if e.NewSubscription? {
      UserSubsKeep(s, Insert(s.subs, e.key, NewObject(s.clock, e.sub)));
    } else if e.EditSubscription? {
      UserSubsKeep(s, Effect(s, st).subs);
    } else if e.NewBase? {
      NewBaseKeeps(s, e.key, NewObject(s.clock, e.feeds));
    } else if e.DeleteObject? {
      DeletedKeeps(s, e.kind, e.key);
    } else if e.HoldObject? {
      HoldingKeeps(s, e.kind, e.key, e.finalizer);
    } else {
      FreeingKeeps(s, e.kind, e.key, e.finalizer);
    }
  }

  lemma PruneKeeps(api: Api, s: Store, p: Prune)
    requires Inv(s)
    ensures Inv(RunPrune(api, s, p).store)
  {
  }

  // ---------------------------------------------------------------- Bases held by another controller

  /** Syncing the Description at k creates or updates it. */
  predicate Writes(cat: Catalog, api: Api, template: DescSpec, k: Key, was: Option<Obj<DescSpec>>) {
    var r := Localizer.Render(cat, k.ns, template);
    r.Some? &&
    if was.None? then api(Create(DescriptionKind, k))
    else !was.value.deleting && was.value.spec != r.value && api(Update(DescriptionKind, k))
  }

  ghost predicate WritesAny(cat: Catalog, api: Api, s: Store, key: Key)
    requires key in s.bases
  {
    var g := Gather(cat, s.bases[key].spec);
    g.Gathered? && exists k :: k in Templates(key, g) && Writes(cat, api, Templates(key, g)[k], k, Get(s.descs, k))
  }

  /** A resync of a Base that has lost the hub's finalizer and whose rendering writes a Description. */
  ghost predicate HarmfulResync(cat: Catalog, api: Api, s: Store, key: Key) {
    && key in s.bases && s.bases[key].selfLabelled && APP_FINALIZER !in s.bases[key].finalizers
    && WritesAny(cat, api, s, key)
  }

  lemma DescAfterQuiet(cat: Catalog, api: Api, clock: nat, owner: Ref, cluster: string, t: map<Key, DescSpec>, k: Key,
                       was: Option<Obj<DescSpec>>)
    ensures var o := DescAfter(cat, api, clock, owner, cluster, t, k, was);
            if k in t && Writes(cat, api, t[k], k, was) then o.Some? && o.value.owner == Some(owner)
                else Tame(was, o, None)
  {
  }

  lemma WritingOrphans(cat: Catalog, api: Api, s: Store, key: Key, k: Key)
    requires key in s.bases && s.bases[key].selfLabelled && APP_FINALIZER !in s.bases[key].finalizers
    requires var g := Gather(cat, s.bases[key].spec);
             g.Gathered? && k in Templates(key, g) && Writes(cat, api, Templates(key, g)[k], k, Get(s.descs, k))
    ensures !AttachedAt(ResyncBase(cat, api, s, key).store.descs, s.bases, k)
  {
    var base := s.bases[key];
    DescAfterQuiet(cat, api, s.clock, RefOf(key, base), base.cluster, Templates(key, Gather(cat, base.spec)), k,
                   Get(s.descs, k));
  }

  lemma ResyncTame(cat: Catalog, api: Api, s: Store, key: Key)
    requires key in s.bases && s.bases[key].selfLabelled
    ensures var descs := ResyncBase(cat, api, s, key).store.descs;
            && AllTame(s.descs, descs, Some(RefOf(key, s.bases[key])))
            && (!WritesAny(cat, api, s, key) ==> AllTame(s.descs, descs, None))
  {
    var base := s.bases[key];
    var g, owner := Gather(cat, base.spec), RefOf(key, base);
    if g.Gathered? {
      var t, descs := Templates(key, g), ResyncBase(cat, api, s, key).store.descs;
      forall k ensures Tame(Get(s.descs, k), Get(descs, k), Some(owner)) {
        DescAfterTame(cat, api, s.clock, owner, base.cluster, t, k, Get(s.descs, k));
      }
      if !WritesAny(cat, api, s, key) {
        forall k ensures Tame(Get(s.descs, k), Get(descs, k), None) {
          DescAfterQuiet(cat, api, s.clock, owner, base.cluster, t, k, Get(s.descs, k));
        }
      }
    }
  }

  /**
   * A resync keeps the store free of orphans if and only if its Base still has the finalizer or it
   * writes no Description: resyncBase does not look at the deletion mark.
   */
  lemma ResyncOrphansIff(cat: Catalog, api: Api, s: Store, key: Key)
    requires OrphanFree(s) && key in s.bases && s.bases[key].selfLabelled
    ensures OrphanFree(ResyncBase(cat, api, s, key).store)
       <==> APP_FINALIZER in s.bases[key].finalizers || !WritesAny(cat, api, s, key)
  {
    var s', g := ResyncBase(cat, api, s, key).store, Gather(cat, s.bases[key].spec);
    if APP_FINALIZER in s.bases[key].finalizers || !WritesAny(cat, api, s, key) {
      ResyncTame(cat, api, s, key);
      var r := if WritesAny(cat, api, s, key) then Some(RefOf(key, s.bases[key])) else None;
      DescsChange(s, s'.descs, r);
    } else {
      var k :| k in Templates(key, g) && Writes(cat, api, Templates(key, g)[k], k, Get(s.descs, k));
      WritingOrphans(cat, api, s, key, k);
    }
  }

  lemma ResyncKeeps(cat: Catalog, api: Api, s: Store, key: Key)
    requires Inv(s) && !HarmfulResync(cat, api, s, key)
    ensures Inv(ResyncBase(cat, api, s, key).store)
  {
    if key in s.bases && s.bases[key].selfLabelled {
      if APP_FINALIZER in s.bases[key].finalizers {
        PopulateDescriptionsKeeps(cat, api, s, key, s.bases[key]);
      } else {
        ResyncOrphansIff(cat, api, s, key);
        UnwrittenStaySound(cat, api, s, key);
      }
    }
  }

  lemma UnwrittenStaySound(cat: Catalog, api: Api, s: Store, key: Key)
    requires SoundDescs(s.descs) && key in s.bases
    ensures SoundDescs(PopulateDescriptions(cat, api, s, key, s.bases[key]).store.descs)
  {
    var g, base := Gather(cat, s.bases[key].spec), s.bases[key];
    if g.Gathered? {
      TemplatesSound(key, g);
      var descs := PopulateDescriptions(cat, api, s, key, base).store.descs;
      forall k ensures SoundDesc(k, Get(descs, k)) {
        assert SoundDesc(k, Get(s.descs, k));
        DescAfterTame(cat, api, s.clock, RefOf(key, base), base.cluster, Templates(key, g), k, Get(s.descs, k));
      }
    }
  }

  // ---------------------------------------------------------------- all runs

  ghost predicate Harmful(s: Store, st: Step) {
    st.event.OnFeed? && HarmfulResync(st.cat, st.api, s, st.event.key)
  }

  lemma NextKeeps(s: Store, st: Step)
    requires Inv(s) && !Harmful(s, st)
    ensures Inv(Next(s, st))
  {
    if st.event.OnPrune? {
      PruneKeeps(st.api, s, st.event.prune);
    } else if st.event.ChildrenGone? {
      ObjectsOnly(s, Effect(s, st));
    } else if st.event.OnFeed? {
      ResyncKeeps(st.cat, st.api, s, st.event.key);
    } else if st.event.OnSubscription? || st.event.OnBase? || st.event.OnDescription? || st.event.OnRelease? {
      HandlersKeep(s, st);
    } else {
      OthersKeep(s, st);
    }
    ObjectsOnly(Effect(s, st), Next(s, st));
  }

  ghost predicate HarmfulAt(steps: seq<Step>, i: int) {
    0 <= i < |steps| && Harmful(Run(steps[..i]), steps[i])
  }

  lemma HarmlessPrefix(steps: seq<Step>, n: nat)
    requires n <= |steps| && forall i :: !HarmfulAt(steps, i)
    ensures forall i :: !HarmfulAt(steps[..n], i)
  {
    forall i ensures !HarmfulAt(steps[..n], i) {
      assert !HarmfulAt(steps, i);
      assert 0 <= i < n ==> steps[..n][..i] == steps[..i];
    }
  }

  lemma {:induction false} InvInHarmlessRun(steps: seq<Step>)
    requires forall i :: !HarmfulAt(steps, i)
    ensures Inv(Run(steps))
  {
    if steps != [] {
      var n := |steps| - 1;
      HarmlessPrefix(steps, n);
      InvInHarmlessRun(steps[..n]);
      assert !HarmfulAt(steps, n);
      NextKeeps(Run(steps[..n]), steps[n]);
    }
  }

  lemma HarmShows(steps: seq<Step>, i: nat)
    requires HarmfulAt(steps, i)
    ensures OrphanFree(Run(steps[..i])) ==> !OrphanFree(Run(steps[..i + 1]))
  {
    assert steps[..i + 1][..i] == steps[..i];
    if OrphanFree(Run(steps[..i])) {
      ResyncOrphansIff(steps[i].cat, steps[i].api, Run(steps[..i]), steps[i].event.key);
    }
  }

  /**
   * Through deletes, relabelling, foreign finalizers, resyncs and failed calls, a run is free of
   * orphans all along if and only if none of its resyncs is harmful.
   */
  lemma NoOrphansInAnyRun(steps: seq<Step>)
    ensures (forall i :: 0 <= i <= |steps| ==> OrphanFree(Run(steps[..i]))) <==> forall i :: !HarmfulAt(steps, i)
  {
    if forall i :: !HarmfulAt(steps, i) {
      forall i | 0 <= i <= |steps| ensures OrphanFree(Run(steps[..i])) {
        HarmlessPrefix(steps, i);
        InvInHarmlessRun(steps[..i]);
      }
    } else {
      var i :| HarmfulAt(steps, i);
      HarmShows(steps, i);
    }
  }

  // ---------------------------------------------------------------- when no other controller holds Bases

  /** A Base that is deleting or labelled with its own UID has the finalizer, and no other. */
  ghost predicate SoundBase(o: Option<Obj<seq<Feed>>>) {
    o.Some? ==>
      && o.value.finalizers <= {APP_FINALIZER}
      && (o.value.deleting || o.value.selfLabelled ==> APP_FINALIZER in o.value.finalizers)
  }

  ghost predicate SoundBases(m: Objects<seq<Feed>>) {
    forall k :: SoundBase(Get(m, k))
  }

  ghost predicate StaysSound(o: Option<Obj<seq<Feed>>>, after: Option<Obj<seq<Feed>>>) {
    SoundBase(o) ==> SoundBase(after)
  }

  lemma SoundBasesFollow(m: Objects<seq<Feed>>, after: Objects<seq<Feed>>)
    requires SoundBases(m) && forall k :: StaysSound(Get(m, k), Get(after, k))
    ensures SoundBases(after)
  {
  }

  lemma BaseAfterSound(cat: Catalog, api: Api, clock: nat, owner: Ref, spec: SubSpec, k: Key,
                       was: Option<Obj<seq<Feed>>>)
    ensures StaysSound(was, BaseAfter(cat, api, clock, owner, spec, k, was))
  {
    BindingsSync(cat, api, clock, owner, spec.feeds, spec.bindings, k, was);
  }

  lemma ProcessSubscriptionSound(cat: Catalog, api: Api, s: Store, key: Key)
    requires SoundBases(s.bases) && key in s.subs
    ensures SoundBases(ProcessSubscription(cat, api, s, key).store.bases)
  {
    var bases, owner := ProcessSubscription(cat, api, s, key).store.bases, RefOf(key, s.subs[key]);
    forall k ensures StaysSound(Get(s.bases, k), Get(bases, k)) {
      BaseAfterSound(cat, api, s.clock, owner, s.subs[key].spec, k, Get(s.bases, k));
    }
    SoundBasesFollow(s.bases, bases);
  }

  lemma HandleSubscriptionSound(cat: Catalog, api: Api, s: Store, key: Key)
    requires SoundBases(s.bases)
    ensures SoundBases(HandleSubscription(cat, api, s, key).store.bases)
  {
    if key in s.subs && Protected(api, SubscriptionKind, key, s.subs[key]).Some? {
      var labelled := Labelled(api, SubscriptionKind, key, Protected(api, SubscriptionKind, key, s.subs[key]).value);
      if labelled.Some? {
        ProcessSubscriptionSound(cat, api, s.(subs := s.subs[key := labelled.value]), key);
      }
    }
  }

  lemma PutSound(m: Objects<seq<Feed>>, key: Key, o: Option<Obj<seq<Feed>>>)
    requires SoundBases(m) && SoundBase(o)
    ensures SoundBases(Put(m, key, o))
  {
  }

  lemma ProcessBaseSound(cat: Catalog, api: Api, s: Store, key: Key)
    requires SoundBases(s.bases) && key in s.bases
    ensures SoundBases(ProcessBase(cat, api, s, key).store.bases)
  {
    assert SoundBase(Get(s.bases, key));
    if s.bases[key].deleting {
      assert s.bases[key].finalizers - {APP_FINALIZER} == {};
      PutSound(s.bases, key, None);
    }
  }

  lemma HandleBaseSound(cat: Catalog, api: Api, s: Store, key: Key)
    requires SoundBases(s.bases)
    ensures SoundBases(HandleBase(cat, api, s, key).store.bases)
  {
    if key in s.bases {
      assert SoundBase(Get(s.bases, key));
      var base := Protected(api, BaseKind, key, s.bases[key]);
      if base.Some? {
        PutSound(s.bases, key, base);
        var labelled := Labelled(api, BaseKind, key, base.value);
        if labelled.Some? {
          PutSound(s.bases, key, labelled);
          ProcessBaseSound(cat, api, s.(bases := Put(s.bases, key, labelled)), key);
        }
      }
    }
  }

  lemma ChangedSound(m: Objects<seq<Feed>>, k: Key, change: Obj<seq<Feed>> -> Option<Obj<seq<Feed>>>)
    requires SoundBases(m) && (k in m ==> StaysSound(Some(m[k]), change(m[k])))
    ensures SoundBases(Change(m, k, change))
  {
    SoundBasesFollow(m, Change(m, k, change));
  }

  lemma FreedSound(o: Obj<seq<Feed>>, f: string)
    ensures StaysSound(Some(o), Freed(o, f))
  {
  }

  lemma DeletedSound(s: Store, k: Key)
    requires SoundBases(s.bases)
    ensures SoundBases(Deleted(s, BaseKind, k).bases)
  {
    ChangedSound(s.bases, k, o => Marked(o));
  }

  lemma FreeingSound(s: Store, k: Key, f: string)
    requires SoundBases(s.bases)
    ensures SoundBases(Freeing(s, BaseKind, k, f).bases)
  {
    if k in s.bases {
      FreedSound(s.bases[k], f);
    }
    ChangedSound(s.bases, k, o => Freed(o, f));
  }

  lemma UserKeepsSound(s: Store, st: Step)
    requires SoundBases(s.bases) && !IsHandler(st.event) && !HoldsBase(st)
    ensures SoundBases(Effect(s, st).bases)
  {
    var e := st.event;
    if e.NewBase? {
      PutSound(s.bases, e.key, Some(NewObject(s.clock, e.feeds)));
    } else if e.DeleteObject? && e.kind.BaseKind? {
      DeletedSound(s, e.key);
    } else if e.FreeObject? && e.kind.BaseKind? {
      FreeingSound(s, e.key, e.finalizer);
    }
  }

  lemma SoundBasesStay(s: Store, st: Step)
    requires SoundBases(s.bases) && !HoldsBase(st)
    ensures SoundBases(Next(s, st).bases)
  {
    if st.event.OnSubscription? {
      HandleSubscriptionSound(st.cat, st.api, s, st.event.key);
    } else if st.event.OnBase? {
      HandleBaseSound(st.cat, st.api, s, st.event.key);
    } else if !IsHandler(st.event) {
      UserKeepsSound(s, st);
    }
  }

  lemma {:induction false} UnheldBasesSound(steps: seq<Step>)
    requires forall st :: st in steps ==> !HoldsBase(st)
    ensures SoundBases(Run(steps).bases)
  {
    if steps != [] {
      var n := |steps| - 1;
      forall st | st in steps[..n] ensures st in steps {
      }
      UnheldBasesSound(steps[..n]);
      assert steps[n] in steps;
      SoundBasesStay(Run(steps[..n]), steps[n]);
    }
  }

  /** In particular while no controller but the hub puts finalizers on Bases. */
  lemma NoOrphansWhileUnheld(steps: seq<Step>)
    requires forall st :: st in steps ==> !HoldsBase(st)
    ensures OrphanFree(Run(steps))
  {
    forall i ensures !HarmfulAt(steps, i) {
      if 0 <= i < |steps| && steps[i].event.OnFeed? {
        forall st | st in steps[..i] ensures st in steps {
        }
        UnheldBasesSound(steps[..i]);
        assert SoundBase(Get(Run(steps[..i]).bases, steps[i].event.key));
      }
    }
    InvInHarmlessRun(steps);
  }

  // ---------------------------------------------------------------- a run with a harmful step

  const BASE: Key := Key("ns", "base")
  const FEEDS: seq<Feed> := [Feed(Localizer.HELM_CHART, "v1alpha1", "ns", "chart")]
  const CHART: Key := Key("ns", "chart")

  function OneBase(clock: nat, deleting: bool, finalizers: set<string>, labelled: bool): Store {
    Store(clock, map[], map[BASE := ObjectStore.Obj.Obj(0, deleting, finalizers, None, "", labelled, FEEDS)],
          map[], map[], map[], multiset{}, {})
  }

  /** A catalog with one chart that was found. */
  function OneChart(libs: Libraries): Catalog {
    Snapshot(map[CHART := Chart("uid", ChartFound, "")], [], [], [], map[], map[], libs)
  }

  /** A Base is made, handled, held by another controller, deleted and handled again. */
  function HeldRun(cat: Catalog): seq<Step> {
    [Step(NewBase(BASE, FEEDS), cat, _ => true),
     Step(OnBase(BASE), cat, (c: Call) => !c.LabelFeeds?),
     Step(HoldObject(BaseKind, BASE, "other"), cat, _ => true),
     Step(DeleteObject(BaseKind, BASE), cat, _ => true),
     Step(OnBase(BASE), cat, _ => true)]
  }

  lemma HeldRunStarts(cat: Catalog)
    ensures Next(EMPTY_STORE, HeldRun(cat)[0]) == OneBase(1, false, {}, false)
    ensures Next(OneBase(1, false, {}, false), HeldRun(cat)[1]) == OneBase(2, false, {APP_FINALIZER}, true)
  {
    var s := OneBase(1, false, {}, false);
    var o := s.bases[BASE].(finalizers := {APP_FINALIZER}, selfLabelled := true);
    assert {} + {APP_FINALIZER} == {APP_FINALIZER};
    assert s.bases[BASE := o] == OneBase(2, false, {APP_FINALIZER}, true).bases;
  }

  lemma HeldRunHolds(cat: Catalog)
    ensures Next(OneBase(2, false, {APP_FINALIZER}, true), HeldRun(cat)[2])
       == OneBase(3, false, {APP_FINALIZER, "other"}, true)
    ensures Next(OneBase(3, false, {APP_FINALIZER, "other"}, true), HeldRun(cat)[3])
         == OneBase(4, true, {APP_FINALIZER, "other"}, true)
  {
    var s := OneBase(2, false, {APP_FINALIZER}, true);
    var held := s.bases[BASE].(finalizers := {APP_FINALIZER, "other"});
    assert {APP_FINALIZER} + {"other"} == {APP_FINALIZER, "other"} != {};
    assert s.bases[BASE := held] == OneBase(3, false, {APP_FINALIZER, "other"}, true).bases;
    var marked := held.(deleting := true);
    assert s.bases[BASE := held][BASE := marked] == OneBase(4, true, {APP_FINALIZER, "other"}, true).bases;
  }

  lemma HeldRunReleases(cat: Catalog)
    ensures Next(OneBase(4, true, {APP_FINALIZER, "other"}, true), HeldRun(cat)[4]) == OneBase(5, true, {"other"}, true)
  {
    var s := OneBase(4, true, {APP_FINALIZER, "other"}, true);
    assert Owned(s.descs, Ref(BASE, 0)) == {};
    assert {APP_FINALIZER, "other"} - {APP_FINALIZER} == {"other"} != {};
    assert s.bases[BASE := s.bases[BASE]] == s.bases;
    assert s.bases[BASE := s.bases[BASE].(finalizers := {"other"})] == OneBase(5, true, {"other"}, true).bases;
  }

  lemma HeldRunEnds(cat: Catalog)
    ensures Run(HeldRun(cat)) == OneBase(5, true, {"other"}, true)
  {
    HeldRunStarts(cat);
    HeldRunHolds(cat);
    HeldRunReleases(cat);
    var r := HeldRun(cat);
    assert r[..0] == [] && r[..5] == r;
    RunPrefix(r, 0);
    RunPrefix(r, 1);
    RunPrefix(r, 2);
    RunPrefix(r, 3);
    RunPrefix(r, 4);
  }

  lemma OneChartGathers(libs: Libraries)
    ensures Gather(OneChart(libs), FEEDS) == Gathered([CHART], [])
  {
  }

  lemma OneChartRenders(libs: Libraries)
    ensures Localizer.Render(OneChart(libs), "ns", HelmTemplate([CHART])).Some?
  {
  }

  function ResyncStep(cat: Catalog): Step {
    Step(OnFeed(BASE), cat, _ => true)
  }

  lemma HeldBaseResync(libs: Libraries)
    ensures !OrphanFree(Next(OneBase(5, true, {"other"}, true), ResyncStep(OneChart(libs))))
  {
    var s, st := OneBase(5, true, {"other"}, true), ResyncStep(OneChart(libs));
    OneChartGathers(libs);
    OneChartRenders(libs);
    WritingOrphans(st.cat, st.api, s, BASE, HelmKey(BASE));
  }

  /** Harmful steps can be reached: after this run a resync of the held Base makes an orphan. */
  lemma HeldBaseOrphans(libs: Libraries)
    ensures var cat := OneChart(libs);
            !OrphanFree(Run(HeldRun(cat) + [ResyncStep(cat)]))
  {
    HeldRunEnds(OneChart(libs));
    RunSnoc(HeldRun(OneChart(libs)), ResyncStep(OneChart(libs)));
    HeldBaseResync(libs);
  }
}
