/** What belongs to a deleting owner only wanes: every handler keeps it from getting more objects. */
module Teardown {
  import opened Collections
  import opened Feeds
  import opened Catalog
  import opened ObjectStore
  import opened Propagation

  // ---------------------------------------------------------------- objects of a deleting owner only wane

  ghost predicate OwnedBy<S>(o: Option<Obj<S>>, r: Ref) {
    o.Some? && o.value.owner == Some(r)
  }

  /** No object comes under r, one that stays under r only nears its end, and no foreign finalizer comes. */
  ghost predicate Wanes<S>(o: Option<Obj<S>>, after: Option<Obj<S>>, r: Ref) {
    && (OwnedBy(after, r) ==>
          && OwnedBy(o, r) && after.value.born == o.value.born && after.value.spec == o.value.spec
          && (o.value.deleting ==> after.value.deleting))
    && (Plain(o) ==> Plain(after))
  }

  /** Only the hub holds the object. */
  ghost predicate Plain<S>(o: Option<Obj<S>>) {
    o.Some? ==> o.value.finalizers <= {APP_FINALIZER}
  }

  ghost predicate AllWane<S>(m: Objects<S>, after: Objects<S>, r: Ref) {
    forall k :: Wanes(Get(m, k), Get(after, k), r)
  }

  ghost predicate AllPlain<S>(m: Objects<S>) {
    forall k :: Plain(Get(m, k))
  }

  lemma PreparedWanes<S>(api: Api, kind: Kind, key: Key, o: Obj<S>, r: Ref)
    ensures Protected(api, kind, key, o).Some? ==> Wanes(Some(o), Protected(api, kind, key, o), r)
    ensures Labelled(api, kind, key, o).Some? ==> Wanes(Some(o), Labelled(api, kind, key, o), r)
    ensures Wanes(Some(o), Unprotected(o), r)
  {
  }

  lemma MarkOneWanes<S>(k: Key, o: Option<Obj<S>>, q: Ref, api: Key -> bool, r: Ref)
    ensures Wanes(o, MarkOne(k, o, q, api), r)
  {
  }

  lemma MarkOwnedWanes<S>(m: Objects<S>, q: Ref, api: Key -> bool, r: Ref)
    ensures AllWane(m, MarkOwned(m, q, api), r)
  {
    forall k ensures Wanes(Get(m, k), Get(MarkOwned(m, q, api), k), r) {
      MarkOneWanes(k, Get(m, k), q, api, r);
    }
  }

  lemma BaseAfterWanes(cat: Catalog, api: Api, clock: nat, owner: Ref, spec: SubSpec, k: Key,
                       was: Option<Obj<seq<Feed>>>, r: Ref)
    requires owner != r
    ensures Wanes(was, BaseAfter(cat, api, clock, owner, spec, k, was), r)
  {
    BindingsSync(cat, api, clock, owner, spec.feeds, spec.bindings, k, was);
  }

  lemma DescAfterWanes(cat: Catalog, api: Api, clock: nat, owner: Ref, cluster: string, t: map<Key, DescSpec>, k: Key,
                       was: Option<Obj<DescSpec>>, r: Ref)
    requires owner != r
    ensures Wanes(was, DescAfter(cat, api, clock, owner, cluster, t, k, was), r)
  {
  }

  lemma {:induction false} SyncChartsWanes(cat: Catalog, api: Api, clock: nat, owner: Ref, cluster: string,
                                           charts: seq<Key>, k: Key, was: Option<Obj<ReleaseSpec>>, r: Ref)
    requires owner != r && forall c :: c in charts ==> c in cat.charts
    ensures Wanes(was, SyncCharts(cat, api, clock, owner, cluster, charts, k, was).obj, r)
  {
    if charts != [] {
      SyncChartsWanes(cat, api, clock, owner, cluster, charts[..|charts| - 1], k, was, r);
    }
  }

  lemma ReleaseAfterWanes(cat: Catalog, api: Api, clock: nat, owner: Ref, cluster: string, charts: seq<Key>,
                          complete: bool, k: Key, was: Option<Obj<ReleaseSpec>>, r: Ref)
    requires owner != r
    ensures Wanes(was, ReleaseAfter(cat, api, clock, owner, cluster, charts, complete, k, was), r)
  {
    if forall c :: c in charts ==> c in cat.charts {
      SyncChartsWanes(cat, api, clock, owner, cluster, charts, k, was, r);
    }
  }

  lemma WaneTwice<S>(a: Objects<S>, b: Objects<S>, c: Objects<S>, r: Ref)
    requires AllWane(a, b, r) && AllWane(b, c, r)
    ensures AllWane(a, c, r)
  {
  }

  lemma WaneSet<S>(m: Objects<S>, k: Key, o: Obj<S>, r: Ref)
    requires Wanes(Get(m, k), Some(o), r)
    ensures AllWane(m, m[k := o], r)
  {
  }

  /** The owner that r names is deleting, if it is still there. */
  ghost predicate Dying<S>(m: Objects<S>, r: Ref) {
    var o := Get(m, r.key);
    o.Some? && o.value.born == r.born ==> o.value.deleting
  }

  lemma WanePut<S>(m: Objects<S>, k: Key, o: Option<Obj<S>>, r: Ref)
    requires Wanes(Get(m, k), o, r)
    ensures AllWane(m, Put(m, k, o), r)
  {
  }

  lemma PopulateBasesWanes(cat: Catalog, api: Api, s: Store, owner: Ref, spec: SubSpec, r: Ref)
    requires owner != r
    ensures AllWane(s.bases, PopulateBases(cat, api, s, owner, spec).store.bases, r)
  {
    var bases := PopulateBases(cat, api, s, owner, spec).store.bases;
    forall k ensures Wanes(Get(s.bases, k), Get(bases, k), r) {
      BaseAfterWanes(cat, api, s.clock, owner, spec, k, Get(s.bases, k), r);
    }
  }

  lemma OffloadSubscriptionWanes(api: Api, s: Store, key: Key, r: Ref)
    requires key in s.subs
    ensures AllWane(s.bases, OffloadSubscription(api, s, key).store.bases, r)
  {
  }

  lemma HandleSubscriptionWanes(cat: Catalog, api: Api, s: Store, key: Key, r: Ref)
    requires Dying(s.subs, r)
    ensures AllWane(s.bases, HandleSubscription(cat, api, s, key).store.bases, r)
  {
    if key in s.subs {
      var sub := Protected(api, SubscriptionKind, key, s.subs[key]);
      if sub.Some? {
        var labelled := Labelled(api, SubscriptionKind, key, sub.value);
        if labelled.Some? {
          var s' := s.(subs := s.subs[key := labelled.value]);
          if labelled.value.deleting {
            OffloadSubscriptionWanes(api, s', key, r);
          } else {
            PopulateBasesWanes(cat, api, s', RefOf(key, labelled.value), labelled.value.spec, r);
          }
        }
      }
    }
  }

  lemma RenderedAt(cat: Catalog, api: Api, s: Store, key: Key, base: Obj<seq<Feed>>, k: Key)
    requires Gather(cat, base.spec).Gathered?
    ensures Get(PopulateDescriptions(cat, api, s, key, base).store.descs, k)
         == DescAfter(cat, api, s.clock, RefOf(key, base), base.cluster, Templates(key, Gather(cat, base.spec)), k,
                      Get(s.descs, k))
  {
  }

  lemma PopulateDescriptionsWanes(cat: Catalog, api: Api, s: Store, key: Key, base: Obj<seq<Feed>>, r: Ref)
    requires RefOf(key, base) != r
    ensures AllWane(s.descs, PopulateDescriptions(cat, api, s, key, base).store.descs, r)
  {
    var g, descs := Gather(cat, base.spec), PopulateDescriptions(cat, api, s, key, base).store.descs;
    if g.Gathered? {
      forall k ensures Wanes(Get(s.descs, k), Get(descs, k), r) {
        RenderedAt(cat, api, s, key, base, k);
        DescAfterWanes(cat, api, s.clock, RefOf(key, base), base.cluster, Templates(key, g), k, Get(s.descs, k), r);
      }
    }
  }

  lemma OffloadBaseWanes(api: Api, s: Store, key: Key, r: Ref)
    requires key in s.bases
    ensures AllWane(s.bases, OffloadBase(api, s, key).store.bases, r)
  {
  }

  lemma ProcessBaseWanes(cat: Catalog, api: Api, s: Store, key: Key, r: Ref)
    requires key in s.bases && (s.bases[key].deleting || RefOf(key, s.bases[key]) != r)
    ensures AllWane(s.descs, ProcessBase(cat, api, s, key).store.descs, r)
  {
    if s.bases[key].deleting {
      MarkOwnedWanes(s.descs, RefOf(key, s.bases[key]), Deletes(api, DescriptionKind), r);
    } else {
      PopulateDescriptionsWanes(cat, api, s, key, s.bases[key], r);
    }
  }

  /** The Bases of any owner wane when a Base is handled. */
  lemma HandleBaseWanesBases(cat: Catalog, api: Api, s: Store, key: Key, r: Ref)
    ensures AllWane(s.bases, HandleBase(cat, api, s, key).store.bases, r)
  {
    if key in s.bases {
      PreparedWanes(api, BaseKind, key, s.bases[key], r);
      var base := Protected(api, BaseKind, key, s.bases[key]);
      if base.Some? {
        WaneSet(s.bases, key, base.value, r);
        PreparedWanes(api, BaseKind, key, base.value, r);
        var labelled := Labelled(api, BaseKind, key, base.value);
        if labelled.Some? {
          WaneSet(s.bases, key, labelled.value, r);
          if labelled.value.deleting {
            var s' := s.(bases := s.bases[key := labelled.value]);
            OffloadBaseWanes(api, s', key, r);
            WaneTwice(s.bases, s'.bases, OffloadBase(api, s', key).store.bases, r);
          }
        }
      }
    }
  }

  /** The Descriptions of a deleting Base wane when a Base is handled. */
  lemma HandleBaseWanesDescs(cat: Catalog, api: Api, s: Store, key: Key, r: Ref)
    requires Dying(s.bases, r)
    ensures AllWane(s.descs, HandleBase(cat, api, s, key).store.descs, r)
  {
    if key in s.bases {
      var base := Protected(api, BaseKind, key, s.bases[key]);
      if base.Some? {
        var labelled := Labelled(api, BaseKind, key, base.value);
        if labelled.Some? {
          ProcessBaseWanes(cat, api, s.(bases := s.bases[key := labelled.value]), key, r);
        }
      }
    }
  }

  lemma PopulateReleasesWanes(cat: Catalog, api: Api, s: Store, owner: Ref, cluster: string, all: seq<Key>, r: Ref)
    requires owner != r
    ensures AllWane(s.releases, PopulateReleases(cat, api, s, owner, cluster, all).store.releases, r)
  {
    var releases := PopulateReleases(cat, api, s, owner, cluster, all).store.releases;
    var charts := all[..Known(cat, all)];
    forall k ensures Wanes(Get(s.releases, k), Get(releases, k), r) {
      ReleaseAfterWanes(cat, api, s.clock, owner, cluster, charts, |charts| == |all|, k, Get(s.releases, k), r);
    }
  }

  lemma HandleHelmWanesDescs(cat: Catalog, api: Api, s: Store, key: Key, r: Ref)
    requires key in s.descs
    ensures AllWane(s.descs, HandleHelm(cat, api, s, key).store.descs, r)
  {
  }

  lemma OffloadReleasesWanes(api: Api, s: Store, key: Key, r: Ref)
    requires key in s.descs
    ensures AllWane(s.releases, OffloadReleases(api, s, key).store.releases, r)
  {
    MarkOwnedWanes(s.releases, RefOf(key, s.descs[key]), Deletes(api, ReleaseKind), r);
  }

  lemma HandleHelmWanesReleases(cat: Catalog, api: Api, s: Store, key: Key, r: Ref)
    requires key in s.descs && Dying(s.descs, r)
    ensures AllWane(s.releases, HandleHelm(cat, api, s, key).store.releases, r)
  {
    var d := s.descs[key];
    if d.deleting {
      OffloadReleasesWanes(api, s, key, r);
    } else {
      PopulateReleasesWanes(cat, api, s, RefOf(key, d), d.cluster, d.spec.charts, r);
    }
  }

  lemma HandleGenericWanes(cat: Catalog, api: Api, s: Store, key: Key, r: Ref)
    requires key in s.descs
    ensures AllWane(s.descs, HandleGeneric(cat, api, s, key).store.descs, r)
  {
  }

  lemma HandleDescriptionWanesDescs(cat: Catalog, api: Api, s: Store, key: Key, r: Ref)
    ensures AllWane(s.descs, HandleDescription(cat, api, s, key).store.descs, r)
  {
    if key in s.descs {
      PreparedWanes(api, DescriptionKind, key, s.descs[key], r);
      var desc := Protected(api, DescriptionKind, key, s.descs[key]);
      if desc.Some? {
        WaneSet(s.descs, key, desc.value, r);
        var s' := s.(descs := s.descs[key := desc.value]);
        match desc.value.spec.deployer {
          case Helm =>
            HandleHelmWanesDescs(cat, api, s', key, r);
            WaneTwice(s.descs, s'.descs, HandleHelm(cat, api, s', key).store.descs, r);
          case Generic =>
            HandleGenericWanes(cat, api, s', key, r);
            WaneTwice(s.descs, s'.descs, HandleGeneric(cat, api, s', key).store.descs, r);
          case Other =>
        }
      }
    }
  }

  /** The HelmReleases of a deleting Description wane when a Description is handled. */
  lemma HandleDescriptionWanesReleases(cat: Catalog, api: Api, s: Store, key: Key, r: Ref)
    requires Dying(s.descs, r)
    ensures AllWane(s.releases, HandleDescription(cat, api, s, key).store.releases, r)
  {
    if key in s.descs {
      var desc := Protected(api, DescriptionKind, key, s.descs[key]);
      if desc.Some? && desc.value.spec.deployer.Helm? {
        HandleHelmWanesReleases(cat, api, s.(descs := s.descs[key := desc.value]), key, r);
      }
    }
  }

  lemma HandleReleaseWanes(cat: Catalog, api: Api, s: Store, key: Key, q: Ref)
    ensures AllWane(s.releases, HandleRelease(cat, api, s, key).store.releases, q)
  {
    if key in s.releases {
      PreparedWanes(api, ReleaseKind, key, s.releases[key], q);
      var hr := Protected(api, ReleaseKind, key, s.releases[key]);
      if hr.Some? {
        var m := s.releases[key := hr.value];
        WaneSet(s.releases, key, hr.value, q);
        PreparedWanes(api, ReleaseKind, key, hr.value, q);
        WanePut(m, key, Unprotected(hr.value), q);
        WaneTwice(s.releases, m, Put(m, key, Unprotected(hr.value)), q);
      }
    }
  }
}
