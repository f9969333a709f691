/**
 * Leaks: what the hub applied in a child cluster is in the Raw of a Description that still has the
 * finalizer, or waits in a started prune, or was abandoned with a lost cluster; and when it is not.
 */
module NoLeaks {
  import opened Collections
  import opened Json
  import opened Feeds
  import opened Catalog
  import opened ObjectStore
  import opened Propagation
  import opened Runs
  import opened NoOrphans
  import Localizer

  /** The Description will remove the object before it goes. */
  ghost predicate Covers(o: Option<Obj<DescSpec>>, id: ObjId) {
    o.Some? && APP_FINALIZER in o.value.finalizers && !o.value.spec.deployer.Helm? && id in Ids(o.value.spec.raw)
  }

  ghost predicate CoveredAt(s: Store, ns: string, id: ObjId, k: Key) {
    k.ns == ns && Covers(Get(s.descs, k), id)
  }

  ghost predicate PrunedBy(p: Prune, ns: string, id: ObjId) {
    p.ns == ns && !p.desired.deployer.Helm? && id in PruneIds(p)
  }

  ghost predicate Tracked(s: Store, ns: string, id: ObjId) {
    || (exists k :: CoveredAt(s, ns, id, k))
    || (exists p :: p in s.prunes && PrunedBy(p, ns, id))
    || (ns, id) in s.abandoned
  }

  ghost predicate LeakFree(s: Store) {
    forall ns, id :: id in ChildrenOf(s, ns) ==> Acceptable(id) && Tracked(s, ns, id)
  }

  ghost predicate SafeAt(s: Store, ns: string, id: ObjId) {
    id in ChildrenOf(s, ns) ==> Acceptable(id) && Tracked(s, ns, id)
  }

  lemma LeakFreeIff(s: Store)
    ensures LeakFree(s) <==> forall ns, id :: SafeAt(s, ns, id)
  {
    if forall ns, id :: SafeAt(s, ns, id) {
      forall ns, id | id in ChildrenOf(s, ns) ensures Acceptable(id) && Tracked(s, ns, id) {
        assert SafeAt(s, ns, id);
      }
    }
  }

  ghost predicate LeakInv(s: Store) {
    LeakFree(s) && SoundDescs(s.descs)
  }

  // ---------------------------------------------------------------- steps that apply nothing

  /** What the Description covers stays covered. */
  ghost predicate CoverStep(k: Key, o: Option<Obj<DescSpec>>, after: Option<Obj<DescSpec>>) {
    (SoundDesc(k, o) ==> SoundDesc(k, after)) && forall id :: Covers(o, id) ==> Covers(after, id)
  }

  ghost predicate CoversKept(s: Store, s': Store) {
    forall k :: CoverStep(k, Get(s.descs, k), Get(s'.descs, k))
  }

  ghost predicate ChildrenShrink(s: Store, s': Store) {
    forall ns :: ChildrenOf(s', ns) <= ChildrenOf(s, ns)
  }

  lemma TrackedStays(s: Store, s': Store, ns: string, id: ObjId)
    requires CoversKept(s, s') && s.prunes <= s'.prunes && s.abandoned <= s'.abandoned && Tracked(s, ns, id)
    ensures Tracked(s', ns, id)
  {
    if k :| CoveredAt(s, ns, id, k) {
      assert CoverStep(k, Get(s.descs, k), Get(s'.descs, k));
      assert CoveredAt(s', ns, id, k);
    }
  }

  lemma SoundStays(s: Store, s': Store)
    requires SoundDescs(s.descs) && CoversKept(s, s')
    ensures SoundDescs(s'.descs)
  {
  }

  lemma NothingApplied(s: Store, s': Store)
    requires LeakInv(s) && CoversKept(s, s') && ChildrenShrink(s, s')
    requires s.prunes <= s'.prunes && s.abandoned <= s'.abandoned
    ensures LeakInv(s')
  {
    SoundStays(s, s');
    forall ns, id | id in ChildrenOf(s', ns) ensures Acceptable(id) && Tracked(s', ns, id) {
      assert id in ChildrenOf(s, ns);
      TrackedStays(s, s', ns, id);
    }
  }

  lemma DescsAlone(s: Store, s': Store)
    requires LeakInv(s) && CoversKept(s, s')
    requires s'.children == s.children && s'.prunes == s.prunes && s'.abandoned == s.abandoned
    ensures LeakInv(s')
  {
    NothingApplied(s, s');
  }

  lemma SameDescs(s: Store, s': Store)
    requires LeakInv(s) && s'.descs == s.descs
    requires s'.children == s.children && s'.prunes == s.prunes && s'.abandoned == s.abandoned
    ensures LeakInv(s')
  {
    DescsAlone(s, s');
  }

  lemma SameLeaks(s: Store, s': Store)
    requires SoundDescs(s.descs) && s'.descs == s.descs
    requires s'.children == s.children && s'.prunes == s.prunes && s'.abandoned == s.abandoned
    ensures LeakFree(s') <==> LeakFree(s)
  {
    if LeakFree(s) {
      SameDescs(s, s');
    }
    if LeakFree(s') {
      SameDescs(s', s);
    }
  }

  // ---------------------------------------------------------------- rendering: what a Description drops

  /** A desired object of another group prints like this one. */
  ghost predicate Masks(desired: seq<Raw>, id: ObjId) {
    exists d :: d in Ids(desired) && SameButGroup(d, id) && d.group != id.group
  }

  /** The update of the Description at k takes the object out of its Raw. */
  ghost predicate Drops(cat: Catalog, api: Api, template: DescSpec, k: Key, was: Option<Obj<DescSpec>>, id: ObjId) {
    Covers(was, id) && Writes(cat, api, template, k, was) && id !in Ids(Localizer.Render(cat, k.ns, template).value.raw)
  }

  lemma DropsIff(cat: Catalog, api: Api, clock: nat, owner: Ref, cluster: string, t: map<Key, DescSpec>, k: Key,
                 was: Option<Obj<DescSpec>>, id: ObjId)
    requires SoundDesc(k, was) && (k in t ==> t[k].deployer == DeployerOf(k)) && Covers(was, id)
    ensures !Covers(DescAfter(cat, api, clock, owner, cluster, t, k, was), id)
       <==> k in t && Drops(cat, api, t[k], k, was, id)
  {
  }

  /** A dropped object is in the started prune if and only if no desired object of another group prints like it. */
  lemma DroppedIsPrunedIff(cat: Catalog, api: Api, t: map<Key, DescSpec>, k: Key, was: Option<Obj<DescSpec>>, id: ObjId)
    requires SoundDesc(k, was) && k in t && t[k].deployer == DeployerOf(k)
    requires Drops(cat, api, t[k], k, was, id) && Acceptable(id)
    ensures (exists p :: p in PruneFor(cat, t, k, was) && PrunedBy(p, k.ns, id))
       <==> !Masks(Localizer.Render(cat, k.ns, t[k]).value.raw, id)
  {
    var r := Localizer.Render(cat, k.ns, t[k]).value;
    var p := Prune(k.ns, was.value.spec, r);
    assert PruneFor(cat, t, k, was) == multiset{p};
    forall d | d in Ids(r.raw) ensures ResourceName(d) == ResourceName(id)
        <==> SameButGroup(d, id) && d.group != id.group {
      ResourceNamesEqual(id, d);
    }
    assert PrunedBy(p, k.ns, id) <==> id in PruneIds(p);
  }

  /** The Description at k is all that tracks the object. */
  ghost predicate OnlyCover(s: Store, k: Key, id: ObjId) {
    && (forall j :: j != k ==> !CoveredAt(s, k.ns, id, j))
    && (forall p :: p in s.prunes ==> !PrunedBy(p, k.ns, id))
    && (k.ns, id) !in s.abandoned
  }

  /**
   * Rendering these feeds for the Base loses the object: it is in the child, only the Base's generic
   * Description tracks it, and that drops it for one of another group that prints like it.
   */
  ghost predicate Loses(cat: Catalog, api: Api, s: Store, key: Key, feeds: seq<Feed>, id: ObjId) {
    var g, k := Gather(cat, feeds), GenericKey(key);
    && g.Gathered? && k in Templates(key, g) && id in ChildrenOf(s, key.ns) && OnlyCover(s, k, id)
    && Drops(cat, api, Templates(key, g)[k], k, Get(s.descs, k), id)
    && Masks(Localizer.Render(cat, k.ns, Templates(key, g)[k]).value.raw, id)
  }

  ghost predicate LosesAny(cat: Catalog, api: Api, s: Store, key: Key, feeds: seq<Feed>) {
    exists id :: Loses(cat, api, s, key, feeds, id)
  }

  /** The prunes that rendering starts. */
  function Started(cat: Catalog, s: Store, key: Key, g: Gathered): multiset<Prune>
    requires g.Gathered?
  {
    PruneFor(cat, Templates(key, g), HelmKey(key), Get(s.descs, HelmKey(key)))
    + PruneFor(cat, Templates(key, g), GenericKey(key), Get(s.descs, GenericKey(key)))
  }

  ghost predicate PopulatedAt(cat: Catalog, api: Api, s: Store, key: Key, base: Obj<seq<Feed>>, s': Store, k: Key)
    requires Gather(cat, base.spec).Gathered?
  {
    var t := Templates(key, Gather(cat, base.spec));
    && Get(s'.descs, k) == DescAfter(cat, api, s.clock, RefOf(key, base), base.cluster, t, k, Get(s.descs, k))
    && (k in t ==> k in {HelmKey(key), GenericKey(key)} && t[k].deployer == DeployerOf(k))
  }

  /** What rendering does, key by key. */
  ghost predicate Populated(cat: Catalog, api: Api, s: Store, key: Key, base: Obj<seq<Feed>>, s': Store) {
    && Gather(cat, base.spec).Gathered?
    && s'.children == s.children && s'.abandoned == s.abandoned
    && s'.prunes == s.prunes + Started(cat, s, key, Gather(cat, base.spec))
    && forall k :: PopulatedAt(cat, api, s, key, base, s', k)
  }

  lemma PopulateIsPopulated(cat: Catalog, api: Api, s: Store, key: Key, base: Obj<seq<Feed>>)
    requires Gather(cat, base.spec).Gathered?
    ensures Populated(cat, api, s, key, base, PopulateDescriptions(cat, api, s, key, base).store)
  {
    TemplatesSound(key, Gather(cat, base.spec));
    forall k ensures PopulatedAt(cat, api, s, key, base, PopulateDescriptions(cat, api, s, key, base).store, k) {
    }
  }

  lemma PopulatedStaysSound(cat: Catalog, api: Api, s: Store, key: Key, base: Obj<seq<Feed>>, s': Store)
    requires SoundDescs(s.descs) && Populated(cat, api, s, key, base, s')
    ensures SoundDescs(s'.descs)
  {
    var t := Templates(key, Gather(cat, base.spec));
    forall k ensures SoundDesc(k, Get(s'.descs, k)) {
      assert SoundDesc(k, Get(s.descs, k)) && PopulatedAt(cat, api, s, key, base, s', k);
      DescAfterTame(cat, api, s.clock, RefOf(key, base), base.cluster, t, k, Get(s.descs, k));
    }
  }

  lemma HelmDoesNotCover(key: Key, o: Option<Obj<DescSpec>>, id: ObjId)
    requires SoundDesc(HelmKey(key), o)
    ensures !Covers(o, id)
  {
    assert HelmKey(key).name[|key.name|..] == "-helm";
  }

  /** Only the generic Description of the Base may cease to cover an object. */
  lemma OthersStillCover(cat: Catalog, api: Api, s: Store, key: Key, base: Obj<seq<Feed>>, s': Store, k: Key, id: ObjId)
    requires SoundDescs(s.descs) && Populated(cat, api, s, key, base, s') && k != GenericKey(key)
    ensures Covers(Get(s'.descs, k), id) <==> Covers(Get(s.descs, k), id)
  {
    var t, was := Templates(key, Gather(cat, base.spec)), Get(s.descs, k);
    assert PopulatedAt(cat, api, s, key, base, s', k);
    if k == HelmKey(key) {
      PopulatedStaysSound(cat, api, s, key, base, s');
      assert SoundDesc(k, was) && SoundDesc(k, Get(s'.descs, k));
      HelmDoesNotCover(key, was, id);
      HelmDoesNotCover(key, Get(s'.descs, k), id);
    } else {
      assert k !in t && Get(s'.descs, k) == MarkOne(k, was, RefOf(key, base), Deletes(api, DescriptionKind));
    }
  }

  lemma HelmPrunesNothing(cat: Catalog, t: map<Key, DescSpec>, key: Key, was: Option<Obj<DescSpec>>, ns: string,
                          id: ObjId)
    requires HelmKey(key) in t ==> t[HelmKey(key)].deployer.Helm?
    ensures forall p :: p in PruneFor(cat, t, HelmKey(key), was) ==> !PrunedBy(p, ns, id)
  {
  }

  lemma KeptUnlessLost(cat: Catalog, api: Api, s: Store, key: Key, base: Obj<seq<Feed>>, s': Store, ns: string,
                       id: ObjId)
    requires LeakInv(s) && Populated(cat, api, s, key, base, s') && id in ChildrenOf(s, ns)
    requires ns == key.ns ==> !Loses(cat, api, s, key, base.spec, id)
    ensures SafeAt(s', ns, id)
  {
    assert Acceptable(id) && Tracked(s, ns, id);
    var t, k := Templates(key, Gather(cat, base.spec)), GenericKey(key);
    if j :| j != k && CoveredAt(s, ns, id, j) {
      OthersStillCover(cat, api, s, key, base, s', j, id);
      assert CoveredAt(s', ns, id, j);
    } else if p :| p in s.prunes && PrunedBy(p, ns, id) {
      assert p in s'.prunes;
    } else if (ns, id) !in s.abandoned {
      assert CoveredAt(s, ns, id, k) && SoundDesc(k, Get(s.descs, k)) && OnlyCover(s, k, id);
      assert PopulatedAt(cat, api, s, key, base, s', k);
      DropsIff(cat, api, s.clock, RefOf(key, base), base.cluster, t, k, Get(s.descs, k), id);
      if Covers(Get(s'.descs, k), id) {
        assert CoveredAt(s', ns, id, k);
      } else {
        DroppedIsPrunedIff(cat, api, t, k, Get(s.descs, k), id);
        var p :| p in PruneFor(cat, t, k, Get(s.descs, k)) && PrunedBy(p, k.ns, id);
        assert p in s'.prunes;
      }
    }
  }

  lemma LostIsUncovered(cat: Catalog, api: Api, s: Store, key: Key, base: Obj<seq<Feed>>, s': Store, id: ObjId, j: Key)
    requires SoundDescs(s.descs) && Populated(cat, api, s, key, base, s') && Loses(cat, api, s, key, base.spec, id)
    ensures !CoveredAt(s', key.ns, id, j)
  {
    var t, k := Templates(key, Gather(cat, base.spec)), GenericKey(key);
    if j == k {
      assert SoundDesc(k, Get(s.descs, k)) && PopulatedAt(cat, api, s, key, base, s', k);
      DropsIff(cat, api, s.clock, RefOf(key, base), base.cluster, t, k, Get(s.descs, k), id);
    } else {
      assert !CoveredAt(s, key.ns, id, j);
      OthersStillCover(cat, api, s, key, base, s', j, id);
    }
  }

  lemma MaskedIsUnpruned(cat: Catalog, t: map<Key, DescSpec>, k: Key, was: Option<Obj<DescSpec>>, id: ObjId, p: Prune)
    requires k in t && p in PruneFor(cat, t, k, was) && Acceptable(id)
    requires Masks(Localizer.Render(cat, k.ns, t[k]).value.raw, id)
    ensures !PrunedBy(p, k.ns, id)
  {
    var d :| d in Ids(p.desired.raw) && SameButGroup(d, id) && d.group != id.group;
    ResourceNamesEqual(id, d);
  }

  lemma LostIsUnpruned(cat: Catalog, t: map<Key, DescSpec>, key: Key, was: Objects<DescSpec>, id: ObjId, p: Prune)
    requires GenericKey(key) in t && Localizer.Render(cat, key.ns, t[GenericKey(key)]).Some? && Acceptable(id)
    requires HelmKey(key) in t ==> t[HelmKey(key)].deployer.Helm?
    requires Masks(Localizer.Render(cat, key.ns, t[GenericKey(key)]).value.raw, id)
    requires p in PruneFor(cat, t, HelmKey(key), Get(was, HelmKey(key)))
                  + PruneFor(cat, t, GenericKey(key), Get(was, GenericKey(key)))
    ensures !PrunedBy(p, key.ns, id)
  {
    if p in PruneFor(cat, t, HelmKey(key), Get(was, HelmKey(key))) {
      HelmPrunesNothing(cat, t, key, Get(was, HelmKey(key)), key.ns, id);
    } else {
      MaskedIsUnpruned(cat, t, GenericKey(key), Get(was, GenericKey(key)), id, p);
    }
  }

  lemma LostIsNotStarted(cat: Catalog, api: Api, s: Store, key: Key, feeds: seq<Feed>, id: ObjId, p: Prune)
    requires Loses(cat, api, s, key, feeds, id) && Acceptable(id) && p in Started(cat, s, key, Gather(cat, feeds))
    ensures !PrunedBy(p, key.ns, id)
  {
    DifferentKeys(key);
    LostIsUnpruned(cat, Templates(key, Gather(cat, feeds)), key, s.descs, id, p);
  }

  lemma LostIsUnsafe(cat: Catalog, api: Api, s: Store, key: Key, feeds: seq<Feed>, s': Store, id: ObjId)
    requires Loses(cat, api, s, key, feeds, id) && Acceptable(id)
    requires s'.children == s.children && s'.abandoned == s.abandoned
    requires s'.prunes == s.prunes + Started(cat, s, key, Gather(cat, feeds))
    requires forall j :: !CoveredAt(s', key.ns, id, j)
    ensures !SafeAt(s', key.ns, id)
  {
    forall p | p in s'.prunes ensures !PrunedBy(p, key.ns, id) {
      if p !in s.prunes {
        LostIsNotStarted(cat, api, s, key, feeds, id, p);
      }
    }
  }

  lemma LostIsUncoveredNow(cat: Catalog, api: Api, s: Store, key: Key, base: Obj<seq<Feed>>, s': Store, id: ObjId)
    requires SoundDescs(s.descs) && Populated(cat, api, s, key, base, s') && Loses(cat, api, s, key, base.spec, id)
    ensures forall j :: !CoveredAt(s', key.ns, id, j)
  {
    forall j ensures !CoveredAt(s', key.ns, id, j) {
      LostIsUncovered(cat, api, s, key, base, s', id, j);
    }
  }

  lemma PopulatedLoses(cat: Catalog, api: Api, s: Store, key: Key, base: Obj<seq<Feed>>, s': Store, id: ObjId)
    requires SoundDescs(s.descs) && Acceptable(id)
    requires Populated(cat, api, s, key, base, s') && Loses(cat, api, s, key, base.spec, id)
    ensures !SafeAt(s', key.ns, id)
  {
    LostIsUncoveredNow(cat, api, s, key, base, s', id);
    LostIsUnsafe(cat, api, s, key, base.spec, s', id);
  }

  lemma PopulatedKeeps(cat: Catalog, api: Api, s: Store, key: Key, base: Obj<seq<Feed>>, s': Store, ns: string,
                       id: ObjId)
    requires LeakInv(s) && Populated(cat, api, s, key, base, s') && !LosesAny(cat, api, s, key, base.spec)
    ensures SafeAt(s', ns, id)
  {
    if id in ChildrenOf(s, ns) {
      KeptUnlessLost(cat, api, s, key, base, s', ns, id);
    }
  }

  lemma LostIsAcceptable(cat: Catalog, api: Api, s: Store, key: Key, feeds: seq<Feed>, id: ObjId)
    requires SafeAt(s, key.ns, id) && Loses(cat, api, s, key, feeds, id)
    ensures Acceptable(id)
  {
  }

  lemma PopulatedLeaksIff(cat: Catalog, api: Api, s: Store, key: Key, base: Obj<seq<Feed>>, s': Store)
    requires LeakInv(s) && Populated(cat, api, s, key, base, s')
    ensures LeakFree(s') <==> !LosesAny(cat, api, s, key, base.spec)
  {
    LeakFreeIff(s);
    LeakFreeIff(s');
    if id :| Loses(cat, api, s, key, base.spec, id) {
      LostIsAcceptable(cat, api, s, key, base.spec, id);
      PopulatedLoses(cat, api, s, key, base, s', id);
    } else {
      forall ns, id ensures SafeAt(s', ns, id) {
        PopulatedKeeps(cat, api, s, key, base, s', ns, id);
      }
    }
  }

  /** Rendering leaves the store free of leaks if and only if it loses no object. */
  lemma PopulateLeaksIff(cat: Catalog, api: Api, s: Store, key: Key, base: Obj<seq<Feed>>)
    requires LeakInv(s)
    ensures var s' := PopulateDescriptions(cat, api, s, key, base).store;
            SoundDescs(s'.descs) && (LeakFree(s') <==> !LosesAny(cat, api, s, key, base.spec))
  {
    if Gather(cat, base.spec).Gathered? {
      var s' := PopulateDescriptions(cat, api, s, key, base).store;
      PopulateIsPopulated(cat, api, s, key, base);
      PopulatedStaysSound(cat, api, s, key, base, s');
      PopulatedLeaksIff(cat, api, s, key, base, s');
    }
  }

  // ---------------------------------------------------------------- handlers

  lemma SetDesc(s: Store, key: Key, o: Option<Obj<DescSpec>>)
    requires LeakInv(s) && CoverStep(key, Get(s.descs, key), o)
    ensures LeakInv(s.(descs := Put(s.descs, key, o)))
  {
    DescsAlone(s, s.(descs := Put(s.descs, key, o)));
  }

  lemma OffloadBaseLeaksNothing(api: Api, s: Store, key: Key)
    requires LeakInv(s) && key in s.bases
    ensures LeakInv(OffloadBase(api, s, key).store)
  {
    DescsAlone(s, OffloadBase(api, s, key).store);
  }

  /** The step gets as far as to render the Base of its key. */
  predicate Renders(s: Store, st: Step) {
    if st.event.OnBase? then
      st.event.key in s.bases && !s.bases[st.event.key].deleting && st.api(LabelFeeds(st.event.key)) &&
      var o := Protected(st.api, BaseKind, st.event.key, s.bases[st.event.key]);
      o.Some? && Labelled(st.api, BaseKind, st.event.key, o.value).Some?
    else st.event.OnFeed? && st.event.key in s.bases && s.bases[st.event.key].selfLabelled
  }

  /** It loses an object in doing so. */
  ghost predicate Leaky(s: Store, st: Step) {
    Renders(s, st) && LosesAny(st.cat, st.api, s, st.event.key, s.bases[st.event.key].spec)
  }

  lemma ProcessBaseLeaksIff(cat: Catalog, api: Api, s: Store, key: Key)
    requires LeakInv(s) && key in s.bases
    ensures var s' := ProcessBase(cat, api, s, key).store;
            && SoundDescs(s'.descs)
            && (LeakFree(s') <==>
                  s.bases[key].deleting || !api(LabelFeeds(key)) || !LosesAny(cat, api, s, key, s.bases[key].spec))
  {
    if s.bases[key].deleting {
      OffloadBaseLeaksNothing(api, s, key);
    } else if api(LabelFeeds(key)) {
      PopulateLeaksIff(cat, api, s, key, s.bases[key]);
    }
  }

  lemma OnlyCoverWhateverBases(s: Store, s': Store, k: Key, id: ObjId)
    requires s' == s.(bases := s'.bases)
    ensures OnlyCover(s', k, id) <==> OnlyCover(s, k, id)
  {
    forall j ensures CoveredAt(s', k.ns, id, j) <==> CoveredAt(s, k.ns, id, j) {
    }
  }

  /** Which objects are lost does not depend on Bases. */
  lemma LosesWhateverBases(cat: Catalog, api: Api, s: Store, s': Store, key: Key, feeds: seq<Feed>)
    requires s' == s.(bases := s'.bases)
    ensures LosesAny(cat, api, s', key, feeds) <==> LosesAny(cat, api, s, key, feeds)
  {
    forall id ensures Loses(cat, api, s', key, feeds, id) <==> Loses(cat, api, s, key, feeds, id) {
      OnlyCoverWhateverBases(s, s', GenericKey(key), id);
    }
  }

  /** Handling a Base is processing it once it has its finalizer and label. */
  lemma HandleIsProcess(cat: Catalog, api: Api, s: Store, key: Key) returns (base: Option<Obj<seq<Feed>>>)
    ensures base.Some? ==>
              && key in s.bases && base.value.deleting == s.bases[key].deleting && base.value.spec == s.bases[key].spec
              && HandleBase(cat, api, s, key) == ProcessBase(cat, api, s.(bases := s.bases[key := base.value]), key)
    ensures base.None? ==>
              var s' := HandleBase(cat, api, s, key).store;
              s' == s.(bases := s'.bases)
    ensures base.Some? <==>
              key in s.bases && Protected(api, BaseKind, key, s.bases[key]).Some?
              && Labelled(api, BaseKind, key, Protected(api, BaseKind, key, s.bases[key]).value).Some?
  {
    base := None;
    if key in s.bases && Protected(api, BaseKind, key, s.bases[key]).Some? {
      base := Labelled(api, BaseKind, key, Protected(api, BaseKind, key, s.bases[key]).value);
    }
  }

  lemma HandleBaseLeaksIff(s: Store, st: Step)
    requires LeakInv(s) && st.event.OnBase?
    ensures var s' := HandleBase(st.cat, st.api, s, st.event.key).store;
            SoundDescs(s'.descs) && (LeakFree(s') <==> !Leaky(s, st))
  {
    var key := st.event.key;
    var base := HandleIsProcess(st.cat, st.api, s, key);
    if base.Some? {
      var s' := s.(bases := s.bases[key := base.value]);
      SameDescs(s, s');
      LosesWhateverBases(st.cat, st.api, s, s', key, base.value.spec);
      ProcessBaseLeaksIff(st.cat, st.api, s', key);
    } else {
      SameDescs(s, HandleBase(st.cat, st.api, s, key).store);
    }
  }

  lemma ResyncLeaksIff(s: Store, st: Step)
    requires LeakInv(s) && st.event.OnFeed?
    ensures var s' := ResyncBase(st.cat, st.api, s, st.event.key).store;
            SoundDescs(s'.descs) && (LeakFree(s') <==> !Leaky(s, st))
  {
    if Renders(s, st) {
      PopulateLeaksIff(st.cat, st.api, s, st.event.key, s.bases[st.event.key]);
    }
  }

  lemma HandleHelmLeaksNothing(cat: Catalog, api: Api, s: Store, key: Key)
    requires LeakInv(s) && key in s.descs && s.descs[key].spec.deployer.Helm?
    ensures LeakInv(HandleHelm(cat, api, s, key).store)
  {
    var s' := HandleHelm(cat, api, s, key).store;
    assert s'.descs == s.descs || s'.descs == Put(s.descs, key, Unprotected(s.descs[key]));
    assert SoundDesc(key, Get(s.descs, key));
    DescsAlone(s, s');
  }

  /** What is applied is in the Raw of a Description with the finalizer. */
  lemma ApplyIsTracked(api: Api, s: Store, key: Key)
    requires LeakInv(s) && key in s.descs
    requires APP_FINALIZER in s.descs[key].finalizers && !s.descs[key].spec.deployer.Helm?
    ensures LeakInv(ApplyDescription(api, s, key).store)
  {
    var s' := ApplyDescription(api, s, key).store;
    forall ns, id | id in ChildrenOf(s', ns) ensures Acceptable(id) && Tracked(s', ns, id) {
      if ns == key.ns && id in Applied(api, key.ns, s.descs[key].spec.raw) {
        assert CoveredAt(s', ns, id, key);
      } else {
        assert id in ChildrenOf(s, ns);
        if k :| CoveredAt(s, ns, id, k) {
          assert CoveredAt(s', ns, id, k);
        }
      }
    }
  }

  /** The Description goes only with everything in its Raw. */
  lemma OffloadIsTracked(api: Api, s: Store, key: Key)
    requires LeakInv(s) && key in s.descs
    ensures LeakInv(OffloadDescription(api, s, key).store)
  {
    var raw, s' := s.descs[key].spec.raw, OffloadDescription(api, s, key).store;
    var removed := Removed(api, key.ns, Ids(raw));
    assert ChildrenOf(s', key.ns) == ChildrenOf(s, key.ns) - removed;
    forall ns, id | id in ChildrenOf(s', ns) ensures Acceptable(id) && Tracked(s', ns, id) {
      assert id in ChildrenOf(s, ns);
      if k :| CoveredAt(s, ns, id, k) {
        assert s'.descs != s.descs && k == key ==> id in removed;
        assert CoveredAt(s', ns, id, k);
      }
    }
    assert SoundDesc(key, Get(s.descs, key));
  }

  lemma LostIsTracked(s: Store, key: Key)
    requires LeakInv(s) && key in s.descs
    ensures LeakInv(s.(descs := Put(s.descs, key, Unprotected(s.descs[key])),
                       abandoned := s.abandoned + InCluster(key.ns, Ids(s.descs[key].spec.raw))))
  {
    var ids := Ids(s.descs[key].spec.raw);
    var s' := s.(descs := Put(s.descs, key, Unprotected(s.descs[key])),
                 abandoned := s.abandoned + InCluster(key.ns, ids));
    forall ns, id | id in ChildrenOf(s', ns) ensures Acceptable(id) && Tracked(s', ns, id) {
      assert id in ChildrenOf(s, ns);
      if k :| CoveredAt(s, ns, id, k) {
        assert k == key ==> (ns, id) in s'.abandoned;
        assert k != key ==> CoveredAt(s', ns, id, k);
      }
    }
    assert SoundDesc(key, Get(s.descs, key));
  }

  lemma HandleGenericLeaksNothing(cat: Catalog, api: Api, s: Store, key: Key)
    requires LeakInv(s) && key in s.descs && !s.descs[key].spec.deployer.Helm?
    requires s.descs[key].deleting || APP_FINALIZER in s.descs[key].finalizers
    ensures LeakInv(HandleGeneric(cat, api, s, key).store)
  {
    LostIsTracked(s, key);
    OffloadIsTracked(api, s, key);
    if !s.descs[key].deleting {
      ApplyIsTracked(api, s, key);
    }
  }

  lemma HandleDescriptionLeaksNothing(cat: Catalog, api: Api, s: Store, key: Key)
    requires LeakInv(s)
    ensures LeakInv(HandleDescription(cat, api, s, key).store)
  {
    if key in s.descs {
      var desc := Protected(api, DescriptionKind, key, s.descs[key]);
      if desc.Some? {
        var s' := s.(descs := s.descs[key := desc.value]);
        SetDesc(s, key, desc);
        assert Put(s.descs, key, desc) == s'.descs;
        match desc.value.spec.deployer {
          case Helm => HandleHelmLeaksNothing(cat, api, s', key);
          case Generic => HandleGenericLeaksNothing(cat, api, s', key);
          case Other =>
        }
      }
    }
  }

  /** A prune is done only when everything it had to remove is gone. */
  lemma PruneRemoves(api: Api, s: Store, p: Prune)
    requires p in s.prunes
    ensures var s' := RunPrune(api, s, p).store;
            && ChildrenShrink(s, s')
            && (forall q :: q in s.prunes && q !in s'.prunes ==>
                  q == p && (p.desired.deployer.Helm? || PruneIds(p) !! ChildrenOf(s', p.ns)))
  {
    var s' := RunPrune(api, s, p).store;
    if !p.desired.deployer.Helm? && api(Connect(p.ns)) {
      assert ChildrenOf(s', p.ns) == ChildrenOf(s, p.ns) - Removed(api, p.ns, PruneIds(p));
    }
  }

  lemma PruneLeaksNothing(api: Api, s: Store, p: Prune)
    requires LeakInv(s)
    ensures LeakInv(RunPrune(api, s, p).store)
  {
    if p in s.prunes {
      PruneRemoves(api, s, p);
      PrunedStaysTracked(s, RunPrune(api, s, p).store, p);
    }
  }

  lemma PrunedStaysTracked(s: Store, s': Store, p: Prune)
    requires LeakInv(s) && s'.descs == s.descs && s'.abandoned == s.abandoned && ChildrenShrink(s, s')
    requires forall q :: q in s.prunes && q !in s'.prunes ==>
               q == p && (p.desired.deployer.Helm? || PruneIds(p) !! ChildrenOf(s', p.ns))
    ensures LeakInv(s')
  {
    forall ns, id | id in ChildrenOf(s', ns) ensures Acceptable(id) && Tracked(s', ns, id) {
      assert id in ChildrenOf(s, ns);
      if k :| CoveredAt(s, ns, id, k) {
        assert CoveredAt(s', ns, id, k);
      } else if q :| q in s.prunes && PrunedBy(q, ns, id) {
        assert q in s'.prunes;
      }
    }
  }

  // ---------------------------------------------------------------- all runs

  lemma FreedCovers(o: Obj<DescSpec>, f: string, k: Key)
    ensures CoverStep(k, Some(o), Freed(o, f)) && CoverStep(k, Some(o), Held(o, f)) && CoverStep(k, Some(o), Marked(o))
  {
  }

  lemma ChangedDesc(s: Store, k: Key, change: Obj<DescSpec> -> Option<Obj<DescSpec>>)
    requires LeakInv(s) && (k in s.descs ==> CoverStep(k, Some(s.descs[k]), change(s.descs[k])))
    ensures LeakInv(s.(descs := Change(s.descs, k, change)))
  {
    DescsAlone(s, s.(descs := Change(s.descs, k, change)));
  }

  lemma DeletedLeaksNothing(s: Store, kind: Kind, k: Key)
    requires LeakInv(s)
    ensures LeakInv(Deleted(s, kind, k))
  {
    if kind.DescriptionKind? {
      if k in s.descs {
        FreedCovers(s.descs[k], "", k);
      }
      ChangedDesc(s, k, o => Marked(o));
    } else {
      SameDescs(s, Deleted(s, kind, k));
    }
  }

  lemma HoldingLeaksNothing(s: Store, kind: Kind, k: Key, f: string)
    requires LeakInv(s)
    ensures LeakInv(Holding(s, kind, k, f))
  {
    if kind.DescriptionKind? {
      if k in s.descs {
        FreedCovers(s.descs[k], f, k);
      }
      ChangedDesc(s, k, o => Held(o, f));
    } else {
      SameDescs(s, Holding(s, kind, k, f));
    }
  }

  lemma FreeingLeaksNothing(s: Store, kind: Kind, k: Key, f: string)
    requires LeakInv(s)
    ensures LeakInv(Freeing(s, kind, k, f))
  {
    if kind.DescriptionKind? {
      if k in s.descs {
        FreedCovers(s.descs[k], f, k);
      }
      ChangedDesc(s, k, o => Freed(o, f));
    } else {
      SameDescs(s, Freeing(s, kind, k, f));
    }
  }

  lemma OthersLeakNothing(s: Store, st: Step)
    requires LeakInv(s)
    requires st.event.DeleteObject? || st.event.HoldObject? || st.event.FreeObject? || st.event.ChildrenGone?
    ensures LeakInv(Effect(s, st))
  {
    var e := st.event;
    if e.DeleteObject? {
      DeletedLeaksNothing(s, e.kind, e.key);
    } else if e.HoldObject? {
      HoldingLeaksNothing(s, e.kind, e.key, e.finalizer);
    } else if e.FreeObject? {
      FreeingLeaksNothing(s, e.kind, e.key, e.finalizer);
    } else {
      NothingApplied(s, Effect(s, st));
    }
  }

  lemma OtherKindsLeakNothing(s: Store, st: Step)
    requires LeakInv(s)
    requires st.event.OnSubscription? || st.event.OnRelease?
          || st.event.NewSubscription? || st.event.EditSubscription? || st.event.NewBase?
    ensures LeakInv(Effect(s, st))
  {
    SameDescs(s, Effect(s, st));
  }

  lemma NextLeaksIff(s: Store, st: Step)
    requires LeakInv(s)
    ensures SoundDescs(Next(s, st).descs) && (LeakFree(Next(s, st)) <==> !Leaky(s, st))
  {
    if st.event.OnBase? {
      HandleBaseLeaksIff(s, st);
    } else if st.event.OnFeed? {
      ResyncLeaksIff(s, st);
    } else if st.event.OnDescription? {
      HandleDescriptionLeaksNothing(st.cat, st.api, s, st.event.key);
    } else if st.event.OnPrune? {
      PruneLeaksNothing(st.api, s, st.event.prune);
    } else if st.event.DeleteObject? || st.event.HoldObject? || st.event.FreeObject? || st.event.ChildrenGone? {
      OthersLeakNothing(s, st);
    } else {
      OtherKindsLeakNothing(s, st);
    }
    SameLeaks(Effect(s, st), Next(s, st));
  }

  ghost predicate LeakyAt(steps: seq<Step>, i: int) {
    0 <= i < |steps| && Leaky(Run(steps[..i]), steps[i])
  }

  lemma TightPrefix(steps: seq<Step>, n: nat)
    requires n <= |steps| && forall i :: i < n ==> !LeakyAt(steps, i)
    ensures forall i :: !LeakyAt(steps[..n], i)
  {
    forall i ensures !LeakyAt(steps[..n], i) {
      assert 0 <= i < n ==> steps[..n][..i] == steps[..i] && !LeakyAt(steps, i);
    }
  }

  lemma {:induction false} InvInTightRun(steps: seq<Step>)
    requires forall i :: !LeakyAt(steps, i)
    ensures LeakInv(Run(steps))
  {
    if steps != [] {
      var n := |steps| - 1;
      TightPrefix(steps, n);
      InvInTightRun(steps[..n]);
      assert !LeakyAt(steps, n);
      NextLeaksIff(Run(steps[..n]), steps[n]);
    }
  }

  /** The first leaky step of a run shows. */
  lemma FirstLeakShows(steps: seq<Step>, i: nat)
    requires LeakyAt(steps, i) && forall j :: j < i ==> !LeakyAt(steps, j)
    ensures !LeakFree(Run(steps[..i + 1]))
  {
    TightPrefix(steps, i);
    InvInTightRun(steps[..i]);
    assert steps[..i + 1][..i] == steps[..i];
    NextLeaksIff(Run(steps[..i]), steps[i]);
  }

  lemma {:induction false} FirstLeak(steps: seq<Step>, i: nat) returns (n: nat)
    requires LeakyAt(steps, i)
    ensures LeakyAt(steps, n) && forall j :: j < n ==> !LeakyAt(steps, j)
  {
    if j: nat :| j < i && LeakyAt(steps, j) {
      n := FirstLeak(steps, j);
    } else {
      n := i;
      forall j | j < n ensures !LeakyAt(steps, j) {
        assert j < 0 ==> !LeakyAt(steps, j);
      }
    }
  }

  /**
   * All along a run each object that the hub applied in a child cluster, and that is still there, is
   * covered by a Description, a started prune, or the loss of the cluster, if and only if no rendering
   * of the run loses one.
   */
  lemma NoLeaksInAnyRun(steps: seq<Step>)
    ensures (forall i :: 0 <= i <= |steps| ==> LeakFree(Run(steps[..i]))) <==> forall i :: !LeakyAt(steps, i)
  {
    if i :| LeakyAt(steps, i) {
      var n := FirstLeak(steps, i);
      FirstLeakShows(steps, n);
    } else {
      forall i | 0 <= i <= |steps| ensures LeakFree(Run(steps[..i])) {
        TightPrefix(steps, i);
        InvInTightRun(steps[..i]);
      }
    }
  }
}
