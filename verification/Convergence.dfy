/** What one successful pass of a handler achieves, and that a second pass has nothing left to do. */
module Convergence {
  import opened Collections
  import opened Feeds
  import opened Catalog
  import opened ObjectStore
  import opened Propagation
  import opened Runs
  import opened Json
  import opened Precedence
  import Localizer
  import Releases

  // ---------------------------------------------------------------- Bases

  ghost predicate Live<S>(o: Option<Obj<S>>, owner: Ref) {
    o.Some? && o.value.owner == Some(owner) && !o.value.deleting
  }

  /** The live Bases of the Subscription are those of its existing bound namespaces, each with its feeds. */
  ghost predicate Converged(cat: Catalog, bases: Objects<seq<Feed>>, owner: Ref, spec: SubSpec) {
    && (forall k :: Live(Get(bases, k), owner) <==> k in BaseKeys(cat, owner.key.name, spec.bindings))
    && (forall k :: Live(Get(bases, k), owner) ==> bases[k].spec == spec.feeds)
  }

  /** A Base at k that a sync takes for its own: it lists the same feeds, but has another origin. */
  predicate Mistaken(bases: Objects<seq<Feed>>, owner: Ref, spec: SubSpec, k: Key) {
    k in bases && bases[k].owner != Some(owner) && bases[k].spec == spec.feeds
  }

  /**
   * populateBases converges when it returns no error, unless a Base of the same name with the same
   * feeds belongs to another origin: syncBase relabels only when the spec differs.
   */
  lemma BasesConvergeIff(cat: Catalog, api: Api, s: Store, owner: Ref, spec: SubSpec)
    requires PopulateBases(cat, api, s, owner, spec).done
    ensures Converged(cat, PopulateBases(cat, api, s, owner, spec).store.bases, owner, spec)
       <==> forall k :: k in BaseKeys(cat, owner.key.name, spec.bindings) ==> !Mistaken(s.bases, owner, spec, k)
  {
    var bases, keys := PopulateBases(cat, api, s, owner, spec).store.bases,
        BaseKeys(cat, owner.key.name, spec.bindings);
    forall k ensures k !in keys ==> !Live(Get(bases, k), owner) {
      if k !in keys && k in s.bases && s.bases[k].owner == Some(owner) {
        assert k in Owned(s.bases, owner) - keys;
      }
    }
    forall k | k in keys ensures Live(Get(bases, k), owner) <==> !Mistaken(s.bases, owner, spec, k) {
      WantedBase(cat, api, s, owner, spec, k);
    }
    forall k | k in keys ensures k in bases && bases[k].spec == spec.feeds {
      WantedBase(cat, api, s, owner, spec, k);
    }
  }

  lemma WantedBase(cat: Catalog, api: Api, s: Store, owner: Ref, spec: SubSpec, k: Key)
    requires PopulateBases(cat, api, s, owner, spec).done && k in BaseKeys(cat, owner.key.name, spec.bindings)
    ensures var o := Get(PopulateBases(cat, api, s, owner, spec).store.bases, k);
            && o.Some? && o.value.spec == spec.feeds && !o.value.deleting
            && (o.value.owner == Some(owner) <==> !Mistaken(s.bases, owner, spec, k))
  {
    BindingsSync(cat, api, s.clock, owner, spec.feeds, spec.bindings, k, Get(s.bases, k));
  }

  /** The object as the hub makes it. */
  ghost predicate MadeAs<S>(o: Option<Obj<S>>, clock: nat, owner: Ref, cluster: string, spec: S) {
    o == Some(ObjectStore.Obj.Obj(clock, false, {APP_FINALIZER}, Some(owner), cluster, false, spec))
  }

  /** The same object with this origin, cluster and spec, held by the hub besides whoever holds it. */
  ghost predicate RewrittenAs<S>(was: Obj<S>, o: Option<Obj<S>>, owner: Ref, cluster: string, spec: S) {
    && o.Some? && o.value.born == was.born && o.value.deleting == was.deleting
    && o.value.selfLabelled == was.selfLabelled && o.value.finalizers == was.finalizers + {APP_FINALIZER}
    && o.value.owner == Some(owner) && o.value.cluster == cluster && o.value.spec == spec
  }

  /** It is marked for deletion, and gone if nobody holds it. */
  ghost predicate DeletedAs<S>(was: Obj<S>, o: Option<Obj<S>>) {
    if was.finalizers == {} then o.None? else o == Some(was.(deleting := true))
  }

  /**
   * The Base at k after a pass without error: a wanted one is made, left alone if it lists the same feeds,
   * or else rewritten, with the cluster ID of its namespace; an unwanted one of the Subscription is deleted.
   */
  lemma BaseAfterPass(cat: Catalog, api: Api, s: Store, owner: Ref, spec: SubSpec, k: Key)
    requires PopulateBases(cat, api, s, owner, spec).done
    ensures var was, o := Get(s.bases, k), Get(PopulateBases(cat, api, s, owner, spec).store.bases, k);
            var given := if k.ns in cat.namespaces then cat.namespaces[k.ns] else None;
            if k in BaseKeys(cat, owner.key.name, spec.bindings) then
              if was.None? then MadeAs(o, s.clock, owner, if given.Some? then given.value else "", spec.feeds)
              else if was.value.spec == spec.feeds then o == was
              else
                RewrittenAs(was.value, o, owner, if given.Some? then given.value else was.value.cluster, spec.feeds)
            else if was.Some? && was.value.owner == Some(owner) then DeletedAs(was.value, o)
            else o == was
  {
    BindingsSync(cat, api, s.clock, owner, spec.feeds, spec.bindings, k, Get(s.bases, k));
    if k !in BaseKeys(cat, owner.key.name, spec.bindings) && k in s.bases && s.bases[k].owner == Some(owner) {
      assert k in Owned(s.bases, owner) - BaseKeys(cat, owner.key.name, spec.bindings);
    }
  }

  /** Whatever fails, each Base is afterwards as before or as a pass without error leaves it. */
  lemma BaseAllOrNothing(cat: Catalog, api: Api, s: Store, owner: Ref, spec: SubSpec, k: Key)
    ensures var o := Get(PopulateBases(cat, api, s, owner, spec).store.bases, k);
            o == Get(s.bases, k) || o == Get(PopulateBases(cat, ALL_SUCCEED, s, owner, spec).store.bases, k)
  {
    BindingsSync(cat, api, s.clock, owner, spec.feeds, spec.bindings, k, Get(s.bases, k));
    BindingsSync(cat, ALL_SUCCEED, s.clock, owner, spec.feeds, spec.bindings, k, Get(s.bases, k));
  }

  /** With all calls successful it returns no error exactly when the bindings parse and no wanted Base is deleting. */
  lemma BasesDoneIff(cat: Catalog, api: Api, s: Store, owner: Ref, spec: SubSpec)
    requires forall c :: api(c)
    ensures PopulateBases(cat, api, s, owner, spec).done
       <==> && BindingsValid(spec.bindings)
            && forall k :: k in BaseKeys(cat, owner.key.name, spec.bindings) && k in s.bases ==> !s.bases[k].deleting
  {
    forall k | k in BaseKeys(cat, owner.key.name, spec.bindings)
      ensures SyncBindings(cat, api, s.clock, owner, spec.feeds, spec.bindings, k, Get(s.bases, k)).done
         <==> (k in s.bases ==> !s.bases[k].deleting)
    {
      BindingsSync(cat, api, s.clock, owner, spec.feeds, spec.bindings, k, Get(s.bases, k));
    }
  }

  lemma BaseSettles(cat: Catalog, api: Api, api': Api, clock: nat, clock': nat, owner: Ref, spec: SubSpec, k: Key,
                    was: Option<Obj<seq<Feed>>>)
    requires k in BaseKeys(cat, owner.key.name, spec.bindings) ==>
               SyncBindings(cat, api, clock, owner, spec.feeds, spec.bindings, k, was).done
    requires k !in BaseKeys(cat, owner.key.name, spec.bindings) && was.Some? && was.value.owner == Some(owner) ==>
               DeletesBase(api, k)
    ensures var o := BaseAfter(cat, api, clock, owner, spec, k, was);
            BaseAfter(cat, api', clock', owner, spec, k, o) == o
  {
    BindingsSync(cat, api, clock, owner, spec.feeds, spec.bindings, k, was);
    BindingsSync(cat, api', clock', owner, spec.feeds, spec.bindings, k,
                 BaseAfter(cat, api, clock, owner, spec, k, was));
  }

  /** After a pass without error another one, whatever calls fail in it, changes no Base. */
  lemma BasesSettle(cat: Catalog, api: Api, api': Api, s: Store, owner: Ref, spec: SubSpec, clock: nat)
    requires PopulateBases(cat, api, s, owner, spec).done
    ensures var s' := PopulateBases(cat, api, s, owner, spec).store.(clock := clock);
            PopulateBases(cat, api', s', owner, spec).store == s'
  {
    var s' := PopulateBases(cat, api, s, owner, spec).store.(clock := clock);
    var again := PopulateBases(cat, api', s', owner, spec).store.bases;
    forall k ensures Get(again, k) == Get(s'.bases, k) {
      if k !in BaseKeys(cat, owner.key.name, spec.bindings) && k in s.bases && s.bases[k].owner == Some(owner) {
        assert k in Owned(s.bases, owner) - BaseKeys(cat, owner.key.name, spec.bindings);
      }
      BaseSettles(cat, api, api', s.clock, clock, owner, spec, k, Get(s.bases, k));
    }
    SameObjects(again, s'.bases);
  }

  /** The Subscription, made at `born`, after its first handling. */
  function Joined(born: nat, sub: SubSpec): Obj<SubSpec> {
    NewObject(born, sub).(finalizers := {APP_FINALIZER}, selfLabelled := true)
  }

  /** With all calls successful the first handling of a Subscription syncs its Bases. */
  lemma FirstHandling(cat: Catalog, s: Store, key: Key, born: nat, sub: SubSpec)
    requires Get(s.subs, key) == Some(NewObject(born, sub))
    ensures HandleSubscription(cat, ALL_SUCCEED, s, key)
         == PopulateBases(cat, ALL_SUCCEED, s.(subs := s.subs[key := Joined(born, sub)]), Ref(key, born), sub)
  {
    assert {} + {APP_FINALIZER} == {APP_FINALIZER};
    var o := NewObject(born, sub).(finalizers := {APP_FINALIZER});
    assert Protected(ALL_SUCCEED, SubscriptionKind, key, NewObject(born, sub)) == Some(o);
    assert Labelled(ALL_SUCCEED, SubscriptionKind, key, o) == Some(Joined(born, sub));
  }

  /** A Subscription is made and handled. */
  function OneSubscription(cat: Catalog, a: Key, sub: SubSpec): seq<Step> {
    [Step(NewSubscription(a, sub), cat, ALL_SUCCEED)] + [Step(OnSubscription(a), cat, ALL_SUCCEED)]
  }

  /** Then another one of the same name and spec is made. */
  function TwoSubscriptions(cat: Catalog, a: Key, b: Key, sub: SubSpec): seq<Step> {
    OneSubscription(cat, a, sub) + [Step(NewSubscription(b, sub), cat, ALL_SUCCEED)]
  }

  /** All Bases are live, of the owner and with the feeds, and all wanted ones exist. */
  ghost predicate BaseOf(cat: Catalog, o: Option<Obj<seq<Feed>>>, owner: Ref, sub: SubSpec, k: Key) {
    && (k in BaseKeys(cat, owner.key.name, sub.bindings) ==> o.Some?)
    && (o.Some? ==> o.value.owner == Some(owner) && !o.value.deleting && o.value.spec == sub.feeds)
  }

  lemma MadeFirst(cat: Catalog, a: Key, sub: SubSpec)
    ensures Run([Step(NewSubscription(a, sub), cat, ALL_SUCCEED)])
         == EMPTY_STORE.(clock := 1, subs := map[a := NewObject(0, sub)])
  {
    var made := Step(NewSubscription(a, sub), cat, ALL_SUCCEED);
    assert [] + [made] == [made];
    RunSnoc([], made);
    assert map[][a := NewObject(0, sub)] == map[a := NewObject(0, sub)];
  }

  lemma FirstGetsBases(cat: Catalog, a: Key, sub: SubSpec, k: Key)
    requires BindingsValid(sub.bindings)
    ensures var s := Run(OneSubscription(cat, a, sub));
            && s.subs.Keys == {a} && s.clock == 2
            && BaseOf(cat, Get(s.bases, k), Ref(a, 0), sub, k)
  {
    var made := Step(NewSubscription(a, sub), cat, ALL_SUCCEED);
    MadeFirst(cat, a, sub);
    RunSnoc([made], Step(OnSubscription(a), cat, ALL_SUCCEED));
    var s := Run([made]);
    FirstHandling(cat, s, a, 0, sub);
    BindingsSync(cat, ALL_SUCCEED, s.clock, Ref(a, 0), sub.feeds, sub.bindings, k, None);
  }

  lemma SecondIsThere(cat: Catalog, a: Key, b: Key, sub: SubSpec, k: Key)
    requires a != b && BindingsValid(sub.bindings)
    ensures var s := Run(TwoSubscriptions(cat, a, b, sub));
            Get(s.subs, b) == Some(NewObject(2, sub)) && BaseOf(cat, Get(s.bases, k), Ref(a, 0), sub, k)
  {
    FirstGetsBases(cat, a, sub, k);
    RunSnoc(OneSubscription(cat, a, sub), Step(NewSubscription(b, sub), cat, ALL_SUCCEED));
  }

  lemma BasesTaken(cat: Catalog, s: Store, a: Ref, owner: Ref, sub: SubSpec)
    requires a != owner && a.key.name == owner.key.name && BindingsValid(sub.bindings)
    requires forall k :: BaseOf(cat, Get(s.bases, k), a, sub, k)
    ensures var r := PopulateBases(cat, ALL_SUCCEED, s, owner, sub);
            r.done && Owned(r.store.bases, owner) == {}
  {
    var bases := PopulateBases(cat, ALL_SUCCEED, s, owner, sub).store.bases;
    forall k ensures k in s.bases ==> s.bases[k].owner == Some(a) && !s.bases[k].deleting {
      assert BaseOf(cat, Get(s.bases, k), a, sub, k);
    }
    BasesDoneIff(cat, ALL_SUCCEED, s, owner, sub);
    forall k ensures k !in Owned(bases, owner) {
      assert BaseOf(cat, Get(s.bases, k), a, sub, k);
      BindingsSync(cat, ALL_SUCCEED, s.clock, owner, sub.feeds, sub.bindings, k, Get(s.bases, k));
    }
  }

  /**
   * The failure is reached whenever Subscriptions of different namespaces share name, feeds and
   * clusters: the second is handled without error and gets no Base at all.
   */
  lemma SecondGetsNoBase(cat: Catalog, a: Key, b: Key, sub: SubSpec)
    requires a != b && a.name == b.name && BindingsValid(sub.bindings)
    ensures var r := HandleSubscription(cat, ALL_SUCCEED, Run(TwoSubscriptions(cat, a, b, sub)), b);
            && r.done && Owned(r.store.bases, Ref(b, 2)) == {}
            && (Converged(cat, r.store.bases, Ref(b, 2), sub) <==> BaseKeys(cat, b.name, sub.bindings) == {})
  {
    var s, owner := Run(TwoSubscriptions(cat, a, b, sub)), Ref(b, 2);
    forall k ensures Get(s.subs, b) == Some(NewObject(2, sub)) && BaseOf(cat, Get(s.bases, k), Ref(a, 0), sub, k) {
      SecondIsThere(cat, a, b, sub, k);
    }
    assert BaseOf(cat, Get(s.bases, b), Ref(a, 0), sub, b);
    FirstHandling(cat, s, b, 2, sub);
    var s' := s.(subs := s.subs[b := Joined(2, sub)]);
    BasesTaken(cat, s', Ref(a, 0), owner, sub);
    var bases := PopulateBases(cat, ALL_SUCCEED, s', owner, sub).store.bases;
    forall k ensures !Live(Get(bases, k), owner) {
      assert k !in Owned(bases, owner);
    }
  }

  // ---------------------------------------------------------------- gathering feeds

  /** The feed exists and, for a chart, was found. */
  ghost predicate Resolves(cat: Catalog, f: Feed) {
    if f.kind == Localizer.HELM_CHART then
      Key(f.ns, f.name) in cat.charts && cat.charts[Key(f.ns, f.name)].phase.ChartFound?
    else ListManifests(cat, f).Some? && ListManifests(cat, f).value != []
  }

  /** The charts among the feeds, in order. */
  function ChartKeys(feeds: seq<Feed>): seq<Key> {
    if feeds == [] then []
    else
      var f := feeds[|feeds| - 1];
      ChartKeys(feeds[..|feeds| - 1]) + (if f.kind == Localizer.HELM_CHART then [Key(f.ns, f.name)] else [])
  }

  /** The manifests that the other feeds select, in order. */
  function ManifestsOf(cat: Catalog, feeds: seq<Feed>): seq<Manifest> {
    if feeds == [] then []
    else
      var f := feeds[|feeds| - 1];
      var ms := ListManifests(cat, f);
      ManifestsOf(cat, feeds[..|feeds| - 1]) + (if f.kind != Localizer.HELM_CHART && ms.Some? then ms.value else [])
  }

  ghost predicate AllResolve(cat: Catalog, feeds: seq<Feed>) {
    forall f :: f in feeds ==> Resolves(cat, f)
  }

  lemma GatherOneIff(cat: Catalog, before: Gathered, f: Feed)
    ensures GatherOne(cat, before, f).Gathered? <==> before.Gathered? && Resolves(cat, f)
  {
  }

  lemma AllResolveSnoc(cat: Catalog, front: seq<Feed>, last: Feed)
    ensures AllResolve(cat, front + [last]) <==> AllResolve(cat, front) && Resolves(cat, last)
  {
  }

  lemma {:induction false} GatheredIff(cat: Catalog, feeds: seq<Feed>)
    ensures Gather(cat, feeds).Gathered? <==> AllResolve(cat, feeds)
  {
    if feeds != [] {
      var front, last := feeds[..|feeds| - 1], feeds[|feeds| - 1];
      GatheredIff(cat, front);
      assert feeds == front + [last];
      AllResolveSnoc(cat, front, last);
      GatherOneIff(cat, Gather(cat, front), last);
    }
  }

  lemma GatherOneInOrder(cat: Catalog, charts: seq<Key>, manifests: seq<Manifest>, f: Feed)
    requires Resolves(cat, f)
    ensures GatherOne(cat, Gathered(charts, manifests), f)
         == if f.kind == Localizer.HELM_CHART then Gathered(charts + [Key(f.ns, f.name)], manifests)
            else Gathered(charts, manifests + ListManifests(cat, f).value)
  {
  }

  lemma {:induction false} GatheredInOrder(cat: Catalog, feeds: seq<Feed>)
    requires AllResolve(cat, feeds)
    ensures Gather(cat, feeds) == Gathered(ChartKeys(feeds), ManifestsOf(cat, feeds))
  {
    if feeds != [] {
      var front, last := feeds[..|feeds| - 1], feeds[|feeds| - 1];
      assert feeds == front + [last];
      AllResolveSnoc(cat, front, last);
      GatheredInOrder(cat, front);
      GatherOneInOrder(cat, ChartKeys(front), ManifestsOf(cat, front), last);
      assert ChartKeys(front) + [] == ChartKeys(front) && ManifestsOf(cat, front) + [] == ManifestsOf(cat, front);
    }
  }

  /** All or nothing: one feed that does not resolve spoils the whole, and otherwise the feeds come in order. */
  lemma GatherAllOrNothing(cat: Catalog, feeds: seq<Feed>)
    ensures Gather(cat, feeds).Gathered? <==> AllResolve(cat, feeds)
    ensures Gather(cat, feeds).Gathered? ==> Gather(cat, feeds) == Gathered(ChartKeys(feeds), ManifestsOf(cat, feeds))
  {
    GatheredIff(cat, feeds);
    if AllResolve(cat, feeds) {
      GatheredInOrder(cat, feeds);
    }
  }

  /** The first feed that does not resolve decides: a chart that was not found is skipped silently, all else fails. */
  lemma {:induction false} FirstProblemDecides(cat: Catalog, feeds: seq<Feed>, i: nat)
    requires i < |feeds| && !Resolves(cat, feeds[i]) && forall j :: 0 <= j < i ==> Resolves(cat, feeds[j])
    ensures var f := feeds[i];
            Gather(cat, feeds) ==
              if f.kind == Localizer.HELM_CHART && Key(f.ns, f.name) in cat.charts
                 && cat.charts[Key(f.ns, f.name)].phase.ChartNotFound?
              then Skip else Fail
  {
    var front := feeds[..|feeds| - 1];
    if i == |front| {
      GatherAllOrNothing(cat, front);
    } else {
      FirstProblemDecides(cat, front, i);
    }
  }

  // ---------------------------------------------------------------- Descriptions

  /** Without all feeds no Description is touched and no prune is started. */
  lemma NoFeedsNoChange(cat: Catalog, api: Api, s: Store, key: Key, base: Obj<seq<Feed>>)
    requires !AllResolve(cat, base.spec)
    ensures PopulateDescriptions(cat, api, s, key, base).store == s
  {
    GatherAllOrNothing(cat, base.spec);
  }

  /** The helm Description: the chart feeds in order, and for each its overrides on white space. */
  ghost predicate HelmRendered(cat: Catalog, ns: string, feeds: seq<Feed>, d: DescSpec) {
    && d.deployer.Helm? && d.charts == ChartKeys(feeds) && |d.raw| == |d.charts|
    && forall i :: 0 <= i < |d.charts| ==> Localizer.RenderChart(cat, ns, d.charts[i]) == Some(d.raw[i])
  }

  /** The generic Description: the manifests in order, each with its overrides. */
  ghost predicate GenericRendered(cat: Catalog, ns: string, feeds: seq<Feed>, d: DescSpec) {
    && d.deployer.Generic? && d.charts == [] && |d.raw| == |ManifestsOf(cat, feeds)|
    && forall i :: 0 <= i < |d.raw| ==>
         Localizer.RenderObject(cat, ns, ManifestsOf(cat, feeds)[i].raw) == Some(d.raw[i])
  }

  lemma SyncedDescription(cat: Catalog, api: Api, clock: nat, owner: Ref, cluster: string, template: DescSpec, k: Key,
                          was: Option<Obj<DescSpec>>)
    requires SyncDescription(cat, api, clock, owner, cluster, template, k, was).done
    ensures var o := SyncDescription(cat, api, clock, owner, cluster, template, k, was).obj;
            o.Some? && !o.value.deleting && Localizer.Render(cat, k.ns, template) == Some(o.value.spec)
  {
  }

  lemma RenderedTemplates(cat: Catalog, ns: string, feeds: seq<Feed>, d: DescSpec)
    ensures Localizer.Render(cat, ns, HelmTemplate(ChartKeys(feeds))) == Some(d) ==> HelmRendered(cat, ns, feeds, d)
    ensures Localizer.Render(cat, ns, GenericTemplate(ManifestsOf(cat, feeds))) == Some(d) ==>
        GenericRendered(cat, ns, feeds, d)
  {
  }

  /** What populateDescriptions does once all feeds resolve, key by key. */
  lemma PopulatedDescriptions(cat: Catalog, api: Api, s: Store, key: Key, base: Obj<seq<Feed>>, k: Key)
    requires Gather(cat, base.spec).Gathered?
    ensures var t, owner := Templates(key, Gather(cat, base.spec)), RefOf(key, base);
            var out := PopulateDescriptions(cat, api, s, key, base);
            && Get(out.store.descs, k) == DescAfter(cat, api, s.clock, owner, base.cluster, t, k, Get(s.descs, k))
            && (out.done && k in t ==>
                SyncDescription(cat, api, s.clock, owner, base.cluster, t[k], k, Get(s.descs, k)).done)
            && (out.done && k !in t && k in s.descs && s.descs[k].owner == Some(owner) && !s.descs[k].deleting ==>
                  api(Delete(DescriptionKind, k)))
  {
  }

  /** Without error every feed of the Base is rendered, in order, in the two Descriptions of the Base. */
  lemma DescriptionsRendered(cat: Catalog, api: Api, s: Store, key: Key, base: Obj<seq<Feed>>)
    requires AllResolve(cat, base.spec) && PopulateDescriptions(cat, api, s, key, base).done
    ensures var descs := PopulateDescriptions(cat, api, s, key, base).store.descs;
            && (ChartKeys(base.spec) != [] ==>
                  HelmKey(key) in descs && !descs[HelmKey(key)].deleting
                  && HelmRendered(cat, key.ns, base.spec, descs[HelmKey(key)].spec))
            && (ManifestsOf(cat, base.spec) != [] ==>
                  GenericKey(key) in descs && !descs[GenericKey(key)].deleting
                  && GenericRendered(cat, key.ns, base.spec, descs[GenericKey(key)].spec))
  {
    GatherAllOrNothing(cat, base.spec);
    DifferentKeys(key);
    if ChartKeys(base.spec) != [] {
      DescriptionRendered(cat, api, s, key, base, HelmKey(key));
    }
    if ManifestsOf(cat, base.spec) != [] {
      DescriptionRendered(cat, api, s, key, base, GenericKey(key));
    }
  }

  lemma DescriptionRendered(cat: Catalog, api: Api, s: Store, key: Key, base: Obj<seq<Feed>>, k: Key)
    requires PopulateDescriptions(cat, api, s, key, base).done
        && Gather(cat, base.spec) == Gathered(ChartKeys(base.spec), ManifestsOf(cat, base.spec))
    requires k in Templates(key, Gather(cat, base.spec))
    ensures var o := Get(PopulateDescriptions(cat, api, s, key, base).store.descs, k);
            && o.Some? && !o.value.deleting
            && (k == HelmKey(key) ==> HelmRendered(cat, key.ns, base.spec, o.value.spec))
            && (k == GenericKey(key) ==> GenericRendered(cat, key.ns, base.spec, o.value.spec))
  {
    var t, owner := Templates(key, Gather(cat, base.spec)), RefOf(key, base);
    DifferentKeys(key);
    PopulatedDescriptions(cat, api, s, key, base, k);
    SyncedDescription(cat, api, s.clock, owner, base.cluster, t[k], k, Get(s.descs, k));
    RenderedTemplates(cat, key.ns, base.spec,
                      SyncDescription(cat, api, s.clock, owner, base.cluster, t[k], k, Get(s.descs, k)).obj.value.spec);
  }

  /** The Description at k that resolved feeds call for, before overrides. */
  ghost predicate CallsFor(cat: Catalog, key: Key, feeds: seq<Feed>, k: Key, template: DescSpec) {
    || (k == HelmKey(key) && ChartKeys(feeds) != [] && template == DescSpec(Helm, ChartKeys(feeds), []))
    || (k == GenericKey(key) && ManifestsOf(cat, feeds) != []
        && template.deployer.Generic? && template.charts == [] && |template.raw| == |ManifestsOf(cat, feeds)|
        && forall i :: 0 <= i < |template.raw| ==> template.raw[i] == ManifestsOf(cat, feeds)[i].raw)
  }

  lemma CallsForIff(cat: Catalog, key: Key, feeds: seq<Feed>, k: Key, template: DescSpec)
    requires AllResolve(cat, feeds)
    ensures Gather(cat, feeds).Gathered?
    ensures CallsFor(cat, key, feeds, k, template)
       <==> k in Templates(key, Gather(cat, feeds)) && Templates(key, Gather(cat, feeds))[k] == template
  {
    GatherAllOrNothing(cat, feeds);
    DifferentKeys(key);
    if k == GenericKey(key) && CallsFor(cat, key, feeds, k, template) {
      assert template == GenericTemplate(ManifestsOf(cat, feeds));
    }
  }

  lemma TemplateAfterPass(cat: Catalog, api: Api, clock: nat, owner: Ref, cluster: string, ts: map<Key, DescSpec>,
                          k: Key, was: Option<Obj<DescSpec>>)
    requires k in ts ==> SyncDescription(cat, api, clock, owner, cluster, ts[k], k, was).done
    requires k !in ts && was.Some? && was.value.owner == Some(owner) && !was.value.deleting ==>
               api(Delete(DescriptionKind, k))
    ensures var o := DescAfter(cat, api, clock, owner, cluster, ts, k, was);
            if k in ts then
              var r := Localizer.Render(cat, k.ns, ts[k]);
              r.Some? &&
              if was.None? then MadeAs(o, clock, owner, cluster, r.value)
              else if was.value.spec == r.value then o == was
              else RewrittenAs(was.value, o, owner, cluster, r.value)
            else if was.Some? && was.value.owner == Some(owner) && !was.value.deleting then DeletedAs(was.value, o)
            else o == was
  {
  }

  /**
   * The Description at k after a pass without error, all feeds resolving: one that is called for is made,
   * left alone if it is rendered the same, or else rewritten, with the Base's cluster; another one of the
   * Base is deleted.
   */
  lemma DescriptionAfterPass(cat: Catalog, api: Api, s: Store, key: Key, base: Obj<seq<Feed>>, k: Key)
    requires AllResolve(cat, base.spec) && PopulateDescriptions(cat, api, s, key, base).done
    ensures var was, o := Get(s.descs, k), Get(PopulateDescriptions(cat, api, s, key, base).store.descs, k);
            var owner := Ref(key, base.born);
            && (forall t :: CallsFor(cat, key, base.spec, k, t) ==>
                  var r := Localizer.Render(cat, k.ns, t);
                  r.Some? &&
                  if was.None? then MadeAs(o, s.clock, owner, base.cluster, r.value)
                  else if was.value.spec == r.value then o == was
                  else RewrittenAs(was.value, o, owner, base.cluster, r.value))
            && ((forall t :: !CallsFor(cat, key, base.spec, k, t)) ==>
                  if was.Some? && was.value.owner == Some(owner) && !was.value.deleting then DeletedAs(was.value, o)
                  else o == was)
  {
    GatherAllOrNothing(cat, base.spec);
    var ts := Templates(key, Gather(cat, base.spec));
    PopulatedDescriptions(cat, api, s, key, base, k);
    TemplateAfterPass(cat, api, s.clock, Ref(key, base.born), base.cluster, ts, k, Get(s.descs, k));
    if k in ts {
      CallsForIff(cat, key, base.spec, k, ts[k]);
    }
    forall t | CallsFor(cat, key, base.spec, k, t) ensures k in ts && ts[k] == t {
      CallsForIff(cat, key, base.spec, k, t);
    }
  }

  /** Then the Description that is called for is in the store as it is rendered. */
  lemma RenderedIsStored(cat: Catalog, api: Api, s: Store, key: Key, base: Obj<seq<Feed>>, k: Key, t: DescSpec)
    requires AllResolve(cat, base.spec) && PopulateDescriptions(cat, api, s, key, base).done
    requires CallsFor(cat, key, base.spec, k, t)
    ensures var descs := PopulateDescriptions(cat, api, s, key, base).store.descs;
            k in descs && Localizer.Render(cat, k.ns, t) == Some(descs[k].spec)
  {
    DescriptionAfterPass(cat, api, s, key, base, k);
  }

  /**
   * From the policy to the store: what a Localization sets is in the Raw of the Base's stored Description
   * after a pass without error, if the other Localizations of at least its priority spare the path.
   */
  lemma LocalizationIsStored(cat: Catalog, api: Api, s: Store, key: Key, base: Obj<seq<Feed>>, k: Key, t: DescSpec,
                             i: int, uid: string, kind: string, p: Policy, n: nat, path: Path)
    requires AllResolve(cat, base.spec) && PopulateDescriptions(cat, api, s, key, base).done
    requires CallsFor(cat, key, base.spec, k, t) && EntryFor(cat, t, i, uid, kind)
    requires p in cat.locs && p.ns == key.ns && Applies(p, uid, kind)
    requires Localizer.LastWriter(cat.libs, p.overrides, n, path)
    requires OtherLocsSpare(cat, key.ns, uid, kind, p, path)
    ensures var descs := PopulateDescriptions(cat, api, s, key, base).store.descs;
            && k in descs && 0 <= i < |descs[k].spec.raw| && descs[k].spec.raw[i].Doc?
            && Lookup(descs[k].spec.raw[i].doc, path) == Lookup(p.overrides[n].value.doc, path)
  {
    RenderedIsStored(cat, api, s, key, base, k, t);
    LocalizationDecides(cat, key.ns, t, i, uid, kind, p, n, path);
  }

  lemma SyncDoneIff(cat: Catalog, api: Api, clock: nat, owner: Ref, cluster: string, template: DescSpec, k: Key,
                    was: Option<Obj<DescSpec>>)
    requires forall c :: api(c)
    ensures SyncDescription(cat, api, clock, owner, cluster, template, k, was).done
       <==> Syncable(cat, k, template, was)
  {
  }

  /** It is rendered, and no Description of its name is deleting. */
  ghost predicate Syncable(cat: Catalog, k: Key, template: DescSpec, was: Option<Obj<DescSpec>>) {
    Localizer.Render(cat, k.ns, template).Some? && (was.Some? ==> !was.value.deleting)
  }

  lemma AllSyncDoneIff(cat: Catalog, api: Api, s: Store, key: Key, base: Obj<seq<Feed>>)
    requires (forall c :: api(c)) && Gather(cat, base.spec).Gathered?
    ensures var ts := Templates(key, Gather(cat, base.spec));
            PopulateDescriptions(cat, api, s, key, base).done <==>
              forall k :: k in ts ==> Syncable(cat, k, ts[k], Get(s.descs, k))
  {
    var ts := Templates(key, Gather(cat, base.spec));
    forall k | k in ts
      ensures SyncDescription(cat, api, s.clock, RefOf(key, base), base.cluster, ts[k], k, Get(s.descs, k)).done
         <==> Syncable(cat, k, ts[k], Get(s.descs, k))
    {
      SyncDoneIff(cat, api, s.clock, RefOf(key, base), base.cluster, ts[k], k, Get(s.descs, k));
    }
  }

  /**
   * With all calls successful there is no error exactly when the feeds end at a chart that was not found,
   * or all resolve, everything that they call for is rendered, and none of it is deleting.
   */
  lemma DescriptionsDoneIff(cat: Catalog, api: Api, s: Store, key: Key, base: Obj<seq<Feed>>)
    requires forall c :: api(c)
    ensures PopulateDescriptions(cat, api, s, key, base).done
       <==> if AllResolve(cat, base.spec) then
              forall k, t :: CallsFor(cat, key, base.spec, k, t) ==> Syncable(cat, k, t, Get(s.descs, k))
            else Gather(cat, base.spec).Skip?
  {
    GatherAllOrNothing(cat, base.spec);
    if AllResolve(cat, base.spec) {
      var ts := Templates(key, Gather(cat, base.spec));
      AllSyncDoneIff(cat, api, s, key, base);
      forall k, t ensures CallsFor(cat, key, base.spec, k, t) <==> k in ts && ts[k] == t {
        CallsForIff(cat, key, base.spec, k, t);
      }
    }
  }

  lemma SyncNeverDeletes(cat: Catalog, api: Api, clock: nat, owner: Ref, cluster: string, template: DescSpec, k: Key,
                         was: Obj<DescSpec>)
    requires !was.deleting
    ensures var o := SyncDescription(cat, api, clock, owner, cluster, template, k, Some(was)).obj;
            o.Some? && !o.value.deleting && o.value.born == was.born
  {
  }

  /** A Description that should exist is not deleted, whatever fails. */
  lemma WantedNeverDeleted(cat: Catalog, api: Api, s: Store, key: Key, base: Obj<seq<Feed>>, k: Key)
    requires Gather(cat, base.spec).Gathered? && k in Templates(key, Gather(cat, base.spec))
    requires k in s.descs && !s.descs[k].deleting
    ensures var o := Get(PopulateDescriptions(cat, api, s, key, base).store.descs, k);
            o.Some? && !o.value.deleting && o.value.born == s.descs[k].born
  {
    var t := Templates(key, Gather(cat, base.spec));
    SyncNeverDeletes(cat, api, s.clock, RefOf(key, base), base.cluster, t[k], k, s.descs[k]);
    assert Get(PopulateDescriptions(cat, api, s, key, base).store.descs, k)
        == DescAfter(cat, api, s.clock, RefOf(key, base), base.cluster, t, k, Get(s.descs, k));
  }

  lemma DescSettles(cat: Catalog, api: Api, api': Api, clock: nat, clock': nat, owner: Ref, cluster: string,
                    t: map<Key, DescSpec>, k: Key, was: Option<Obj<DescSpec>>)
    requires k in t ==> SyncDescription(cat, api, clock, owner, cluster, t[k], k, was).done
    requires k !in t && was.Some? && was.value.owner == Some(owner) && !was.value.deleting ==>
        api(Delete(DescriptionKind, k))
    ensures var o := DescAfter(cat, api, clock, owner, cluster, t, k, was);
            DescAfter(cat, api', clock', owner, cluster, t, k, o) == o && PruneFor(cat, t, k, o) == multiset{}
  {
  }

  lemma DescriptionSettles(cat: Catalog, api: Api, api': Api, s: Store, key: Key, base: Obj<seq<Feed>>, clock: nat,
                           k: Key)
    requires Gather(cat, base.spec).Gathered? && PopulateDescriptions(cat, api, s, key, base).done
    ensures var s' := PopulateDescriptions(cat, api, s, key, base).store.(clock := clock);
            && Get(PopulateDescriptions(cat, api', s', key, base).store.descs, k) == Get(s'.descs, k)
            && PruneFor(cat, Templates(key, Gather(cat, base.spec)), k, Get(s'.descs, k)) == multiset{}
  {
    var s' := PopulateDescriptions(cat, api, s, key, base).store.(clock := clock);
    PopulatedDescriptions(cat, api, s, key, base, k);
    PopulatedDescriptions(cat, api', s', key, base, k);
    DescSettles(cat, api, api', s.clock, clock, RefOf(key, base), base.cluster,
                Templates(key, Gather(cat, base.spec)), k,
                Get(s.descs, k));
  }

  /** After a pass without error another one changes no Description and starts no prune. */
  lemma DescriptionsSettle(cat: Catalog, api: Api, api': Api, s: Store, key: Key, base: Obj<seq<Feed>>, clock: nat)
    requires PopulateDescriptions(cat, api, s, key, base).done
    ensures var s' := PopulateDescriptions(cat, api, s, key, base).store.(clock := clock);
            PopulateDescriptions(cat, api', s', key, base).store == s'
  {
    if Gather(cat, base.spec).Gathered? {
      var s' := PopulateDescriptions(cat, api, s, key, base).store.(clock := clock);
      var again := PopulateDescriptions(cat, api', s', key, base).store;
      forall k ensures Get(again.descs, k) == Get(s'.descs, k) {
        DescriptionSettles(cat, api, api', s, key, base, clock, k);
      }
      SameObjects(again.descs, s'.descs);
      DescriptionSettles(cat, api, api', s, key, base, clock, HelmKey(key));
      DescriptionSettles(cat, api, api', s, key, base, clock, GenericKey(key));
    }
  }

  // ---------------------------------------------------------------- HelmReleases

  /** Chart i is the last whose HelmRelease is k. */
  ghost predicate LastChartOf(desc: Key, charts: seq<Key>, k: Key, i: nat) {
    && i < |charts| && ReleaseKey(desc, charts[i]) == k
    && forall j :: i < j < |charts| ==> ReleaseKey(desc, charts[j]) != k
  }

  /** And no other chart is k's. */
  ghost predicate OnlyChartOf(desc: Key, charts: seq<Key>, k: Key, i: nat) {
    LastChartOf(desc, charts, k, i) && forall j :: 0 <= j < i ==> ReleaseKey(desc, charts[j]) != k
  }

  /** Every chart is the last of its HelmRelease exactly when the charts are free of collisions. */
  lemma OwnReleaseIff(desc: Key, charts: seq<Key>)
    ensures (forall i: nat :: i < |charts| ==> LastChartOf(desc, charts, ReleaseKey(desc, charts[i]), i))
       <==> Releases.CollisionFree(charts)
  {
    Releases.DistinctReleasesIff(desc.name, charts);
    if !Releases.DistinctReleases(desc.name, charts) {
      var i, j :| 0 <= i < j < |charts|
          && Releases.ReleaseName(desc.name, charts[i]) == Releases.ReleaseName(desc.name, charts[j]);
      assert !LastChartOf(desc, charts, ReleaseKey(desc, charts[i]), i);
    }
  }

  /** A release of an older hub keeps its empty release name. */
  ghost predicate ReleaseOf(cat: Catalog, chart: Key, o: Option<Obj<ReleaseSpec>>)
    requires chart in cat.charts
  {
    && o.Some? && !o.value.deleting && o.value.spec.options == cat.charts[chart].options
    && (o.value.spec.releaseName.None? || o.value.spec.releaseName == Some(chart.name))
  }

  lemma {:induction false} LastChartWins(cat: Catalog, api: Api, clock: nat, owner: Ref, cluster: string,
                                         charts: seq<Key>, k: Key, was: Option<Obj<ReleaseSpec>>, i: nat)
    requires (forall c :: c in charts ==> c in cat.charts) && LastChartOf(owner.key, charts, k, i)
    requires SyncCharts(cat, api, clock, owner, cluster, charts, k, was).done
    ensures ReleaseOf(cat, charts[i], SyncCharts(cat, api, clock, owner, cluster, charts, k, was).obj)
  {
    if i < |charts| - 1 {
      LastChartWins(cat, api, clock, owner, cluster, charts[..|charts| - 1], k, was, i);
    }
  }

  /**
   * Without error all charts exist, every HelmRelease of the Description carries the options of the
   * last chart of its name, and those of other names are deleting or gone.
   */
  lemma ReleasesFollowCharts(cat: Catalog, api: Api, s: Store, owner: Ref, cluster: string, charts: seq<Key>)
    requires PopulateReleases(cat, api, s, owner, cluster, charts).done
    ensures forall c :: c in charts ==> c in cat.charts
    ensures var releases := PopulateReleases(cat, api, s, owner, cluster, charts).store.releases;
            && (forall k, i: nat :: LastChartOf(owner.key, charts, k, i) ==>
                ReleaseOf(cat, charts[i], Get(releases, k)))
            && (forall k :: Live(Get(releases, k), owner) ==> k in ReleaseKeys(owner.key, charts))
  {
    KnownExist(cat, charts);
    assert charts[..Known(cat, charts)] == charts;
    var releases := PopulateReleases(cat, api, s, owner, cluster, charts).store.releases;
    forall k, i: nat | LastChartOf(owner.key, charts, k, i) ensures ReleaseOf(cat, charts[i], Get(releases, k)) {
      assert charts[i] in charts;
      LastChartWins(cat, api, s.clock, owner, cluster, charts, k, Get(s.releases, k), i);
    }
    forall k | k !in ReleaseKeys(owner.key, charts) ensures !Live(Get(releases, k), owner) {
      if k in Owned(s.releases, owner) {
        assert api(Delete(ReleaseKind, k));
      }
    }
  }

  /** The HelmRelease of a chart: its options, and its name unless an older hub left that empty. */
  function WantedRelease(cat: Catalog, chart: Key, was: Option<Obj<ReleaseSpec>>): ReleaseSpec
    requires chart in cat.charts
  {
    ReleaseSpec(if was.Some? && was.value.spec.releaseName.None? then None else Some(chart.name),
                cat.charts[chart].options)
  }

  /** Made by the hub for this Description, or as it was, or rewritten for it. */
  ghost predicate ReleaseTaken(was: Option<Obj<ReleaseSpec>>, o: Option<Obj<ReleaseSpec>>, clock: nat, owner: Ref,
                               cluster: string) {
    o.Some? &&
    if was.None? then MadeAs(o, clock, owner, cluster, o.value.spec) && o.value.spec.releaseName.Some?
    else
      && (o == was || RewrittenAs(was.value, o, owner, cluster, o.value.spec))
      && (o.value.spec.releaseName.None? <==> was.value.spec.releaseName.None?)
  }

  lemma ReleaseTakenOnce(cat: Catalog, api: Api, clock: nat, owner: Ref, cluster: string, chart: Key, k: Key,
                         was: Option<Obj<ReleaseSpec>>, before: Option<Obj<ReleaseSpec>>)
    requires chart in cat.charts && (before == was || ReleaseTaken(was, before, clock, owner, cluster))
    requires SyncRelease(cat, api, clock, owner, cluster, chart, k, before).done
    ensures var o := SyncRelease(cat, api, clock, owner, cluster, chart, k, before).obj;
            && ReleaseTaken(was, o, clock, owner, cluster) && o.value.spec == WantedRelease(cat, chart, was)
            && (before == was && was.Some? && was.value.spec == o.value.spec ==> o == was)
  {
    assert {APP_FINALIZER} + {APP_FINALIZER} == {APP_FINALIZER};
    if was.Some? {
      assert was.value.finalizers + {APP_FINALIZER} + {APP_FINALIZER} == was.value.finalizers + {APP_FINALIZER};
    }
  }

  lemma {:induction false} ChartsTaken(cat: Catalog, api: Api, clock: nat, owner: Ref, cluster: string,
                                       charts: seq<Key>,
                                       k: Key, was: Option<Obj<ReleaseSpec>>)
    requires (forall c :: c in charts ==> c in cat.charts)
    requires SyncCharts(cat, api, clock, owner, cluster, charts, k, was).done
    ensures var o := SyncCharts(cat, api, clock, owner, cluster, charts, k, was).obj;
            && (o == was || ReleaseTaken(was, o, clock, owner, cluster))
            && ((forall c :: c in charts ==> ReleaseKey(owner.key, c) != k) ==> o == was)
  {
    if charts != [] {
      var n := |charts| - 1;
      ChartsTaken(cat, api, clock, owner, cluster, charts[..n], k, was);
      if ReleaseKey(owner.key, charts[n]) == k {
        ReleaseTakenOnce(cat, NthApi(api, n), clock, owner, cluster, charts[n], k, was,
                         SyncCharts(cat, api, clock, owner, cluster, charts[..n], k, was).obj);
      }
    }
  }

  lemma {:induction false} LastChartTaken(cat: Catalog, api: Api, clock: nat, owner: Ref, cluster: string,
                                          charts: seq<Key>, k: Key, was: Option<Obj<ReleaseSpec>>, i: nat)
    requires (forall c :: c in charts ==> c in cat.charts) && LastChartOf(owner.key, charts, k, i)
    requires SyncCharts(cat, api, clock, owner, cluster, charts, k, was).done
    ensures var o := SyncCharts(cat, api, clock, owner, cluster, charts, k, was).obj;
            && ReleaseTaken(was, o, clock, owner, cluster) && o.value.spec == WantedRelease(cat, charts[i], was)
            && (OnlyChartOf(owner.key, charts, k, i) && was.Some? && was.value.spec == o.value.spec ==> o == was)
  {
    var n := |charts| - 1;
    if i < n {
      LastChartTaken(cat, api, clock, owner, cluster, charts[..n], k, was, i);
    } else {
      ChartsTaken(cat, api, clock, owner, cluster, charts[..n], k, was);
      ReleaseTakenOnce(cat, NthApi(api, n), clock, owner, cluster, charts[n], k, was,
                       SyncCharts(cat, api, clock, owner, cluster, charts[..n], k, was).obj);
    }
  }

  /**
   * The HelmRelease at k after a pass without error: that of a chart is made, left alone, or rewritten with
   * the Description's cluster, so that it has what the last chart of its name wants, and if no other chart
   * of the list shares the name it is left alone just when it has that already; another one of the
   * Description is deleted.
   */
  lemma ReleaseAfterPass(cat: Catalog, api: Api, s: Store, owner: Ref, cluster: string, charts: seq<Key>, k: Key)
    requires PopulateReleases(cat, api, s, owner, cluster, charts).done
    ensures forall c :: c in charts ==> c in cat.charts
    ensures var was := Get(s.releases, k);
            var o := Get(PopulateReleases(cat, api, s, owner, cluster, charts).store.releases, k);
            && (forall i: nat :: LastChartOf(owner.key, charts, k, i) ==>
                  && ReleaseTaken(was, o, s.clock, owner, cluster)
                  && o.value.spec == WantedRelease(cat, charts[i], was)
                  && (OnlyChartOf(owner.key, charts, k, i) && was.Some? && was.value.spec == o.value.spec ==> o == was))
            && ((forall c :: c in charts ==> ReleaseKey(owner.key, c) != k) ==>
                  if was.Some? && was.value.owner == Some(owner) then DeletedAs(was.value, o) else o == was)
  {
    KnownExist(cat, charts);
    assert charts[..Known(cat, charts)] == charts;
    var was := Get(s.releases, k);
    forall i: nat | LastChartOf(owner.key, charts, k, i)
      ensures var o := SyncCharts(cat, api, s.clock, owner, cluster, charts, k, was).obj;
              && ReleaseTaken(was, o, s.clock, owner, cluster) && o.value.spec == WantedRelease(cat, charts[i], was)
              && (OnlyChartOf(owner.key, charts, k, i) && was.Some? && was.value.spec == o.value.spec ==> o == was)
      ensures k in ReleaseKeys(owner.key, charts)
    {
      assert charts[i] in charts;
      LastChartTaken(cat, api, s.clock, owner, cluster, charts, k, was, i);
    }
    if (forall c :: c in charts ==> ReleaseKey(owner.key, c) != k) && k in Owned(s.releases, owner) {
      assert k in Owned(s.releases, owner) - ReleaseKeys(owner.key, charts);
      assert api(Delete(ReleaseKind, k));
    }
  }

  lemma KnownAll(cat: Catalog, charts: seq<Key>)
    ensures Known(cat, charts) == |charts| <==> forall c :: c in charts ==> c in cat.charts
  {
  }

  /** A chart that does not exist stops the pass before anything is deleted. */
  lemma MissingChartDeletesNothing(cat: Catalog, api: Api, s: Store, owner: Ref, cluster: string, charts: seq<Key>,
                                   k: Key)
    requires exists c :: c in charts && c !in cat.charts
    requires k in s.releases && !s.releases[k].deleting
    ensures var out := PopulateReleases(cat, api, s, owner, cluster, charts);
            !out.done && k in out.store.releases && !out.store.releases[k].deleting
  {
    KnownAll(cat, charts);
    KnownExist(cat, charts);
    var n := Known(cat, charts);
    SyncChartsKeeps(cat, api, s.clock, owner, cluster, charts[..n], k, Get(s.releases, k));
  }

  lemma {:induction false} SyncChartsKeeps(cat: Catalog, api: Api, clock: nat, owner: Ref, cluster: string,
                                           charts: seq<Key>, k: Key, was: Option<Obj<ReleaseSpec>>)
    requires (forall c :: c in charts ==> c in cat.charts) && was.Some? && !was.value.deleting
    ensures var o := SyncCharts(cat, api, clock, owner, cluster, charts, k, was).obj;
            o.Some? && !o.value.deleting
  {
    if charts != [] {
      SyncChartsKeeps(cat, api, clock, owner, cluster, charts[..|charts| - 1], k, was);
    }
  }
}
