/**
 * What each handler of the hub does to the store, as a function of the store, the listers' other
 * objects and the calls that succeed (pkg/hub/deployer, its subpackages, and pkg/utils/deployer.go).
 */
module Propagation {
  import opened Collections
  import opened Json
  import opened Feeds
  import opened Catalog
  import opened ObjectStore
  import Localizer
  import Releases

  /** `done` when the handler returns no error. */
  datatype Outcome = Outcome(store: Store, done: bool)

  /** One object after a sync, and whether that sync returned no error. */
  datatype Synced<+S> = Synced(obj: Option<Obj<S>>, done: bool)

  function RefOf<S>(key: Key, o: Obj<S>): Ref {
    Ref(key, o.born)
  }

  // ---------------------------------------------------------------- common steps

  /** The controllers add the finalizer to a live object before they handle it; None when that fails. */
  function Protected<S>(api: Api, kind: Kind, key: Key, o: Obj<S>): Option<Obj<S>> {
    if o.deleting || APP_FINALIZER in o.finalizers then Some(o)
    else if api(Inject(kind, key)) then Some(o.(finalizers := o.finalizers + {APP_FINALIZER}))
    else None
  }

  /** Subscriptions and Bases are then labelled with their own UID, even when they are deleting. */
  function Labelled<S>(api: Api, kind: Kind, key: Key, o: Obj<S>): Option<Obj<S>> {
    if o.selfLabelled then Some(o)
    else if api(SelfLabel(kind, key)) then Some(o.(selfLabelled := true))
    else None
  }

  /** For which objects a deletion succeeds. */
  function Deletes(api: Api, kind: Kind): Key -> bool {
    (k: Key) => api(Delete(kind, k))
  }

  /** Delete the objects of an owner that are not yet deleting. */
  function MarkOwned<S>(m: Objects<S>, r: Ref, api: Key -> bool): (after: Objects<S>)
    ensures forall k :: Get(after, k) == MarkOne(k, Get(m, k), r, api)
  {
    Mapped(m, {}, (k: Key, o: Option<Obj<S>>) => MarkOne(k, o, r, api))
  }

  function MarkOne<S>(k: Key, o: Option<Obj<S>>, r: Ref, api: Key -> bool): Option<Obj<S>> {
    if o.Some? && o.value.owner == Some(r) && !o.value.deleting && api(k) then Marked(o.value) else o
  }

  /** What a sync writes over a live object whose spec differs. */
  function Rewritten<S>(cur: Obj<S>, owner: Ref, cluster: string, spec: S): Obj<S> {
    cur.(owner := Some(owner), cluster := cluster, spec := spec, finalizers := cur.finalizers + {APP_FINALIZER})
  }

  function Created<S>(clock: nat, owner: Ref, cluster: string, spec: S): Obj<S> {
    ObjectStore.Obj.Obj(clock, false, {APP_FINALIZER}, Some(owner), cluster, false, spec)
  }

  // ---------------------------------------------------------------- Subscriptions

  /** cache.SplitMetaNamespaceKey; no slash means no namespace. */
  function SplitKey(s: string): Option<(string, string)> {
    if Count(s, '/') == 0 then Some(("", s))
    else if Count(s, '/') == 1 then Some((Before(s, '/'), After(s, '/')))
    else None
  }

  predicate BindingsValid(bindings: seq<string>) {
    forall b :: b in bindings ==> SplitKey(b).Some?
  }

  function BaseKey(cat: Catalog, name: string, binding: string): Option<Key> {
    var k := SplitKey(binding);
    if k.Some? && k.value.0 in cat.namespaces then Some(Key(k.value.0, name)) else None
  }

  /** The Bases of a Subscription: one, of its name, in each existing namespace of its binding clusters. */
  function BaseKeys(cat: Catalog, name: string, bindings: seq<string>): set<Key> {
    set b | b in bindings && BaseKey(cat, name, b).Some? :: BaseKey(cat, name, b).value
  }

  /** The cluster ID that the labels of a namespace give, over what was there. */
  function ClusterOf(cat: Catalog, ns: string, before: string): string {
    if ns in cat.namespaces && cat.namespaces[ns].Some? then cat.namespaces[ns].value else before
  }

  function SyncBase(cat: Catalog, api: Api, clock: nat, owner: Ref, feeds: seq<Feed>, k: Key,
                    was: Option<Obj<seq<Feed>>>)
    : Synced<seq<Feed>>
  {
    match was
    case None =>
      if api(Create(BaseKind, k)) then Synced(Some(Created(clock, owner, ClusterOf(cat, k.ns, ""), feeds)), true)
      else Synced(None, false)
    case Some(cur) =>
      if cur.deleting then Synced(was, false)
      else if cur.spec == feeds then Synced(was, true)
      else if api(Update(BaseKind, k))
          then Synced(Some(Rewritten(cur, owner, ClusterOf(cat, k.ns, cur.cluster), feeds)), true)
      else Synced(was, false)
  }

  /** The Base of a key after its bindings were synced one after the other. */
  function SyncBindings(cat: Catalog, api: Api, clock: nat, owner: Ref, feeds: seq<Feed>, bindings: seq<string>, k: Key,
                        was: Option<Obj<seq<Feed>>>): Synced<seq<Feed>>
  {
    if bindings == [] then Synced(was, true)
    else
      var n := |bindings| - 1;
      var before := SyncBindings(cat, api, clock, owner, feeds, bindings[..n], k, was);
      if BaseKey(cat, owner.key.name, bindings[n]) != Some(k) then before
      else
        var r := SyncBase(cat, NthApi(api, n), clock, owner, feeds, k, before.obj);
        Synced(r.obj, before.done && r.done)
  }

  /** However many bindings a Base has, it is left as it is or synced once. */
  lemma {:induction false} BindingsSync(cat: Catalog, api: Api, clock: nat, owner: Ref, feeds: seq<Feed>,
                                        bindings: seq<string>, k: Key, was: Option<Obj<seq<Feed>>>)
    ensures var r := SyncBindings(cat, api, clock, owner, feeds, bindings, k, was);
            var one := SyncBase(cat, ALL_SUCCEED, clock, owner, feeds, k, was);
            && (r.obj == was || r.obj == one.obj)
            && (k in BaseKeys(cat, owner.key.name, bindings) && r.done ==> r == one)
            && (k !in BaseKeys(cat, owner.key.name, bindings) ==> r == Synced(was, true))
            && ((forall c :: api(c)) && one.done ==> r.done)
  {
    if bindings != [] {
      var front, last := bindings[..|bindings| - 1], bindings[|bindings| - 1];
      assert bindings == front + [last];
      BindingsSync(cat, api, clock, owner, feeds, front, k, was);
    }
  }

  /** deleteBase takes the label off the Base's feeds first. */
  predicate DeletesBase(api: Api, k: Key) {
    api(UnlabelFeeds(BaseKind, k)) && api(Delete(BaseKind, k))
  }

  function DeletesBases(api: Api): Key -> bool {
    (k: Key) => DeletesBase(api, k)
  }

  function BaseAfter(cat: Catalog, api: Api, clock: nat, owner: Ref, spec: SubSpec, k: Key, was: Option<Obj<seq<Feed>>>)
    : Option<Obj<seq<Feed>>>
  {
    if k in BaseKeys(cat, owner.key.name, spec.bindings) then
      SyncBindings(cat, api, clock, owner, spec.feeds, spec.bindings, k, was).obj
    else if was.Some? && was.value.owner == Some(owner) && DeletesBase(api, k) then Marked(was.value)
    else was
  }

  function PopulateBases(cat: Catalog, api: Api, s: Store, owner: Ref, spec: SubSpec): (r: Outcome)
    ensures r.store == s.(bases := r.store.bases)
  {
    var keys := BaseKeys(cat, owner.key.name, spec.bindings);
    Outcome(
      s.(bases := Mapped(s.bases, keys,
                         (k: Key, o: Option<Obj<seq<Feed>>>) => BaseAfter(cat, api, s.clock, owner, spec, k, o))),
      && BindingsValid(spec.bindings)
      && (forall k :: k in keys ==>
          SyncBindings(cat, api, s.clock, owner, spec.feeds, spec.bindings, k, Get(s.bases, k)).done)
      && (forall k :: k in Owned(s.bases, owner) - keys ==> DeletesBase(api, k)))
  }

  /** A deleting Subscription waits until it has no Bases, and then gives up its finalizer. */
  function OffloadSubscription(api: Api, s: Store, key: Key): (r: Outcome)
    requires key in s.subs
    ensures r.store == s.(subs := r.store.subs, bases := r.store.bases)
    ensures r.store.subs == s.subs || r.store.subs == Put(s.subs, key, Unprotected(s.subs[key]))
  {
    var owner := RefOf(key, s.subs[key]);
    if Owned(s.bases, owner) != {} then
      Outcome(s.(bases := MarkOwned(s.bases, owner, DeletesBases(api))), false)
    else if api(UnlabelFeeds(SubscriptionKind, key)) && api(Unprotect(SubscriptionKind, key)) then
      Outcome(s.(subs := Put(s.subs, key, Unprotected(s.subs[key]))), true)
    else Outcome(s, false)
  }

  function ProcessSubscription(cat: Catalog, api: Api, s: Store, key: Key): (r: Outcome)
    requires key in s.subs
    ensures r.store == s.(subs := r.store.subs, bases := r.store.bases)
    ensures r.store.subs == s.subs || r.store.subs == Put(s.subs, key, Unprotected(s.subs[key]))
  {
    if s.subs[key].deleting then OffloadSubscription(api, s, key)
    else PopulateBases(cat, api, s, RefOf(key, s.subs[key]), s.subs[key].spec)
  }

  function HandleSubscription(cat: Catalog, api: Api, s: Store, key: Key): (r: Outcome)
    ensures r.store == s.(subs := r.store.subs, bases := r.store.bases)
  {
    if key !in s.subs then Outcome(s, true)
    else
      var sub := Protected(api, SubscriptionKind, key, s.subs[key]);
      if sub.None? then Outcome(s, false)
      else
        var labelled := Labelled(api, SubscriptionKind, key, sub.value);
        if labelled.None? then Outcome(s.(subs := s.subs[key := sub.value]), false)
        else
          ProcessSubscription(cat, api, s.(subs := s.subs[key := labelled.value]), key)
  }

  // ---------------------------------------------------------------- Bases

  /** The feeds as they are resolved: charts and manifests in order, or the first reason not to go on. */
  datatype Gathered = Gathered(charts: seq<Key>, manifests: seq<Manifest>) | Skip | Fail

  /** Resolving one feed after those before it. */
  function GatherOne(cat: Catalog, before: Gathered, feed: Feed): Gathered {
    if !before.Gathered? then before
    else if feed.kind == Localizer.HELM_CHART then
      var k := Key(feed.ns, feed.name);
      if k !in cat.charts || cat.charts[k].phase.Verifying? then Fail
      else if cat.charts[k].phase.ChartNotFound? then Skip
      else Gathered(before.charts + [k], before.manifests)
    else
      var ms := ListManifests(cat, feed);
      if ms.None? || ms.value == [] then Fail else Gathered(before.charts, before.manifests + ms.value)
  }

  function Gather(cat: Catalog, feeds: seq<Feed>): Gathered {
    if feeds == [] then Gathered([], [])
    else GatherOne(cat, Gather(cat, feeds[..|feeds| - 1]), feeds[|feeds| - 1])
  }

  function HelmKey(base: Key): Key {
    Key(base.ns, base.name + "-helm")
  }

  function GenericKey(base: Key): Key {
    Key(base.ns, base.name + "-generic")
  }

  lemma DifferentKeys(key: Key)
    ensures HelmKey(key) != GenericKey(key)
  {
    assert |HelmKey(key).name| == |key.name| + 5 && |GenericKey(key).name| == |key.name| + 8;
  }

  function HelmTemplate(charts: seq<Key>): DescSpec {
    DescSpec(Helm, charts, [])
  }

  function GenericTemplate(manifests: seq<Manifest>): DescSpec {
    DescSpec(Generic, [], seq(|manifests|, i requires 0 <= i < |manifests| => manifests[i].raw))
  }

  /** The Descriptions that gathered feeds call for, before overrides. */
  function Templates(base: Key, g: Gathered): map<Key, DescSpec>
    requires g.Gathered?
  {
    (if g.charts == [] then map[] else map[HelmKey(base) := HelmTemplate(g.charts)])
    + (if g.manifests == [] then map[] else map[GenericKey(base) := GenericTemplate(g.manifests)])
  }

  function SyncDescription(cat: Catalog, api: Api, clock: nat, owner: Ref, cluster: string, template: DescSpec, k: Key,
                           was: Option<Obj<DescSpec>>): Synced<DescSpec>
  {
    var r := Localizer.Render(cat, k.ns, template);
    if r.None? then Synced(was, false)
    else
      match was
      case None =>
        if api(Create(DescriptionKind, k)) then Synced(Some(Created(clock, owner, cluster, r.value)), true)
        else Synced(None, false)
      case Some(cur) =>
        if cur.deleting then Synced(was, false)
        else if cur.spec == r.value then Synced(was, true)
        else if api(Update(DescriptionKind, k)) then Synced(Some(Rewritten(cur, owner, cluster, r.value)), true)
        else Synced(was, false)
  }

  /** The prune that a sync starts before it updates a Description whose spec differs. */
  function PruneFor(cat: Catalog, templates: map<Key, DescSpec>, k: Key, was: Option<Obj<DescSpec>>): multiset<Prune> {
    if k !in templates then multiset{}
    else
      var r := Localizer.Render(cat, k.ns, templates[k]);
      if r.None? || was.None? || was.value.deleting || was.value.spec == r.value then multiset{}
      else multiset{Prune(k.ns, was.value.spec, r.value)}
  }

  function DescAfter(cat: Catalog, api: Api, clock: nat, owner: Ref, cluster: string, templates: map<Key, DescSpec>,
                     k: Key, was: Option<Obj<DescSpec>>): Option<Obj<DescSpec>>
  {
    if k in templates then SyncDescription(cat, api, clock, owner, cluster, templates[k], k, was).obj
    else MarkOne(k, was, owner, Deletes(api, DescriptionKind))
  }

  function PopulateDescriptions(cat: Catalog, api: Api, s: Store, key: Key, base: Obj<seq<Feed>>): (r: Outcome)
    ensures r.store == s.(descs := r.store.descs, prunes := r.store.prunes)
  {
    var g := Gather(cat, base.spec);
    if !g.Gathered? then Outcome(s, g.Skip?)
    else
      var t, owner := Templates(key, g), RefOf(key, base);
      Outcome(
        s.(descs := Mapped(s.descs, t.Keys,
             (k: Key, o: Option<Obj<DescSpec>>) => DescAfter(cat, api, s.clock, owner, base.cluster, t, k, o)),
           prunes := s.prunes
             + PruneFor(cat, t, HelmKey(key), Get(s.descs, HelmKey(key)))
             + PruneFor(cat, t, GenericKey(key), Get(s.descs, GenericKey(key)))),
        && (forall k :: k in t ==>
              SyncDescription(cat, api, s.clock, owner, base.cluster, t[k], k, Get(s.descs, k)).done)
        && (forall k :: k in Owned(s.descs, owner) - t.Keys && !s.descs[k].deleting ==>
            api(Delete(DescriptionKind, k))))
  }

  /** A deleting Base waits until it has no Descriptions. */
  function OffloadBase(api: Api, s: Store, key: Key): (r: Outcome)
    requires key in s.bases
    ensures r.store == s.(bases := r.store.bases, descs := r.store.descs)
  {
    var owner := RefOf(key, s.bases[key]);
    if Owned(s.descs, owner) != {} then
      Outcome(s.(descs := MarkOwned(s.descs, owner, Deletes(api, DescriptionKind))), false)
    else if api(Unprotect(BaseKind, key)) then
      Outcome(s.(bases := Put(s.bases, key, Unprotected(s.bases[key]))), true)
    else Outcome(s, false)
  }

  function ProcessBase(cat: Catalog, api: Api, s: Store, key: Key): (r: Outcome)
    requires key in s.bases
    ensures r.store == s.(bases := r.store.bases, descs := r.store.descs, prunes := r.store.prunes)
  {
    if s.bases[key].deleting then OffloadBase(api, s, key)
    else if !api(LabelFeeds(key)) then Outcome(s, false)
    else PopulateDescriptions(cat, api, s, key, s.bases[key])
  }

  function HandleBase(cat: Catalog, api: Api, s: Store, key: Key): (r: Outcome)
    ensures r.store == s.(bases := r.store.bases, descs := r.store.descs, prunes := r.store.prunes)
  {
    if key !in s.bases then Outcome(s, true)
    else
      var base := Protected(api, BaseKind, key, s.bases[key]);
      if base.None? then Outcome(s, false)
      else
        var labelled := Labelled(api, BaseKind, key, base.value);
        if labelled.None? then Outcome(s.(bases := s.bases[key := base.value]), false)
        else
          ProcessBase(cat, api, s.(bases := s.bases[key := labelled.value]), key)
  }

  /** A changed feed renders the Base that carries its own UID label again, whether or not it is deleting. */
  function ResyncBase(cat: Catalog, api: Api, s: Store, key: Key): Outcome {
    if key in s.bases && s.bases[key].selfLabelled then PopulateDescriptions(cat, api, s, key, s.bases[key])
    else Outcome(s, true)
  }

  // ---------------------------------------------------------------- helm Descriptions

  /** The number of leading charts that exist. */
  function Known(cat: Catalog, charts: seq<Key>): (n: nat)
    ensures n <= |charts|
  {
    if charts == [] then 0
    else
      var n := Known(cat, charts[..|charts| - 1]);
      if n == |charts| - 1 && charts[n] in cat.charts then n + 1 else n
  }

  function ReleaseKey(desc: Key, chart: Key): Key {
    Key(desc.ns, Releases.ReleaseName(desc.name, chart))
  }

  /** handleHelmRelease for a live HelmRelease, which writes nothing to the store. */
  predicate Reconciles(cat: Catalog, api: Api, k: Key, cluster: string) {
    match DeployableByHub(cat, k.ns, cluster)
    case Undecided => false
    case ByAgent => true
    case ByHub => api(Connect(k.ns)) && api(Install(k))
  }

  function SyncRelease(cat: Catalog, api: Api, clock: nat, owner: Ref, cluster: string, chart: Key, k: Key,
                       was: Option<Obj<ReleaseSpec>>): Synced<ReleaseSpec>
    requires chart in cat.charts
  {
    var spec := ReleaseSpec(Some(chart.name), cat.charts[chart].options);
    match was
    case None =>
      if api(Create(ReleaseKind, k)) then Synced(Some(Created(clock, owner, cluster, spec)), true)
          else Synced(None, false)
    case Some(cur) =>
      var want := if cur.spec.releaseName.None? then spec.(releaseName := None) else spec;
      if cur.deleting then Synced(was, false)
      else if cur.spec == want then Synced(was, Reconciles(cat, api, k, cur.cluster))
      else if api(Update(ReleaseKind, k)) then Synced(Some(Rewritten(cur, owner, cluster, want)), true)
      else Synced(was, false)
  }

  /** The HelmRelease of a key after its charts were synced one after the other. */
  function SyncCharts(cat: Catalog, api: Api, clock: nat, owner: Ref, cluster: string, charts: seq<Key>, k: Key,
                      was: Option<Obj<ReleaseSpec>>): Synced<ReleaseSpec>
    requires forall c :: c in charts ==> c in cat.charts
  {
    if charts == [] then Synced(was, true)
    else
      var n := |charts| - 1;
      var before := SyncCharts(cat, api, clock, owner, cluster, charts[..n], k, was);
      if ReleaseKey(owner.key, charts[n]) != k then before
      else
        var r := SyncRelease(cat, NthApi(api, n), clock, owner, cluster, charts[n], k, before.obj);
        Synced(r.obj, before.done && r.done)
  }

  function ReleaseKeys(desc: Key, charts: seq<Key>): set<Key> {
    set c | c in charts :: ReleaseKey(desc, c)
  }

  lemma {:induction false} KnownExist(cat: Catalog, charts: seq<Key>)
    ensures forall i :: 0 <= i < Known(cat, charts) ==> charts[i] in cat.charts
    ensures Known(cat, charts) < |charts| ==> charts[Known(cat, charts)] !in cat.charts
  {
    if charts != [] {
      KnownExist(cat, charts[..|charts| - 1]);
    }
  }

  /** A missing chart ends the handler: the charts before it are synced, and nothing is deleted. */
  function PopulateReleases(cat: Catalog, api: Api, s: Store, owner: Ref, cluster: string, all: seq<Key>): (r: Outcome)
    ensures r.store == s.(releases := r.store.releases)
  {
    KnownExist(cat, all);
    var charts := all[..Known(cat, all)];
    var keys, complete := ReleaseKeys(owner.key, charts), |charts| == |all|;
    Outcome(
      s.(releases := Mapped(s.releases, keys, (k: Key, o: Option<Obj<ReleaseSpec>>) =>
           ReleaseAfter(cat, api, s.clock, owner, cluster, charts, complete, k, o))),
      && complete
      && (forall k :: k in keys ==> SyncCharts(cat, api, s.clock, owner, cluster, charts, k, Get(s.releases, k)).done)
      && (forall k :: k in Owned(s.releases, owner) - keys ==> api(Delete(ReleaseKind, k))))
  }

  function ReleaseAfter(cat: Catalog, api: Api, clock: nat, owner: Ref, cluster: string, charts: seq<Key>,
                        complete: bool, k: Key, was: Option<Obj<ReleaseSpec>>): Option<Obj<ReleaseSpec>>
  {
    if forall c :: c in charts ==> c in cat.charts then
      if k in ReleaseKeys(owner.key, charts) then SyncCharts(cat, api, clock, owner, cluster, charts, k, was).obj
      else if complete && was.Some? && was.value.owner == Some(owner) && api(Delete(ReleaseKind, k))
          then Marked(was.value)
      else was
    else was
  }

  /** A deleting helm Description waits until it has no HelmReleases. */
  function OffloadReleases(api: Api, s: Store, key: Key): (r: Outcome)
    requires key in s.descs
    ensures r.store == s.(descs := r.store.descs, releases := r.store.releases)
  {
    var owner := RefOf(key, s.descs[key]);
    if Owned(s.releases, owner) != {} then
      Outcome(s.(releases := MarkOwned(s.releases, owner, Deletes(api, ReleaseKind))), false)
    else if api(Unprotect(DescriptionKind, key)) then
      Outcome(s.(descs := Put(s.descs, key, Unprotected(s.descs[key]))), true)
    else Outcome(s, false)
  }

  function HandleHelm(cat: Catalog, api: Api, s: Store, key: Key): (r: Outcome)
    requires key in s.descs
    ensures r.store == s.(descs := r.store.descs, releases := r.store.releases)
  {
    var d := s.descs[key];
    var clusters := MatchingClusters(cat, key.ns, d.cluster);
    if clusters == [] then Outcome(s, false)
    else if !clusters[0].appPusher then Outcome(s, true)
    else if d.deleting then OffloadReleases(api, s, key)
    else PopulateReleases(cat, api, s, RefOf(key, d), d.cluster, d.spec.charts)
  }

  /** A deleting HelmRelease is uninstalled, unless its cluster is lost, and then gives up its finalizer. */
  function HandleRelease(cat: Catalog, api: Api, s: Store, key: Key): (r: Outcome)
    ensures r.store == s.(releases := r.store.releases)
  {
    if key !in s.releases then Outcome(s, true)
    else
      var hr := Protected(api, ReleaseKind, key, s.releases[key]);
      if hr.None? then Outcome(s, false)
      else
        var h, s' := hr.value, s.(releases := s.releases[key := hr.value]);
        var gone := s'.(releases := Put(s'.releases, key, Unprotected(h)));
        if h.deleting && IsClusterLost(cat, key.ns, h.cluster) then
          if api(Unprotect(ReleaseKind, key)) then Outcome(gone, true) else Outcome(s', false)
        else if !h.deleting then Outcome(s', Reconciles(cat, api, key, h.cluster))
        else
          match DeployableByHub(cat, key.ns, h.cluster)
          case Undecided => Outcome(s', false)
          case ByAgent => Outcome(s', true)
          case ByHub =>
            if api(Connect(key.ns)) && api(Uninstall(key)) && api(Unprotect(ReleaseKind, key)) then Outcome(gone, true)
            else Outcome(s', false)
  }

  // ---------------------------------------------------------------- generic Descriptions

  function SetChildren(s: Store, ns: string, ids: set<ObjId>): Store {
    s.(children := s.children[ns := ids])
  }

  function Applied(api: Api, ns: string, raw: seq<Raw>): set<ObjId> {
    set id | id in Ids(raw) && Acceptable(id) && api(Apply(ns, id))
  }

  predicate Removes(api: Api, ns: string, id: ObjId) {
    id.group.Some? && api(Remove(ns, id))
  }

  function Removed(api: Api, ns: string, ids: set<ObjId>): set<ObjId> {
    set id | id in ids && Removes(api, ns, id)
  }

  function InCluster(ns: string, ids: set<ObjId>): set<(string, ObjId)> {
    set id | id in ids :: (ns, id)
  }

  /** What is applied again is no longer abandoned. */
  function ApplyDescription(api: Api, s: Store, key: Key): (r: Outcome)
    requires key in s.descs
    ensures r.store == s.(children := r.store.children, abandoned := r.store.abandoned)
  {
    var raw := s.descs[key].spec.raw;
    var applied := Applied(api, key.ns, raw);
    Outcome(
      SetChildren(s, key.ns, ChildrenOf(s, key.ns) + applied).(abandoned := s.abandoned - InCluster(key.ns, applied)),
      AllParse(raw) && applied == Ids(raw) && api(ReportStatus(key)))
  }

  /** The finalizer goes only when every object parsed and was removed. */
  function OffloadDescription(api: Api, s: Store, key: Key): (r: Outcome)
    requires key in s.descs
    ensures r.store == s.(children := r.store.children, descs := r.store.descs)
    ensures r.store.descs == s.descs || r.store.descs == Put(s.descs, key, Unprotected(s.descs[key]))
  {
    var raw := s.descs[key].spec.raw;
    var s' := SetChildren(s, key.ns, ChildrenOf(s, key.ns) - Removed(api, key.ns, Ids(raw)));
    if AllParse(raw) && Removed(api, key.ns, Ids(raw)) == Ids(raw) && api(Unprotect(DescriptionKind, key)) then
      Outcome(s'.(descs := Put(s'.descs, key, Unprotected(s'.descs[key]))), true)
    else Outcome(s', false)
  }

  function HandleGeneric(cat: Catalog, api: Api, s: Store, key: Key): (r: Outcome)
    requires key in s.descs
    ensures r.store == s.(children := r.store.children, descs := r.store.descs, abandoned := r.store.abandoned)
    ensures r.store.descs == s.descs || r.store.descs == Put(s.descs, key, Unprotected(s.descs[key]))
  {
    var d := s.descs[key];
    match DeployableByHub(cat, key.ns, d.cluster)
    case Undecided => Outcome(s, false)
    case ByAgent => Outcome(s, true)
    case ByHub =>
      if d.deleting && IsClusterLost(cat, key.ns, d.cluster) then
        if api(Unprotect(DescriptionKind, key)) then
          Outcome(s.(descs := Put(s.descs, key, Unprotected(d)),
                     abandoned := s.abandoned + InCluster(key.ns, Ids(d.spec.raw))), true)
        else Outcome(s, false)
      else if !api(Connect(key.ns)) then Outcome(s, false)
      else if d.deleting then OffloadDescription(api, s, key)
      else ApplyDescription(api, s, key)
  }

  function HandleDescription(cat: Catalog, api: Api, s: Store, key: Key): (r: Outcome)
    ensures r.store.subs == s.subs && r.store.bases == s.bases && r.store.prunes == s.prunes
  {
    if key !in s.descs then Outcome(s, true)
    else
      var desc := Protected(api, DescriptionKind, key, s.descs[key]);
      if desc.None? then Outcome(s, false)
      else
        var s' := s.(descs := s.descs[key := desc.value]);
        match desc.value.spec.deployer
        case Helm => HandleHelm(cat, api, s', key)
        case Generic => HandleGeneric(cat, api, s', key)
        case Other => Outcome(s', true)
  }

  /** The objects of the current Raw whose printed name no desired object has. */
  function PruneIds(p: Prune): set<ObjId> {
    set id | id in Ids(p.current.raw) && !(exists d :: d in Ids(p.desired.raw) && ResourceName(d) == ResourceName(id))
  }

  /** One attempt of a started prune, which is retried while it returns an error. */
  function RunPrune(api: Api, s: Store, p: Prune): (r: Outcome)
    ensures r.store == s.(children := r.store.children, prunes := r.store.prunes)
  {
    if p !in s.prunes then Outcome(s, true)
    else if p.desired.deployer.Helm? then Outcome(s.(prunes := s.prunes - multiset{p}), true)
    else if !api(Connect(p.ns)) then Outcome(s, false)
    else
      var removed := Removed(api, p.ns, PruneIds(p));
      var s' := SetChildren(s, p.ns, ChildrenOf(s, p.ns) - removed);
      if AllParse(p.current.raw) && AllParse(p.desired.raw) && removed == PruneIds(p) then
        Outcome(s'.(prunes := s'.prunes - multiset{p}), true)
      else Outcome(s', false)
  }
}
