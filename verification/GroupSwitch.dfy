/** A run that leaks: a Subscription goes over to an object of another API group that prints like its old one. */
module GroupSwitch {
  import opened Collections
  import opened Json
  import opened Feeds
  import opened Catalog
  import opened ObjectStore
  import opened Propagation
  import opened Runs
  import opened NoLeaks
  import Localizer

  // ---------------------------------------------------------------- two manifests

  const VERSION: string := "v1"

  /** The API version of a group; the core group has no name. */
  function VersionOf(group: string): string {
    if group == "" then VERSION else group + ['/'] + VERSION
  }

  lemma VersionParses(group: string)
    requires '/' !in group
    ensures ParseGroupVersion(VersionOf(group)) == Some((group, VERSION))
  {
    ParsesApiVersion(group, VERSION);
  }

  function ServiceOf(group: string): Json {
    Json.Obj(map["kind" := Str("Service"), "apiVersion" := Str(VersionOf(group)),
            "metadata" := Json.Obj(map["namespace" := Str("default"), "name" := Str("web")])])
  }

  function WebOf(group: string): ObjId {
    ObjId(Some(group), "Service", "default", "web")
  }

  function FeedFor(group: string): Feed {
    Feed("Service", VersionOf(group), "default", "web")
  }

  function LabelsFor(group: string): Labels {
    map[CONFIG_GROUP := group, CONFIG_VERSION := VERSION, CONFIG_KIND := "Service", CONFIG_NAME := "web",
        CONFIG_NAMESPACE := "default"]
  }

  function ManifestFor(group: string): Manifest {
    Manifest("uid", LabelsFor(group), Doc(ServiceOf(group)))
  }

  /** The two manifests, and one cluster that the hub pushes to. */
  function TwoManifests(group: string, libs: Libraries): Catalog {
    Snapshot(map[], [ManifestFor(""), ManifestFor(group)], [], [], map["cluster" := Some("id")],
             map["cluster" := [ManagedCluster("id", Push, true, false)]], libs)
  }

  lemma SelectsItsGroup(g: string)
    requires '/' !in g
    ensures SelectorFromFeed(FeedFor(g)) == Some(LabelsFor(g))
    ensures Parse(Doc(ServiceOf(g))) == Some(WebOf(g)) && FeedOf(ServiceOf(g)) == FeedFor(g)
  {
    VersionParses(g);
  }

  lemma LabelsDiffer(g: string, h: string)
    ensures Matches(LabelsFor(g), LabelsFor(h)) <==> g == h
  {
    assert |CONFIG_GROUP| == 31 && |CONFIG_VERSION| == 33 && |CONFIG_NAMESPACE| == 35;
    assert LabelsFor(g)[CONFIG_GROUP] == g && LabelsFor(h)[CONFIG_GROUP] == h;
  }

  lemma OneIsListed(group: string, libs: Libraries, g: string)
    requires '/' !in group && group != "" && g in {"", group}
    ensures ListManifests(TwoManifests(group, libs), FeedFor(g)) == Some([ManifestFor(g)])
  {
    SelectsItsGroup(g);
    var p := Selects(LabelsFor(g));
    var ms := [ManifestFor(""), ManifestFor(group)];
    LabelsDiffer(g, "");
    LabelsDiffer(g, group);
    assert ms[..1] == [ms[0]] && ms[..1][..0] == [];
    assert Selected(ms[..1], p) == if g == "" then [ms[0]] else [];
    assert Selected(ms, p) == Selected(ms[..1], p) + (if g == "" then [] else [ms[1]]) == [ManifestFor(g)];
    assert TwoManifests(group, libs).manifests == ms;
  }

  function SpecOf(g: string): DescSpec {
    DescSpec(Generic, [], [Doc(ServiceOf(g))])
  }

  lemma OneIsGathered(group: string, libs: Libraries, g: string, k: Key)
    requires '/' !in group && group != "" && g in {"", group}
    ensures var gathered := Gather(TwoManifests(group, libs), [FeedFor(g)]);
            gathered == Gathered([], [ManifestFor(g)]) && Templates(k, gathered) == map[GenericKey(k) := SpecOf(g)]
  {
    OneIsListed(group, libs, g);
    assert [FeedFor(g)][..0] == [];
    assert [] + [ManifestFor(g)] == [ManifestFor(g)];
    assert GenericTemplate([ManifestFor(g)]).raw == [Doc(ServiceOf(g))];
    assert Templates(k, Gathered([], [ManifestFor(g)])) == map[GenericKey(k) := GenericTemplate([ManifestFor(g)])];
  }

  lemma NothingOverrides(cat: Catalog, uid: string)
    requires cat.globs == [] && cat.locs == []
    ensures Localizer.Overrides(Localizer.Stages(cat, "cluster", uid, "Service")) == []
  {
    assert Localizer.Stages(cat, "cluster", uid, "Service") == [];
  }

  lemma ServiceIsRendered(group: string, libs: Libraries, g: string)
    requires '/' !in group && group != "" && g in {"", group}
    ensures Localizer.RenderObject(TwoManifests(group, libs), "cluster", Doc(ServiceOf(g))) == Some(Doc(ServiceOf(g)))
  {
    OneIsListed(group, libs, g);
    SelectsItsGroup(g);
    NothingOverrides(TwoManifests(group, libs), "uid");
  }

  lemma OneIsRendered(group: string, libs: Libraries, g: string)
    requires '/' !in group && group != "" && g in {"", group}
    ensures Localizer.Render(TwoManifests(group, libs), "cluster", SpecOf(g)) == Some(SpecOf(g))
  {
    var cat := TwoManifests(group, libs);
    ServiceIsRendered(group, libs, g);
    var raws := Localizer.RenderedObjects(cat, "cluster", [Doc(ServiceOf(g))]);
    assert raws == [Some(Doc(ServiceOf(g)))];
    assert Localizer.Collect(raws).value == [Doc(ServiceOf(g))];
  }

  // ---------------------------------------------------------------- the run

  const APP: Key := Key("default", "app")
  const AT: Key := Key("cluster", "app")
  const BINDINGS: seq<string> := ["cluster" + ['/'] + "mc"]

  function SubFor(g: string): SubSpec {
    SubSpec([FeedFor(g)], BINDINGS)
  }

  function BaseFor(g: string, labelled: bool): Obj<seq<Feed>> {
    ObjectStore.Obj.Obj(1, false, {APP_FINALIZER}, Some(Ref(APP, 0)), "id", labelled, [FeedFor(g)])
  }

  function DescFor(g: string): Obj<DescSpec> {
    ObjectStore.Obj.Obj(2, false, {APP_FINALIZER}, Some(Ref(AT, 1)), "id", false, SpecOf(g))
  }

  /** The Subscription and its Base list these groups' Services; the Description and the child come later. */
  function Stage(clock: nat, sub: string, base: string, rendered: bool, applied: bool): Store {
    Store(clock,
          map[APP := NewObject(0, SubFor(sub)).(finalizers := {APP_FINALIZER}, selfLabelled := true)],
          map[AT := BaseFor(base, rendered)],
          if rendered then map[GenericKey(AT) := DescFor("")] else map[],
          map[],
          if applied then map["cluster" := {WebOf("")}] else map[],
          multiset{}, {})
  }

  function Do(group: string, libs: Libraries, e: Event): Step {
    Step(e, TwoManifests(group, libs), ALL_SUCCEED)
  }

  /** A Subscription of a core Service is made, propagated and applied; then it lists that of the group instead. */
  function SwitchRun(group: string, libs: Libraries): seq<Step> {
    [Do(group, libs, NewSubscription(APP, SubFor(""))),
     Do(group, libs, OnSubscription(APP)),
     Do(group, libs, OnBase(AT)),
     Do(group, libs, OnDescription(GenericKey(AT))),
     Do(group, libs, EditSubscription(APP, SubFor(group))),
     Do(group, libs, OnSubscription(APP)),
     Do(group, libs, OnBase(AT))]
  }

  lemma OneBaseKey(group: string, libs: Libraries)
    ensures BaseKeys(TwoManifests(group, libs), "app", BINDINGS) == {AT} && BindingsValid(BINDINGS)
  {
    CutAtFirst("cluster", "mc", '/');
    CountNone("mc", '/');
    assert SplitKey(BINDINGS[0]) == Some(("cluster", "mc"));
    assert BaseKey(TwoManifests(group, libs), "app", BINDINGS[0]) == Some(AT);
  }

  lemma BaseSyncs(group: string, libs: Libraries, clock: nat, was: Option<Obj<seq<Feed>>>, g: string)
    requires (was == None && clock == 1) || was == Some(BaseFor("", true))
    ensures SyncBindings(TwoManifests(group, libs), ALL_SUCCEED, clock, Ref(APP, 0), [FeedFor(g)], BINDINGS, AT, was)
         == Synced(Some(BaseFor(g, was.Some?)), true)
  {
    assert {APP_FINALIZER} + {APP_FINALIZER} == {APP_FINALIZER};
    OneBaseKey(group, libs);
    BindingsSync(TwoManifests(group, libs), ALL_SUCCEED, clock, Ref(APP, 0), [FeedFor(g)], BINDINGS, AT, was);
  }

  lemma SubscriptionSyncs(group: string, libs: Libraries, s: Store, g: string)
    requires (s.bases == map[] && s.clock == 1) || s.bases == map[AT := BaseFor("", true)]
    ensures PopulateBases(TwoManifests(group, libs), ALL_SUCCEED, s, Ref(APP, 0), SubFor(g)).store.bases
         == map[AT := BaseFor(g, s.bases != map[])]
  {
    var bases := PopulateBases(TwoManifests(group, libs), ALL_SUCCEED, s, Ref(APP, 0), SubFor(g)).store.bases;
    OneBaseKey(group, libs);
    BaseSyncs(group, libs, s.clock, Get(s.bases, AT), g);
    forall k ensures Get(bases, k) == Get(map[AT := BaseFor(g, s.bases != map[])], k) {
    }
    SameObjects(bases, map[AT := BaseFor(g, s.bases != map[])]);
  }

  lemma RunStarts(group: string, libs: Libraries)
    ensures Next(Next(EMPTY_STORE, SwitchRun(group, libs)[0]), SwitchRun(group, libs)[1])
       == Stage(2, "", "", false, false)
  {
    var s := Next(EMPTY_STORE, SwitchRun(group, libs)[0]);
    assert {} + {APP_FINALIZER} == {APP_FINALIZER};
    var sub := NewObject(0, SubFor("")).(finalizers := {APP_FINALIZER}, selfLabelled := true);
    assert s.subs[APP := sub] == map[APP := sub];
    SubscriptionSyncs(group, libs, s.(subs := map[APP := sub]), "");
  }

  /** Rendering writes the Service of the group that the Base lists. */
  lemma DescSyncs(group: string, libs: Libraries, s: Store, g: string)
    requires '/' !in group && group != "" && g in {"", group}
    requires (s.descs == map[] && s.clock == 2) || s.descs == map[GenericKey(AT) := DescFor("")]
    ensures PopulateDescriptions(TwoManifests(group, libs), ALL_SUCCEED, s, AT, BaseFor(g, true)).store.descs
         == map[GenericKey(AT) := DescFor(g)]
  {
    OneIsGathered(group, libs, g, AT);
    OneIsRendered(group, libs, g);
    assert {APP_FINALIZER} + {APP_FINALIZER} == {APP_FINALIZER};
    var descs := PopulateDescriptions(TwoManifests(group, libs), ALL_SUCCEED, s, AT, BaseFor(g, true)).store.descs;
    forall k ensures Get(descs, k) == Get(map[GenericKey(AT) := DescFor(g)], k) {
    }
    SameObjects(descs, map[GenericKey(AT) := DescFor(g)]);
  }

  function PruneTo(g: string): Prune {
    Prune("cluster", SpecOf(""), SpecOf(g))
  }

  lemma PruneStarts(group: string, libs: Libraries, s: Store, g: string)
    requires '/' !in group && group != "" && g in {"", group} && s.prunes == multiset{}
    requires (s.descs == map[] && g == "") || (s.descs == map[GenericKey(AT) := DescFor("")] && g == group)
    ensures PopulateDescriptions(TwoManifests(group, libs), ALL_SUCCEED, s, AT, BaseFor(g, true)).store.prunes
         == if g == "" then multiset{} else multiset{PruneTo(g)}
  {
    OneIsGathered(group, libs, g, AT);
    OneIsRendered(group, libs, g);
    DifferentKeys(AT);
    SelectsItsGroup("");
    SelectsItsGroup(group);
  }

  /** Rendering the core Service makes the Description. */
  lemma RunRenders(group: string, libs: Libraries)
    requires '/' !in group && group != ""
    ensures Next(Stage(2, "", "", false, false), SwitchRun(group, libs)[2]) == Stage(3, "", "", true, false)
  {
    var s, st := Stage(2, "", "", false, false), SwitchRun(group, libs)[2];
    var s' := s.(bases := map[AT := BaseFor("", true)]);
    assert s.bases[AT := BaseFor("", true)] == s'.bases;
    assert HandleBase(st.cat, st.api, s, AT) == PopulateDescriptions(st.cat, st.api, s', AT, BaseFor("", true));
    DescSyncs(group, libs, s', "");
    PruneStarts(group, libs, s', "");
  }

  lemma IsPushed(group: string, libs: Libraries)
    ensures DeployableByHub(TwoManifests(group, libs), "cluster", "id").ByHub?
    ensures !IsClusterLost(TwoManifests(group, libs), "cluster", "id")
  {
    assert MatchingClusters(TwoManifests(group, libs), "cluster", "id") == [ManagedCluster("id", Push, true, false)];
  }

  lemma IdsOfSpec(g: string)
    requires '/' !in g
    ensures Ids(SpecOf(g).raw) == {WebOf(g)} && AllParse(SpecOf(g).raw)
  {
    SelectsItsGroup(g);
  }

  lemma WebIsAcceptable()
    ensures Acceptable(WebOf(""))
  {
  }

  lemma CoreIsApplied(api: Api)
    requires forall c :: api(c)
    ensures Applied(api, "cluster", SpecOf("").raw) == {WebOf("")}
  {
    IdsOfSpec("");
    WebIsAcceptable();
    forall id ensures id in Applied(api, "cluster", SpecOf("").raw) <==> id == WebOf("") {
    }
  }

  /** The core Service is applied. */
  lemma RunApplies(group: string, libs: Libraries)
    ensures Next(Stage(3, "", "", true, false), SwitchRun(group, libs)[3]) == Stage(4, "", "", true, true)
  {
    var s, st, key := Stage(3, "", "", true, false), SwitchRun(group, libs)[3], GenericKey(AT);
    IsPushed(group, libs);
    assert s.descs[key := DescFor("")] == s.descs;
    assert HandleDescription(st.cat, st.api, s, key) == ApplyDescription(st.api, s, key);
    CoreIsApplied(st.api);
    assert ChildrenOf(s, "cluster") + {WebOf("")} == {WebOf("")};
    assert s.children["cluster" := {WebOf("")}] == map["cluster" := {WebOf("")}];
    assert s.abandoned - InCluster("cluster", {WebOf("")}) == {};
  }

  /** The Subscription goes over to the group's Service. */
  lemma RunEdits(group: string, libs: Libraries)
    ensures Next(Stage(4, "", "", true, true), SwitchRun(group, libs)[4]) == Stage(5, group, "", true, true)
  {
    var s := Stage(4, "", "", true, true);
    assert s.subs[APP := s.subs[APP].(spec := SubFor(group))] == Stage(5, group, "", true, true).subs;
  }

  lemma RunResyncs(group: string, libs: Libraries)
    ensures Next(Stage(5, group, "", true, true), SwitchRun(group, libs)[5]) == Stage(6, group, group, true, true)
  {
    var s, st := Stage(5, group, "", true, true), SwitchRun(group, libs)[5];
    assert s.subs[APP := s.subs[APP]] == s.subs;
    assert HandleSubscription(st.cat, st.api, s, APP) == PopulateBases(st.cat, st.api, s, Ref(APP, 0), SubFor(group));
    SubscriptionSyncs(group, libs, s, group);
  }

  /** The Description lists the group's Service; `prunes` are under way. */
  function Switched(clock: nat, group: string, prunes: multiset<Prune>): Store {
    Stage(clock, group, group, true, true).(descs := map[GenericKey(AT) := DescFor(group)], prunes := prunes)
  }

  /** Rendering that Service instead starts a prune. */
  lemma RunDrops(group: string, libs: Libraries)
    requires '/' !in group && group != ""
    ensures Next(Stage(6, group, group, true, true), SwitchRun(group, libs)[6])
       == Switched(7, group, multiset{PruneTo(group)})
  {
    var s, st := Stage(6, group, group, true, true), SwitchRun(group, libs)[6];
    assert s.bases[AT := s.bases[AT]] == s.bases;
    assert HandleBase(st.cat, st.api, s, AT) == PopulateDescriptions(st.cat, st.api, s, AT, BaseFor(group, true));
    DescSyncs(group, libs, s, group);
    PruneStarts(group, libs, s, group);
  }

  lemma PruneIsEmpty(group: string)
    requires '/' !in group
    ensures PruneIds(PruneTo(group)) == {}
  {
    IdsOfSpec("");
    IdsOfSpec(group);
    assert WebOf(group) in Ids(SpecOf(group).raw) && ResourceName(WebOf(group)) == ResourceName(WebOf(""));
  }

  /** The prune has nothing to remove, and is done. */
  lemma RunPrunes(group: string, libs: Libraries)
    requires '/' !in group
    ensures Next(Switched(7, group, multiset{PruneTo(group)}), Do(group, libs, OnPrune(PruneTo(group))))
         == Switched(8, group, multiset{})
  {
    var s, p, st := Switched(7, group, multiset{PruneTo(group)}), PruneTo(group),
        Do(group, libs, OnPrune(PruneTo(group)));
    PruneIsEmpty(group);
    IdsOfSpec("");
    IdsOfSpec(group);
    assert Removed(st.api, "cluster", {}) == {};
    assert ChildrenOf(s, "cluster") - {} == {WebOf("")};
    assert s.children["cluster" := {WebOf("")}] == s.children;
    assert multiset{p} - multiset{p} == multiset{};
  }

  lemma CoreIsUntracked(group: string)
    requires '/' !in group && group != ""
    ensures !Tracked(Switched(8, group, multiset{}), "cluster", WebOf(""))
  {
    IdsOfSpec(group);
  }

  lemma RunToBase(group: string, libs: Libraries)
    ensures Run(SwitchRun(group, libs)[..2]) == Stage(2, "", "", false, false)
  {
    var r := SwitchRun(group, libs);
    assert r[..0] == [];
    RunPrefix(r, 0);
    RunPrefix(r, 1);
    RunStarts(group, libs);
  }

  lemma RunToChild(group: string, libs: Libraries)
    requires '/' !in group && group != ""
    ensures Run(SwitchRun(group, libs)[..4]) == Stage(4, "", "", true, true)
  {
    RunToBase(group, libs);
    RunPrefix(SwitchRun(group, libs), 2);
    RunRenders(group, libs);
    RunPrefix(SwitchRun(group, libs), 3);
    RunApplies(group, libs);
  }

  lemma RunToSwitch(group: string, libs: Libraries)
    requires '/' !in group && group != ""
    ensures Run(SwitchRun(group, libs)[..6]) == Stage(6, group, group, true, true)
  {
    RunToChild(group, libs);
    RunPrefix(SwitchRun(group, libs), 4);
    RunEdits(group, libs);
    RunPrefix(SwitchRun(group, libs), 5);
    RunResyncs(group, libs);
  }

  lemma RunEnds(group: string, libs: Libraries)
    requires '/' !in group && group != ""
    ensures Run(SwitchRun(group, libs)) == Switched(7, group, multiset{PruneTo(group)})
  {
    RunToSwitch(group, libs);
    assert SwitchRun(group, libs)[..7] == SwitchRun(group, libs);
    RunPrefix(SwitchRun(group, libs), 6);
    RunDrops(group, libs);
  }

  /**
   * The leak is reached for every group: the Service of the group takes the place of the core Service, the
   * prune that was started for it is done, and the core Service stays in the child with nothing to track it.
   */
  lemma GroupSwitchLeaks(group: string, libs: Libraries)
    requires '/' !in group && group != ""
    ensures var s := Run(SwitchRun(group, libs) + [Do(group, libs, OnPrune(PruneTo(group)))]);
            && WebOf("") in ChildrenOf(s, "cluster") && s.prunes == multiset{}
            && !Tracked(s, "cluster", WebOf("")) && !LeakFree(s)
  {
    RunEnds(group, libs);
    RunSnoc(SwitchRun(group, libs), Do(group, libs, OnPrune(PruneTo(group))));
    RunPrunes(group, libs);
    CoreIsUntracked(group);
  }
}
