/** Four rounds are needed: three leave the Subscription of a tree with one HelmRelease. */
module Tight {
  import opened Collections
  import opened Catalog
  import opened ObjectStore
  import opened Propagation
  import opened Runs
  import opened Teardown
  import opened Rounds

  const SUB: Key := Key("default", "app")
  const TREE_BASE: Key := Key("cluster", "app")
  const DESC: Key := Key("cluster", "app-helm")
  const RELEASE: Key := Key("cluster", "app-helm-charts-web")
  const ROOT: Ref := Ref(SUB, 0)

  function Member<S>(born: nat, deleting: bool, owner: Option<Ref>, spec: S): Obj<S> {
    ObjectStore.Obj.Obj(born, deleting, {APP_FINALIZER}, owner, "id", true, spec)
  }

  function One<S>(k: Key, deleting: Option<bool>, born: nat, owner: Ref, spec: S): Objects<S> {
    if deleting.None? then map[] else map[k := Member(born, deleting.value, Some(owner), spec)]
  }

  /** A deleting Subscription with at most one Base, one helm Description and one HelmRelease, each deleting or not. */
  function Tree(clock: nat, base: Option<bool>, desc: Option<bool>, release: Option<bool>): Store {
    Store(
      clock,
      map[SUB := Member(0, true, None, SubSpec([], []))],
      One(TREE_BASE, base, 1, ROOT, []),
      One(DESC, desc, 2, Ref(TREE_BASE, 1), DescSpec(Helm, [], [])),
      One(RELEASE, release, 3, Ref(DESC, 2), ReleaseSpec(None, "")),
      map[], multiset{}, {})
  }

  /** One cluster that the hub pushes to. */
  function Pushed(libs: Libraries): Catalog {
    Snapshot(map[], [], [], [], map[], map["cluster" := [ManagedCluster("id", Push, true, false)]], libs)
  }

  function Do(libs: Libraries, e: Event): Step {
    Step(e, Pushed(libs), _ => true)
  }

  lemma IsPushed(libs: Libraries)
    ensures PushEnabled(Pushed(libs), "cluster", "id") && !IsClusterLost(Pushed(libs), "cluster", "id")
    ensures MatchingClusters(Pushed(libs), "cluster", "id") == [ManagedCluster("id", Push, true, false)]
  {
  }

  // ---------------------------------------------------------------- the steps

  lemma MarksBase(api: Api, n: nat, deleting: bool, desc: Option<bool>, release: Option<bool>)
    requires forall c :: api(c)
    ensures MarkOwned(Tree(n, Some(deleting), desc, release).bases, ROOT, DeletesBases(api))
         == Tree(n, Some(true), desc, release).bases
  {
  }

  lemma SubStep(libs: Libraries, n: nat, deleting: bool, desc: Option<bool>, release: Option<bool>)
    ensures Next(Tree(n, Some(deleting), desc, release), Do(libs, OnSubscription(SUB)))
       == Tree(n + 1, Some(true), desc, release)
  {
    var s, st := Tree(n, Some(deleting), desc, release), Do(libs, OnSubscription(SUB));
    assert s.subs[SUB := s.subs[SUB]] == s.subs;
    assert HandleSubscription(st.cat, st.api, s, SUB) == OffloadSubscription(st.api, s, SUB);
    assert TREE_BASE in Owned(s.bases, ROOT);
    MarksBase(st.api, n, deleting, desc, release);
  }

  lemma MarksDesc(api: Api, n: nat, base: Option<bool>, release: Option<bool>, deleting: bool)
    requires forall c :: api(c)
    ensures MarkOwned(Tree(n, base, Some(deleting), release).descs, Ref(TREE_BASE, 1), Deletes(api, DescriptionKind))
         == Tree(n, base, Some(true), release).descs
  {
    var descs := MarkOwned(Tree(n, base, Some(deleting), release).descs, Ref(TREE_BASE, 1),
                           Deletes(api, DescriptionKind));
    forall k ensures Get(descs, k) == Get(Tree(n, base, Some(true), release).descs, k) {
    }
    SameObjects(descs, Tree(n, base, Some(true), release).descs);
  }

  lemma HandlesBase(libs: Libraries, n: nat, desc: Option<bool>, release: Option<bool>)
    ensures var s, st := Tree(n, Some(true), desc, release), Do(libs, OnBase(TREE_BASE));
            Next(s, st) == OffloadBase(st.api, s, TREE_BASE).store.(clock := n + 1)
  {
    var s, st := Tree(n, Some(true), desc, release), Do(libs, OnBase(TREE_BASE));
    assert s.bases[TREE_BASE := s.bases[TREE_BASE]] == s.bases;
    assert HandleBase(st.cat, st.api, s, TREE_BASE) == OffloadBase(st.api, s, TREE_BASE);
  }

  lemma OffloadMarks(api: Api, n: nat, deleting: bool, release: Option<bool>)
    requires forall c :: api(c)
    ensures OffloadBase(api, Tree(n, Some(true), Some(deleting), release), TREE_BASE).store
         == Tree(n, Some(true), Some(true), release)
  {
    var s := Tree(n, Some(true), Some(deleting), release);
    assert DESC in Owned(s.descs, Ref(TREE_BASE, 1));
    MarksDesc(api, n, Some(true), release, deleting);
  }

  lemma BaseMarks(libs: Libraries, n: nat, deleting: bool, release: Option<bool>)
    ensures Next(Tree(n, Some(true), Some(deleting), release), Do(libs, OnBase(TREE_BASE)))
         == Tree(n + 1, Some(true), Some(true), release)
  {
    HandlesBase(libs, n, Some(deleting), release);
    OffloadMarks(Do(libs, OnBase(TREE_BASE)).api, n, deleting, release);
  }

  lemma BaseGoes(libs: Libraries, n: nat, release: Option<bool>)
    ensures Next(Tree(n, Some(true), None, release), Do(libs, OnBase(TREE_BASE))) == Tree(n + 1, None, None, release)
  {
    var s := Tree(n, Some(true), None, release);
    HandlesBase(libs, n, None, release);
    assert Owned(s.descs, Ref(TREE_BASE, 1)) == {};
    assert Unprotected(s.bases[TREE_BASE]) == None;
    assert s.bases - {TREE_BASE} == map[];
  }

  lemma MarksRelease(api: Api, n: nat, base: Option<bool>, desc: Option<bool>, deleting: bool)
    requires forall c :: api(c)
    ensures MarkOwned(Tree(n, base, desc, Some(deleting)).releases, Ref(DESC, 2), Deletes(api, ReleaseKind))
         == Tree(n, base, desc, Some(true)).releases
  {
    var releases := MarkOwned(Tree(n, base, desc, Some(deleting)).releases, Ref(DESC, 2), Deletes(api, ReleaseKind));
    forall k ensures Get(releases, k) == Get(Tree(n, base, desc, Some(true)).releases, k) {
    }
    SameObjects(releases, Tree(n, base, desc, Some(true)).releases);
  }

  lemma HandlesDesc(libs: Libraries, n: nat, base: Option<bool>, release: Option<bool>)
    ensures var s, st := Tree(n, base, Some(true), release), Do(libs, OnDescription(DESC));
            Next(s, st) == OffloadReleases(st.api, s, DESC).store.(clock := n + 1)
  {
    var s, st := Tree(n, base, Some(true), release), Do(libs, OnDescription(DESC));
    IsPushed(libs);
    assert s.descs[DESC := s.descs[DESC]] == s.descs;
    assert HandleDescription(st.cat, st.api, s, DESC) == OffloadReleases(st.api, s, DESC);
  }

  lemma OffloadMarksRelease(api: Api, n: nat, base: Option<bool>, deleting: bool)
    requires forall c :: api(c)
    ensures OffloadReleases(api, Tree(n, base, Some(true), Some(deleting)), DESC).store
         == Tree(n, base, Some(true), Some(true))
  {
    var s := Tree(n, base, Some(true), Some(deleting));
    assert RELEASE in Owned(s.releases, Ref(DESC, 2));
    MarksRelease(api, n, base, Some(true), deleting);
  }

  lemma DescMarks(libs: Libraries, n: nat, base: Option<bool>, deleting: bool)
    ensures Next(Tree(n, base, Some(true), Some(deleting)), Do(libs, OnDescription(DESC)))
         == Tree(n + 1, base, Some(true), Some(true))
  {
    HandlesDesc(libs, n, base, Some(deleting));
    OffloadMarksRelease(Do(libs, OnDescription(DESC)).api, n, base, deleting);
  }

  lemma DescGoes(libs: Libraries, n: nat, base: Option<bool>)
    ensures Next(Tree(n, base, Some(true), None), Do(libs, OnDescription(DESC))) == Tree(n + 1, base, None, None)
  {
    var s := Tree(n, base, Some(true), None);
    HandlesDesc(libs, n, base, None);
    assert Owned(s.releases, Ref(DESC, 2)) == {};
    assert Unprotected(s.descs[DESC]) == None;
    assert s.descs - {DESC} == map[];
  }

  lemma ReleaseStep(libs: Libraries, n: nat, base: Option<bool>, desc: Option<bool>)
    ensures Next(Tree(n, base, desc, Some(true)), Do(libs, OnRelease(RELEASE))) == Tree(n + 1, base, desc, None)
  {
  }

  // ---------------------------------------------------------------- three rounds

  lemma OneStep(s: Store, st: Step)
    ensures Exec(s, [st]) == Next(s, st)
    ensures Calm(s, st) ==> Handled(s, [st], st.event)
  {
    assert [st][..0] == [];
    assert Exec(s, []) == s;
  }

  lemma TreeIsCalm(libs: Libraries, n: nat, base: Option<bool>, desc: Option<bool>, release: Option<bool>, e: Event)
    requires e in {OnSubscription(SUB), OnBase(TREE_BASE), OnDescription(DESC), OnRelease(RELEASE)}
    ensures Calm(Tree(n, base, desc, release), Do(libs, e)) && Quiet(Do(libs, e))
  {
  }

  /** Whatever belongs to the tree is one of its three objects. */
  lemma TreeKeys(n: nat, base: Option<bool>, desc: Option<bool>, release: Option<bool>)
    ensures var s := Tree(n, base, desc, release);
            && (forall k :: OwnedBy(Get(s.bases, k), ROOT) ==> k == TREE_BASE && base.Some?)
            && (forall k :: InTree(s, ROOT, Get(s.descs, k)) ==> k == DESC && desc.Some?)
            && (forall k :: ReleaseInTree(s, ROOT, Get(s.releases, k)) ==> k == RELEASE && release.Some?)
  {
  }

  /** A phase of one step, or of none when nothing of its kind is in the tree. */
  function PhaseFor(libs: Libraries, e: Event, needed: bool): seq<Step> {
    if needed then [Do(libs, e)] else []
  }

  function RoundFor(libs: Libraries, base: bool, desc: bool, release: bool): Round {
    Round([Do(libs, OnSubscription(SUB))], PhaseFor(libs, OnBase(TREE_BASE), base),
          PhaseFor(libs, OnDescription(DESC), desc),
          PhaseFor(libs, OnRelease(RELEASE), release))
  }

  lemma SubPhase(libs: Libraries, n: nat, deleting: bool, desc: Option<bool>, release: Option<bool>)
    ensures var s, steps := Tree(n, Some(deleting), desc, release), [Do(libs, OnSubscription(SUB))];
            Phase(SubscriptionKind, s, steps, ROOT) && Exec(s, steps) == Tree(n + 1, Some(true), desc, release)
  {
    OneStep(Tree(n, Some(deleting), desc, release), Do(libs, OnSubscription(SUB)));
    TreeIsCalm(libs, n, Some(deleting), desc, release, OnSubscription(SUB));
    SubStep(libs, n, deleting, desc, release);
  }

  lemma BasePhase(libs: Libraries, n: nat, desc: Option<bool>, release: Option<bool>)
    ensures var s, steps := Tree(n, Some(true), desc, release), PhaseFor(libs, OnBase(TREE_BASE), true);
            && Phase(BaseKind, s, steps, ROOT)
            && Exec(s, steps) == if desc.Some? then Tree(n + 1, Some(true), Some(true), release)
                 else Tree(n + 1, None, desc, release)
  {
    OneStep(Tree(n, Some(true), desc, release), Do(libs, OnBase(TREE_BASE)));
    TreeIsCalm(libs, n, Some(true), desc, release, OnBase(TREE_BASE));
    TreeKeys(n, Some(true), desc, release);
    if desc.Some? {
      BaseMarks(libs, n, desc.value, release);
    } else {
      BaseGoes(libs, n, release);
    }
  }

  lemma DescPhase(libs: Libraries, n: nat, base: Option<bool>, release: Option<bool>)
    ensures var s, steps := Tree(n, base, Some(true), release), PhaseFor(libs, OnDescription(DESC), true);
            && Phase(DescriptionKind, s, steps, ROOT)
            && Exec(s, steps) == if release.Some? then Tree(n + 1, base, Some(true), Some(true))
                 else Tree(n + 1, base, None, release)
  {
    OneStep(Tree(n, base, Some(true), release), Do(libs, OnDescription(DESC)));
    TreeIsCalm(libs, n, base, Some(true), release, OnDescription(DESC));
    TreeKeys(n, base, Some(true), release);
    if release.Some? {
      DescMarks(libs, n, base, release.value);
    } else {
      DescGoes(libs, n, base);
    }
  }

  lemma ReleasePhase(libs: Libraries, n: nat, base: Option<bool>, desc: Option<bool>)
    ensures var s, steps := Tree(n, base, desc, Some(true)), PhaseFor(libs, OnRelease(RELEASE), true);
            Phase(ReleaseKind, s, steps, ROOT) && Exec(s, steps) == Tree(n + 1, base, desc, None)
  {
    OneStep(Tree(n, base, desc, Some(true)), Do(libs, OnRelease(RELEASE)));
    TreeIsCalm(libs, n, base, desc, Some(true), OnRelease(RELEASE));
    TreeKeys(n, base, desc, Some(true));
    ReleaseStep(libs, n, base, desc);
  }

  lemma EmptyPhases(libs: Libraries, n: nat, base: Option<bool>, desc: Option<bool>, release: Option<bool>)
    ensures var s := Tree(n, base, desc, release);
            && Exec(s, []) == s
            && (desc.None? ==> Phase(DescriptionKind, s, [], ROOT))
            && (release.None? ==> Phase(ReleaseKind, s, [], ROOT))
  {
  }

  lemma RoundOne(libs: Libraries)
    ensures var s, round := Tree(4, Some(false), Some(false), Some(false)), RoundFor(libs, true, true, true);
            TopDown(s, round, ROOT) && AfterRound(s, round) == Tree(8, Some(true), Some(true), None)
  {
    SubPhase(libs, 4, false, Some(false), Some(false));
    BasePhase(libs, 5, Some(false), Some(false));
    DescPhase(libs, 6, Some(true), Some(false));
    ReleasePhase(libs, 7, Some(true), Some(true));
  }

  lemma RoundTwo(libs: Libraries)
    ensures var s, round := Tree(8, Some(true), Some(true), None), RoundFor(libs, true, true, false);
            TopDown(s, round, ROOT) && AfterRound(s, round) == Tree(11, Some(true), None, None)
  {
    SubPhase(libs, 8, true, Some(true), None);
    BasePhase(libs, 9, Some(true), None);
    DescPhase(libs, 10, Some(true), None);
    EmptyPhases(libs, 11, Some(true), None, None);
  }

  lemma RoundThree(libs: Libraries)
    ensures var s, round := Tree(11, Some(true), None, None), RoundFor(libs, true, false, false);
            TopDown(s, round, ROOT) && AfterRound(s, round) == Tree(13, None, None, None)
  {
    SubPhase(libs, 11, true, None, None);
    BasePhase(libs, 12, None, None);
    EmptyPhases(libs, 13, None, None, None);
  }

  lemma TreeTearsDown()
    ensures TearingDown(Tree(4, Some(false), Some(false), Some(false)), ROOT)
  {
  }

  lemma TopDownSnoc(s: Store, rounds: seq<Round>, round: Round, r: Ref, there: Store)
    requires AllTopDown(s, rounds, r) && AfterRounds(s, rounds) == there && TopDown(there, round, r)
    ensures AllTopDown(s, rounds + [round], r) && AfterRounds(s, rounds + [round]) == AfterRound(there, round)
  {
    assert (rounds + [round])[..|rounds|] == rounds;
  }

  function OneRound(libs: Libraries): seq<Round> {
    [RoundFor(libs, true, true, true)]
  }

  function TwoRounds(libs: Libraries): seq<Round> {
    OneRound(libs) + [RoundFor(libs, true, true, false)]
  }

  function ThreeRounds(libs: Libraries): seq<Round> {
    TwoRounds(libs) + [RoundFor(libs, true, false, false)]
  }

  const START: Store := Tree(4, Some(false), Some(false), Some(false))

  lemma AfterOne(libs: Libraries)
    ensures AllTopDown(START, OneRound(libs), ROOT)
    ensures AfterRounds(START, OneRound(libs)) == Tree(8, Some(true), Some(true), None)
  {
    RoundOne(libs);
    assert [] + OneRound(libs) == OneRound(libs);
    TopDownSnoc(START, [], RoundFor(libs, true, true, true), ROOT, START);
  }

  lemma AfterTwo(libs: Libraries)
    ensures AllTopDown(START, TwoRounds(libs), ROOT)
    ensures AfterRounds(START, TwoRounds(libs)) == Tree(11, Some(true), None, None)
  {
    AfterOne(libs);
    RoundTwo(libs);
    TopDownSnoc(START, OneRound(libs), RoundFor(libs, true, true, false), ROOT, Tree(8, Some(true), Some(true), None));
  }

  lemma AfterThree(libs: Libraries)
    ensures AllTopDown(START, ThreeRounds(libs), ROOT)
    ensures AfterRounds(START, ThreeRounds(libs)) == Tree(13, None, None, None)
  {
    AfterTwo(libs);
    RoundThree(libs);
    TopDownSnoc(START, TwoRounds(libs), RoundFor(libs, true, false, false), ROOT, Tree(11, Some(true), None, None));
  }

  lemma StillThere(n: nat)
    ensures !TornDown(Tree(n, None, None, None), ROOT)
  {
    assert !Gone(Tree(n, None, None, None).subs, ROOT);
  }

  /** So the bound is exact: after three full rounds over this tree the Subscription is still there. */
  lemma ThreeRoundsDoNotSuffice(libs: Libraries)
    ensures |ThreeRounds(libs)| == 3
    ensures TearingDown(START, ROOT) && AllTopDown(START, ThreeRounds(libs), ROOT)
    ensures !TornDown(AfterRounds(START, ThreeRounds(libs)), ROOT)
  {
    TreeTearsDown();
    AfterThree(libs);
    StillThere(13);
  }
}
