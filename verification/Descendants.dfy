/**
 * Exactly when Descriptions and HelmReleases come, are marked for deletion and lose the hub's finalizer, in
 * any step of the hub or its environment.
 */
module Descendants {
  import opened Collections
  import opened Json
  import opened Feeds
  import opened Catalog
  import opened ObjectStore
  import opened Propagation
  import opened Runs
  import opened Effects
  import opened Lifecycle
  import Convergence
  import Localizer
  import Releases

  // ---------------------------------------------------------------- Descriptions under a Base

  /** Feeds that resolve call for the Description at k: a helm one for charts, a generic one for all else. */
  ghost predicate WantsDescription(base: Key, feeds: seq<Feed>, k: Key) {
    || (k == HelmKey(base) && exists f :: f in feeds && f.kind == "HelmChart")
    || (k == GenericKey(base) && exists f :: f in feeds && f.kind != "HelmChart")
  }

  lemma {:induction false} FeedsByKind(cat: Catalog, feeds: seq<Feed>)
    requires Convergence.AllResolve(cat, feeds)
    ensures Convergence.ChartKeys(feeds) != [] <==> exists f :: f in feeds && f.kind == "HelmChart"
    ensures Convergence.ManifestsOf(cat, feeds) != [] <==> exists f :: f in feeds && f.kind != "HelmChart"
  {
    if feeds != [] {
      var front, last := feeds[..|feeds| - 1], feeds[|feeds| - 1];
      FeedsByKind(cat, front);
      assert feeds == front + [last];
      assert Convergence.Resolves(cat, last);
    }
  }

  /** The template of the Description at k, which is helm's or the generic one by its name. */
  function TemplateAt(cat: Catalog, base: Key, feeds: seq<Feed>, k: Key): DescSpec {
    if k == HelmKey(base) then HelmTemplate(Convergence.ChartKeys(feeds))
    else GenericTemplate(Convergence.ManifestsOf(cat, feeds))
  }

  lemma WantsDescriptionIff(cat: Catalog, base: Key, feeds: seq<Feed>, k: Key)
    ensures Gather(cat, feeds).Gathered? <==> Convergence.AllResolve(cat, feeds)
    ensures Gather(cat, feeds).Gathered? ==>
              var t := Templates(base, Gather(cat, feeds));
              && (k in t <==> WantsDescription(base, feeds, k))
              && (k in t ==> t[k] == TemplateAt(cat, base, feeds, k))
  {
    Convergence.GatherAllOrNothing(cat, feeds);
    if Gather(cat, feeds).Gathered? {
      FeedsByKind(cat, feeds);
      DifferentKeys(base);
    }
  }

  lemma DescAfterFate(cat: Catalog, api: Api, clock: nat, owner: Ref, cluster: string, t: map<Key, DescSpec>, k: Key,
                      was: Option<Obj<DescSpec>>)
    ensures var after := DescAfter(cat, api, clock, owner, cluster, t, k, was);
            && (Hooked(was) ==> Hooked(after))
            && (Alive(was) ==> (!Alive(after) <==>
                  k !in t && was.value.owner == Some(owner) && api(Delete(DescriptionKind, k))))
            && (was.None? ==> (after.Some? <==>
                  k in t && Localizer.Render(cat, k.ns, t[k]).Some? && api(Create(DescriptionKind, k))))
            && (was.None? && after.Some? ==>
                  Fresh(after, clock, owner, cluster)
                  && Localizer.Render(cat, k.ns, t[k]) == Some(after.value.spec))
  {
  }

  /** The Base of the step is rendered. */
  ghost predicate RendersBase(s: Store, st: Step) {
    && (st.event.OnBase? || st.event.OnFeed?) && st.event.key in s.bases
    && var q, base := st.event.key, s.bases[st.event.key];
       && (if st.event.OnBase? then !base.deleting && Ready(st.api, BaseKind, q, base) && st.api(LabelFeeds(q))
           else base.selfLabelled)
       && Convergence.AllResolve(st.cat, base.spec)
  }

  /** The Base of the step is offloaded. */
  ghost predicate OffloadsBase(s: Store, st: Step) {
    && st.event.OnBase? && st.event.key in s.bases && s.bases[st.event.key].deleting
    && Ready(st.api, BaseKind, st.event.key, s.bases[st.event.key])
  }

  /** What rendering a Base, or not getting there, does to the Description at k. */
  lemma RenderedDescription(cat: Catalog, api: Api, s: Store, q: Key, base: Obj<seq<Feed>>, k: Key)
    ensures var was, after := Get(s.descs, k), Get(PopulateDescriptions(cat, api, s, q, base).store.descs, k);
            if Convergence.AllResolve(cat, base.spec) then
              && Gather(cat, base.spec).Gathered?
              && after == DescAfter(cat, api, s.clock, RefOf(q, base), base.cluster,
                                    Templates(q, Gather(cat, base.spec)), k, was)
            else after == was
  {
    Convergence.GatherAllOrNothing(cat, base.spec);
    if Gather(cat, base.spec).Gathered? {
      Convergence.PopulatedDescriptions(cat, api, s, q, base, k);
    }
  }

  lemma OffloadedDescription(api: Api, s: Store, q: Key, k: Key)
    requires q in s.bases
    ensures Get(OffloadBase(api, s, q).store.descs, k)
         == MarkOne(k, Get(s.descs, k), RefOf(q, s.bases[q]), Deletes(api, DescriptionKind))
  {
    if Owned(s.descs, RefOf(q, s.bases[q])) == {} {
      assert k !in Owned(s.descs, RefOf(q, s.bases[q]));
    }
  }

  lemma HandledBaseDescs(s: Store, st: Step)
    requires st.event.OnBase?
    ensures var q, descs := st.event.key, HandleBase(st.cat, st.api, s, st.event.key).store.descs;
            if q !in s.bases || !Ready(st.api, BaseKind, q, s.bases[q]) then descs == s.descs
            else if s.bases[q].deleting then descs == OffloadBase(st.api, s, q).store.descs
            else if !st.api(LabelFeeds(q)) then descs == s.descs
            else descs == PopulateDescriptions(st.cat, st.api, s, q, s.bases[q]).store.descs
  {
    var q := st.event.key;
    if q in s.bases {
      var o := HandledBase(st.cat, st.api, s, q);
    }
  }

  /** What a rendered or offloaded Base does to the Description at k. */
  lemma BaseStepOnDescription(s: Store, st: Step, k: Key)
    requires st.event.OnBase? || st.event.OnFeed?
    ensures var q, was, after := st.event.key, Get(s.descs, k), Get(Effect(s, st).descs, k);
            if RendersBase(s, st) then
              && Gather(st.cat, s.bases[q].spec).Gathered?
              && after == DescAfter(st.cat, st.api, s.clock, RefOf(q, s.bases[q]), s.bases[q].cluster,
                                    Templates(q, Gather(st.cat, s.bases[q].spec)), k, was)
            else if OffloadsBase(s, st) then
              after == MarkOne(k, was, RefOf(q, s.bases[q]), Deletes(st.api, DescriptionKind))
            else after == was
  {
    var q := st.event.key;
    if q in s.bases {
      RenderedDescription(st.cat, st.api, s, q, s.bases[q], k);
      OffloadedDescription(st.api, s, q, k);
    }
    if st.event.OnBase? {
      HandledBaseDescs(s, st);
    }
  }

  /** The Base of the step owns the Description and deletes it: it is offloaded, or does not call for it. */
  ghost predicate BaseDeletes(s: Store, st: Step, k: Key)
    requires k in s.descs
  {
    && (OffloadsBase(s, st)
        || (RendersBase(s, st) && !WantsDescription(st.event.key, s.bases[st.event.key].spec, k)))
    && s.descs[k].owner == Some(RefOf(st.event.key, s.bases[st.event.key])) && st.api(Delete(DescriptionKind, k))
  }

  /** The Base of the step calls for a Description that is not there, and makes it. */
  ghost predicate BaseMakes(s: Store, st: Step, k: Key) {
    && RendersBase(s, st) && WantsDescription(st.event.key, s.bases[st.event.key].spec, k)
    && st.api(Create(DescriptionKind, k))
    && Localizer.Render(st.cat, k.ns, TemplateAt(st.cat, st.event.key, s.bases[st.event.key].spec, k)).Some?
  }

  lemma BaseStepFate(s: Store, st: Step, k: Key)
    requires st.event.OnBase? || st.event.OnFeed?
    ensures var was, after := Get(s.descs, k), Get(Effect(s, st).descs, k);
            && (Hooked(was) ==> Hooked(after))
            && (Alive(was) ==> (!Alive(after) <==> BaseDeletes(s, st, k)))
            && (was.None? ==> (after.Some? <==> BaseMakes(s, st, k)))
            && (was.None? && after.Some? ==>
                  var q := st.event.key;
                  Fresh(after, s.clock, RefOf(q, s.bases[q]), s.bases[q].cluster)
                  && Localizer.Render(st.cat, k.ns, TemplateAt(st.cat, q, s.bases[q].spec, k))
                     == Some(after.value.spec))
  {
    var q, was := st.event.key, Get(s.descs, k);
    BaseStepOnDescription(s, st, k);
    if q in s.bases {
      var base := s.bases[q];
      WantsDescriptionIff(st.cat, q, base.spec, k);
      MarkOneFate(k, was, RefOf(q, base), Deletes(st.api, DescriptionKind));
      if Gather(st.cat, base.spec).Gathered? {
        DescAfterFate(st.cat, st.api, s.clock, RefOf(q, base), base.cluster,
                      Templates(q, Gather(st.cat, base.spec)), k, was);
      }
    }
  }

  /** The step updates, or tries to, a live Description that is rendered differently by now. */
  ghost predicate Supersedes(s: Store, st: Step, k: Key, p: Prune) {
    && RendersBase(s, st) && WantsDescription(st.event.key, s.bases[st.event.key].spec, k)
    && k in s.descs && !s.descs[k].deleting && p.ns == k.ns && p.current == s.descs[k].spec
    && Localizer.Render(st.cat, k.ns, TemplateAt(st.cat, st.event.key, s.bases[st.event.key].spec, k))
         == Some(p.desired)
    && p.desired != p.current
  }

  lemma PruneForIff(cat: Catalog, t: map<Key, DescSpec>, k: Key, was: Option<Obj<DescSpec>>, p: Prune)
    ensures p in PruneFor(cat, t, k, was)
       <==> && k in t && was.Some? && !was.value.deleting && p.ns == k.ns && p.current == was.value.spec
            && Localizer.Render(cat, k.ns, t[k]) == Some(p.desired) && p.desired != p.current
  {
  }

  lemma RenderingStarts(cat: Catalog, api: Api, s: Store, q: Key, base: Obj<seq<Feed>>, p: Prune)
    requires Gather(cat, base.spec).Gathered?
    ensures var t := Templates(q, Gather(cat, base.spec));
            p in PopulateDescriptions(cat, api, s, q, base).store.prunes <==>
              p in s.prunes || p in PruneFor(cat, t, HelmKey(q), Get(s.descs, HelmKey(q)))
              || p in PruneFor(cat, t, GenericKey(q), Get(s.descs, GenericKey(q)))
  {
  }

  lemma BasePrunes(s: Store, st: Step)
    requires st.event.OnBase? || st.event.OnFeed?
    ensures Next(s, st).prunes ==
              if RendersBase(s, st) then
                PopulateDescriptions(st.cat, st.api, s, st.event.key, s.bases[st.event.key]).store.prunes
              else s.prunes
  {
    var q := st.event.key;
    if q in s.bases {
      Convergence.GatherAllOrNothing(st.cat, s.bases[q].spec);
      if st.event.OnBase? {
        var o := HandledBase(st.cat, st.api, s, q);
      }
    }
  }

  lemma OthersStartNoPrune(s: Store, st: Step, p: Prune)
    requires !st.event.OnBase? && !st.event.OnFeed? && p !in s.prunes
    ensures p !in Effect(s, st).prunes
  {
    if st.event.OnPrune? {
      if st.event.prune in s.prunes {
        PruneEndsIff(st.api, s, st.event.prune);
      }
    } else if st.event.DeleteObject? {
      DeletedReachesNoChild(s, st.event.kind, st.event.key);
    } else if st.event.HoldObject? || st.event.FreeObject? {
      HoldingReachesNoChild(s, st.event.kind, st.event.key, st.event.finalizer);
    }
  }

  lemma BaseStartsIff(s: Store, st: Step, p: Prune)
    requires RendersBase(s, st) && p !in s.prunes
    ensures var q, base := st.event.key, s.bases[st.event.key];
            p in PopulateDescriptions(st.cat, st.api, s, q, base).store.prunes <==>
              Supersedes(s, st, HelmKey(q), p) || Supersedes(s, st, GenericKey(q), p)
  {
    var q, base := st.event.key, s.bases[st.event.key];
    WantsDescriptionIff(st.cat, q, base.spec, HelmKey(q));
    WantsDescriptionIff(st.cat, q, base.spec, GenericKey(q));
    var t := Templates(q, Gather(st.cat, base.spec));
    RenderingStarts(st.cat, st.api, s, q, base, p);
    PruneForIff(st.cat, t, HelmKey(q), Get(s.descs, HelmKey(q)), p);
    PruneForIff(st.cat, t, GenericKey(q), Get(s.descs, GenericKey(q)), p);
  }

  /** Exactly when a prune is started that does not wait already, and for what. */
  lemma PruneStartedIff(s: Store, st: Step, p: Prune)
    requires p !in s.prunes
    ensures p in Next(s, st).prunes <==> exists k :: Supersedes(s, st, k, p)
  {
    if st.event.OnBase? || st.event.OnFeed? {
      BasePrunes(s, st);
      if RendersBase(s, st) {
        BaseStartsIff(s, st, p);
        var q := st.event.key;
        if k :| Supersedes(s, st, k, p) {
          assert k == HelmKey(q) || k == GenericKey(q);
        }
      }
    } else {
      OthersStartNoPrune(s, st, p);
      assert Next(s, st).prunes == Effect(s, st).prunes;
    }
  }

  // ---------------------------------------------------------------- Descriptions by themselves

  /** The hub runs helm for the cluster, as far as helm Descriptions ask. */
  ghost predicate Served(cat: Catalog, ns: string, id: string) {
    exists i :: FirstListed(cat, ns, id, i) && cat.clusters[ns][i].appPusher
  }

  /** Every object of the list parses and can be deleted. */
  ghost predicate AllDeletable(raw: seq<Raw>, st: Step, ns: string) {
    forall r :: r in raw ==> Parse(r).Some? && Deletable(st, ns, Parse(r).value)
  }

  /**
   * A deleting Description gives up its finalizer: a helm one without HelmReleases, a generic one whose
   * objects were all removed, or whose cluster is lost.
   */
  ghost predicate DescriptionEnds(s: Store, st: Step, k: Key)
    requires k in s.descs
  {
    var d := s.descs[k];
    && st.event == OnDescription(k) && d.deleting && st.api(Unprotect(DescriptionKind, k))
    && match d.spec.deployer
       case Helm => Served(st.cat, k.ns, d.cluster) && Childless(s.releases, RefOf(k, d))
       case Generic =>
         Pushed(st.cat, k.ns, d.cluster)
         && (Lost(st.cat, k.ns, d.cluster) || (st.api(Connect(k.ns)) && AllDeletable(d.spec.raw, st, k.ns)))
       case Other => false
  }

  lemma HelmEnds(cat: Catalog, api: Api, s: Store, key: Key)
    requires key in s.descs
    ensures var d := s.descs[key];
            Get(HandleHelm(cat, api, s, key).store.descs, key) ==
              if d.deleting && Served(cat, key.ns, d.cluster) && Childless(s.releases, RefOf(key, d))
                 && api(Unprotect(DescriptionKind, key))
              then Unprotected(d) else Some(d)
    ensures forall j :: j != key ==> Get(HandleHelm(cat, api, s, key).store.descs, j) == Get(s.descs, j)
  {
    MatchingFirst(cat, key.ns, s.descs[key].cluster);
    ChildlessIff(s.releases, RefOf(key, s.descs[key]));
  }

  lemma AllDeletableIff(raw: seq<Raw>, st: Step, ns: string)
    requires st.api(Connect(ns))
    ensures AllParse(raw) && Removed(st.api, ns, Ids(raw)) == Ids(raw) <==> AllDeletable(raw, st, ns)
  {
    if AllParse(raw) && Removed(st.api, ns, Ids(raw)) == Ids(raw) {
      forall r | r in raw ensures Parse(r).Some? && Deletable(st, ns, Parse(r).value) {
        assert Parse(r).value in Ids(raw);
      }
    }
  }

  lemma GenericEnds(s: Store, st: Step, key: Key)
    requires key in s.descs
    ensures var d := s.descs[key];
            Get(HandleGeneric(st.cat, st.api, s, key).store.descs, key) ==
              if d.deleting && st.api(Unprotect(DescriptionKind, key)) && Pushed(st.cat, key.ns, d.cluster)
                 && (Lost(st.cat, key.ns, d.cluster)
                     || (st.api(Connect(key.ns)) && AllDeletable(d.spec.raw, st, key.ns)))
              then Unprotected(d) else Some(d)
    ensures forall j :: j != key ==> Get(HandleGeneric(st.cat, st.api, s, key).store.descs, j) == Get(s.descs, j)
  {
    var d := s.descs[key];
    PushedIff(st.cat, key.ns, d.cluster);
    LostIff(st.cat, key.ns, d.cluster);
    if st.api(Connect(key.ns)) {
      AllDeletableIff(d.spec.raw, st, key.ns);
    }
  }

  /** The Description as its deployer gets it. */
  lemma HandledDescription(s: Store, st: Step) returns (o: Obj<DescSpec>)
    requires st.event.OnDescription? && st.event.key in s.descs
    ensures var key, was := st.event.key, s.descs[st.event.key];
            && o.(finalizers := {}) == was.(finalizers := {})
            && was.finalizers <= o.finalizers <= was.finalizers + {APP_FINALIZER}
            && (o.deleting ==> o.finalizers == was.finalizers)
            && var s', r := s.(descs := s.descs[key := o]), HandleDescription(st.cat, st.api, s, key);
               if !was.deleting && APP_FINALIZER !in was.finalizers && !st.api(Inject(DescriptionKind, key))
               then o == was && r == Outcome(s, false)
               else
                 match was.spec.deployer
                 case Helm => r == HandleHelm(st.cat, st.api, s', key)
                 case Generic => r == HandleGeneric(st.cat, st.api, s', key)
                 case Other => r == Outcome(s', true)
  {
    o := s.descs[st.event.key];
    assert s == s.(descs := s.descs[st.event.key := o]);
    var desc := Protected(st.api, DescriptionKind, st.event.key, o);
    if desc.Some? {
      o := desc.value;
    }
  }

  /** What handling leaves of it. */
  lemma OwnDescription(s: Store, st: Step) returns (o: Obj<DescSpec>)
    requires st.event.OnDescription? && st.event.key in s.descs
    ensures var key, was := st.event.key, s.descs[st.event.key];
            && o.(finalizers := {}) == was.(finalizers := {})
            && was.finalizers <= o.finalizers <= was.finalizers + {APP_FINALIZER}
            && (o.deleting ==> o.finalizers == was.finalizers)
    ensures var descs := HandleDescription(st.cat, st.api, s, st.event.key).store.descs;
            && Get(descs, st.event.key) == (if DescriptionEnds(s, st, st.event.key) then Unprotected(o) else Some(o))
            && forall j :: j != st.event.key ==> Get(descs, j) == Get(s.descs, j)
  {
    var key := st.event.key;
    o := HandledDescription(s, st);
    assert o.(finalizers := {}).born == s.descs[key].born && o.(finalizers := {}).deleting == s.descs[key].deleting;
    assert o.(finalizers := {}).spec == s.descs[key].spec && o.(finalizers := {}).cluster == s.descs[key].cluster;
    assert RefOf(key, o) == RefOf(key, s.descs[key]);
    var s' := s.(descs := s.descs[key := o]);
    if o.spec.deployer.Helm? {
      HelmEnds(st.cat, st.api, s', key);
    } else if o.spec.deployer.Generic? {
      GenericEnds(s', st, key);
    }
  }

  lemma DescriptionStepFate(s: Store, st: Step, k: Key)
    requires st.event.OnDescription?
    ensures var was, after := Get(s.descs, k), Get(HandleDescription(st.cat, st.api, s, st.event.key).store.descs, k);
            && (Hooked(was) ==> (!Hooked(after) <==> DescriptionEnds(s, st, k)))
            && (was.Some? && DescriptionEnds(s, st, k) ==> (after.None? <==> was.value.finalizers <= {APP_FINALIZER}))
            && (Alive(was) ==> Alive(after))
            && (was.None? ==> after.None?)
  {
    if st.event.key in s.descs {
      var o := OwnDescription(s, st);
      UnprotectedFate(o);
    }
  }

  lemma OtherHandlersKeepDescs(s: Store, st: Step)
    requires st.event.OnSubscription? || st.event.OnRelease? || st.event.OnPrune?
    ensures Effect(s, st).descs == s.descs
  {
  }

  lemma UserOnDescription(s: Store, st: Step, k: Key)
    requires !IsHandler(st.event)
    ensures var was, after := Get(s.descs, k), Get(Effect(s, st).descs, k);
            && (Hooked(was) ==> Hooked(after))
            && (Alive(was) ==> (!Alive(after) <==> st.event == DeleteObject(DescriptionKind, k)))
            && (was.None? ==> after.None?)
  {
    UsersAlter(s, st, k);
    AlteredFate(Get(s.descs, k), DescriptionKind, st.event, k);
  }

  /** Exactly when a Description loses the hub's finalizer. */
  lemma DescriptionEndsIff(s: Store, st: Step, k: Key)
    requires k in s.descs && APP_FINALIZER in s.descs[k].finalizers
    ensures !Hooked(Get(Next(s, st).descs, k)) <==> DescriptionEnds(s, st, k)
    ensures DescriptionEnds(s, st, k) ==> (k !in Next(s, st).descs <==> s.descs[k].finalizers == {APP_FINALIZER})
  {
    assert Next(s, st).descs == Effect(s, st).descs;
    if st.event.OnBase? || st.event.OnFeed? {
      BaseStepFate(s, st, k);
    } else if st.event.OnDescription? {
      DescriptionStepFate(s, st, k);
    } else if IsHandler(st.event) {
      OtherHandlersKeepDescs(s, st);
    } else {
      UserOnDescription(s, st, k);
    }
  }

  /** Exactly when a live Description is deleted. */
  lemma DescriptionDeletedIff(s: Store, st: Step, k: Key)
    requires k in s.descs && !s.descs[k].deleting
    ensures !Alive(Get(Next(s, st).descs, k)) <==>
              st.event == DeleteObject(DescriptionKind, k) || BaseDeletes(s, st, k)
  {
    assert Next(s, st).descs == Effect(s, st).descs;
    if st.event.OnBase? || st.event.OnFeed? {
      BaseStepFate(s, st, k);
    } else if st.event.OnDescription? {
      DescriptionStepFate(s, st, k);
    } else if IsHandler(st.event) {
      OtherHandlersKeepDescs(s, st);
    } else {
      UserOnDescription(s, st, k);
    }
  }

  /** Exactly when a Description comes, and what it looks like. */
  lemma DescriptionMadeIff(s: Store, st: Step, k: Key)
    requires k !in s.descs
    ensures k in Next(s, st).descs <==> BaseMakes(s, st, k)
    ensures BaseMakes(s, st, k) ==>
              var q, base := st.event.key, s.bases[st.event.key];
              && Fresh(Get(Next(s, st).descs, k), s.clock, RefOf(q, base), base.cluster)
              && Localizer.Render(st.cat, k.ns, TemplateAt(st.cat, q, base.spec, k))
                 == Some(Next(s, st).descs[k].spec)
  {
    assert Next(s, st).descs == Effect(s, st).descs;
    if st.event.OnBase? || st.event.OnFeed? {
      BaseStepFate(s, st, k);
    } else if st.event.OnDescription? {
      DescriptionStepFate(s, st, k);
    } else if IsHandler(st.event) {
      OtherHandlersKeepDescs(s, st);
    } else {
      UserOnDescription(s, st, k);
    }
  }

  /**
   * A deleting generic Description of a cluster that the hub applies to and that is not lost, whose objects
   * all parse and have an API, leaves with everything in its Raw, when all calls succeed.
   */
  lemma DeletingGenericLeaves(s: Store, st: Step, k: Key)
    requires st.event == OnDescription(k) && (forall c :: st.api(c))
    requires k in s.descs && s.descs[k].deleting && s.descs[k].spec.deployer.Generic?
    requires Pushed(st.cat, k.ns, s.descs[k].cluster) && !Lost(st.cat, k.ns, s.descs[k].cluster)
    requires forall r :: r in s.descs[k].spec.raw ==> Parse(r).Some? && Parse(r).value.group.Some?
    requires s.descs[k].finalizers == {APP_FINALIZER}
    ensures k !in Next(s, st).descs
    ensures forall id :: Carries(s.descs[k].spec.raw, id) ==>
              id !in ChildrenOf(Next(s, st), k.ns)
                  && ((k.ns, id) in Next(s, st).abandoned ==> (k.ns, id) in s.abandoned)
  {
    DescriptionEndsIff(s, st, k);
    forall id | Carries(s.descs[k].spec.raw, id)
      ensures id !in ChildrenOf(Next(s, st), k.ns)
      ensures (k.ns, id) in Next(s, st).abandoned ==> (k.ns, id) in s.abandoned
    {
      ChildrenAfterIff(s, st, k.ns, id);
      AbandonedAfterIff(s, st, k.ns, id);
    }
  }

  // ---------------------------------------------------------------- HelmReleases

  /** The helm Description of the step is handled, deleting or not, with its cluster served. */
  ghost predicate HandlesHelm(s: Store, st: Step, deleting: bool) {
    && st.event.OnDescription? && st.event.key in s.descs
    && var q, d := st.event.key, s.descs[st.event.key];
       && d.deleting == deleting && d.spec.deployer.Helm? && Served(st.cat, q.ns, d.cluster)
       && (deleting || APP_FINALIZER in d.finalizers || st.api(Inject(DescriptionKind, q)))
  }

  ghost predicate AllCharted(cat: Catalog, charts: seq<Key>) {
    forall c :: c in charts ==> c in cat.charts
  }

  /** The charts up to the n-th exist. */
  ghost predicate ChartedUpTo(cat: Catalog, charts: seq<Key>, n: int) {
    0 <= n < |charts| && forall i :: 0 <= i <= n ==> charts[i] in cat.charts
  }

  /** Some chart of the list has its HelmRelease at k. */
  ghost predicate WantsRelease(desc: Key, charts: seq<Key>, k: Key) {
    exists c :: c in charts && k == Key(desc.ns, desc.name + "-" + c.ns + "-" + c.name)
  }

  /** A call that creates the HelmRelease succeeds, for one of the charts before the first that is missing. */
  ghost predicate CreatesRelease(cat: Catalog, api: Api, desc: Key, charts: seq<Key>, k: Key) {
    exists n: nat ::
      && ChartedUpTo(cat, charts, n) && ReleaseKey(desc, charts[n]) == k
      && api(Nth(n, Create(ReleaseKind, k)))
  }

  lemma {:induction false} ChartsFate(cat: Catalog, api: Api, clock: nat, owner: Ref, cluster: string, charts: seq<Key>,
                                      k: Key, was: Option<Obj<ReleaseSpec>>)
    requires AllCharted(cat, charts)
    ensures var after := SyncCharts(cat, api, clock, owner, cluster, charts, k, was).obj;
            && (Hooked(was) ==> Hooked(after))
            && (Alive(was) ==> Alive(after))
            && (was.None? ==> (after.Some? <==>
                  exists n: nat :: n < |charts| && ReleaseKey(owner.key, charts[n]) == k
                      && api(Nth(n, Create(ReleaseKind, k)))))
            && (was.None? && after.Some? ==> Fresh(after, clock, owner, cluster))
  {
    if charts != [] {
      var n := |charts| - 1;
      ChartsFate(cat, api, clock, owner, cluster, charts[..n], k, was);
    }
  }

  lemma ReleaseAfterFate(cat: Catalog, api: Api, clock: nat, owner: Ref, cluster: string, charts: seq<Key>,
                         complete: bool, k: Key, was: Option<Obj<ReleaseSpec>>)
    requires AllCharted(cat, charts)
    ensures var after := ReleaseAfter(cat, api, clock, owner, cluster, charts, complete, k, was);
            && (Hooked(was) ==> Hooked(after))
            && (Alive(was) ==> (!Alive(after) <==>
                  complete && was.value.owner == Some(owner) && !WantsRelease(owner.key, charts, k)
                  && api(Delete(ReleaseKind, k))))
            && (was.None? ==> (after.Some? <==>
                  exists n: nat :: n < |charts| && ReleaseKey(owner.key, charts[n]) == k
                      && api(Nth(n, Create(ReleaseKind, k)))))
            && (was.None? && after.Some? ==> Fresh(after, clock, owner, cluster))
  {
    ChartsFate(cat, api, clock, owner, cluster, charts, k, was);
    assert k in ReleaseKeys(owner.key, charts) <==> WantsRelease(owner.key, charts, k) by {
      forall c | c in charts
        ensures ReleaseKey(owner.key, c) == Key(owner.key.ns, owner.key.name + "-" + c.ns + "-" + c.name) {
      }
    }
  }

  lemma KnownCharts(cat: Catalog, all: seq<Key>)
    ensures AllCharted(cat, all[..Known(cat, all)])
    ensures |all[..Known(cat, all)]| == |all| <==> AllCharted(cat, all)
    ensures forall n :: ChartedUpTo(cat, all, n) <==> 0 <= n < Known(cat, all)
  {
    KnownExist(cat, all);
    Convergence.KnownAll(cat, all);
  }

  /** What a handled helm Description does to the HelmRelease at k. */
  lemma HelmOnRelease(cat: Catalog, api: Api, s: Store, q: Key, k: Key)
    requires q in s.descs
    ensures var d := s.descs[q];
            var was, after := Get(s.releases, k), Get(HandleHelm(cat, api, s, q).store.releases, k);
            if !Served(cat, q.ns, d.cluster) then after == was
            else if d.deleting then after == MarkOne(k, was, RefOf(q, d), Deletes(api, ReleaseKind))
            else
              after == ReleaseAfter(cat, api, s.clock, RefOf(q, d), d.cluster,
                                    d.spec.charts[..Known(cat, d.spec.charts)],
                                    Known(cat, d.spec.charts) == |d.spec.charts|, k, was)
  {
    var d := s.descs[q];
    MatchingFirst(cat, q.ns, d.cluster);
    KnownCharts(cat, d.spec.charts);
    if d.deleting && Owned(s.releases, RefOf(q, d)) == {} {
      assert k !in Owned(s.releases, RefOf(q, d));
    }
  }

  /** The Description of the step owns the HelmRelease and deletes it: it is deleting, or has no such chart. */
  ghost predicate DescriptionDeletes(s: Store, st: Step, k: Key)
    requires k in s.releases
  {
    && (HandlesHelm(s, st, true)
        || (HandlesHelm(s, st, false) && AllCharted(st.cat, s.descs[st.event.key].spec.charts)
            && !WantsRelease(st.event.key, s.descs[st.event.key].spec.charts, k)))
    && s.releases[k].owner == Some(RefOf(st.event.key, s.descs[st.event.key])) && st.api(Delete(ReleaseKind, k))
  }

  /** The Description of the step has a chart for a HelmRelease that is not there, and makes it. */
  ghost predicate DescriptionMakes(s: Store, st: Step, k: Key) {
    && HandlesHelm(s, st, false)
    && CreatesRelease(st.cat, st.api, st.event.key, s.descs[st.event.key].spec.charts, k)
  }

  lemma CreatesReleaseIff(cat: Catalog, api: Api, desc: Key, all: seq<Key>, k: Key)
    ensures var charts := all[..Known(cat, all)];
            CreatesRelease(cat, api, desc, all, k) <==>
              exists n: nat :: n < |charts| && ReleaseKey(desc, charts[n]) == k && api(Nth(n, Create(ReleaseKind, k)))
  {
    KnownCharts(cat, all);
  }

  lemma HelmFate(s: Store, st: Step, k: Key, s': Store)
    requires st.event.OnDescription? && st.event.key in s.descs && s.descs[st.event.key].spec.deployer.Helm?
    requires s' == s.(descs := s'.descs) && st.event.key in s'.descs
    requires s'.descs[st.event.key].(finalizers := {}) == s.descs[st.event.key].(finalizers := {})
    requires s.descs[st.event.key].deleting || APP_FINALIZER in s.descs[st.event.key].finalizers
          || st.api(Inject(DescriptionKind, st.event.key))
    ensures var was, after := Get(s.releases, k), Get(HandleHelm(st.cat, st.api, s', st.event.key).store.releases, k);
            && (Hooked(was) ==> Hooked(after))
            && (Alive(was) ==> (!Alive(after) <==> DescriptionDeletes(s, st, k)))
            && (was.None? ==> (after.Some? <==> DescriptionMakes(s, st, k)))
            && (was.None? && after.Some? ==>
                  Fresh(after, s.clock, RefOf(st.event.key, s.descs[st.event.key]), s.descs[st.event.key].cluster))
  {
    var q, d, was := st.event.key, s.descs[st.event.key], Get(s.releases, k);
    var all := d.spec.charts;
    HelmOnRelease(st.cat, st.api, s', q, k);
    KnownCharts(st.cat, all);
    MarkOneFate(k, was, RefOf(q, d), Deletes(st.api, ReleaseKind));
    ReleaseAfterFate(st.cat, st.api, s.clock, RefOf(q, d), d.cluster, all[..Known(st.cat, all)],
                     Known(st.cat, all) == |all|, k, was);
    CreatesReleaseIff(st.cat, st.api, q, all, k);
    if Known(st.cat, all) == |all| {
      assert all[..Known(st.cat, all)] == all;
    }
  }

  lemma DescriptionStepOnRelease(s: Store, st: Step, k: Key)
    requires st.event.OnDescription?
    ensures var was := Get(s.releases, k);
            var after := Get(HandleDescription(st.cat, st.api, s, st.event.key).store.releases, k);
            && (Hooked(was) ==> Hooked(after))
            && (Alive(was) ==> (!Alive(after) <==> DescriptionDeletes(s, st, k)))
            && (was.None? ==> (after.Some? <==> DescriptionMakes(s, st, k)))
            && (was.None? && after.Some? ==>
                  Fresh(after, s.clock, RefOf(st.event.key, s.descs[st.event.key]), s.descs[st.event.key].cluster))
  {
    var q := st.event.key;
    if q in s.descs {
      var o := HandledDescription(s, st);
      var d := s.descs[q];
      if d.spec.deployer.Helm?
         && (d.deleting || APP_FINALIZER in d.finalizers || st.api(Inject(DescriptionKind, q))) {
        HelmFate(s, st, k, s.(descs := s.descs[q := o]));
      }
    }
  }

  /** A deleting HelmRelease gives up its finalizer once it is uninstalled, or when its cluster is lost. */
  ghost predicate ReleaseEnds(s: Store, st: Step, k: Key)
    requires k in s.releases
  {
    var h := s.releases[k];
    && st.event == OnRelease(k) && h.deleting && st.api(Unprotect(ReleaseKind, k))
    && (Lost(st.cat, k.ns, h.cluster)
        || (Pushed(st.cat, k.ns, h.cluster) && st.api(Connect(k.ns)) && st.api(Uninstall(k))))
  }

  lemma ReleaseStepFate(s: Store, st: Step, k: Key)
    requires st.event.OnRelease?
    ensures var was := Get(s.releases, k);
            var after := Get(HandleRelease(st.cat, st.api, s, st.event.key).store.releases, k);
            && (Hooked(was) ==> (!Hooked(after) <==> ReleaseEnds(s, st, k)))
            && (was.Some? && ReleaseEnds(s, st, k) ==> (after.None? <==> was.value.finalizers <= {APP_FINALIZER}))
            && (Alive(was) ==> Alive(after))
            && (was.None? ==> after.None?)
  {
    var q := st.event.key;
    if q in s.releases {
      PushedIff(st.cat, q.ns, s.releases[q].cluster);
      LostIff(st.cat, q.ns, s.releases[q].cluster);
      UnprotectedFate(s.releases[q]);
    }
  }

  lemma OtherHandlersKeepReleases(s: Store, st: Step)
    requires st.event.OnSubscription? || st.event.OnBase? || st.event.OnFeed? || st.event.OnPrune?
    ensures Effect(s, st).releases == s.releases
  {
  }

  lemma UserOnRelease(s: Store, st: Step, k: Key)
    requires !IsHandler(st.event)
    ensures var was, after := Get(s.releases, k), Get(Effect(s, st).releases, k);
            && (Hooked(was) ==> Hooked(after))
            && (Alive(was) ==> (!Alive(after) <==> st.event == DeleteObject(ReleaseKind, k)))
            && (was.None? ==> after.None?)
  {
    UsersAlter(s, st, k);
    AlteredFate(Get(s.releases, k), ReleaseKind, st.event, k);
  }

  /** Exactly when a HelmRelease loses the hub's finalizer. */
  lemma ReleaseEndsIff(s: Store, st: Step, k: Key)
    requires k in s.releases && APP_FINALIZER in s.releases[k].finalizers
    ensures !Hooked(Get(Next(s, st).releases, k)) <==> ReleaseEnds(s, st, k)
    ensures ReleaseEnds(s, st, k) ==> (k !in Next(s, st).releases <==> s.releases[k].finalizers == {APP_FINALIZER})
  {
    assert Next(s, st).releases == Effect(s, st).releases;
    if st.event.OnDescription? {
      DescriptionStepOnRelease(s, st, k);
    } else if st.event.OnRelease? {
      ReleaseStepFate(s, st, k);
    } else if IsHandler(st.event) {
      OtherHandlersKeepReleases(s, st);
    } else {
      UserOnRelease(s, st, k);
    }
  }

  /** Exactly when a live HelmRelease is deleted. */
  lemma ReleaseDeletedIff(s: Store, st: Step, k: Key)
    requires k in s.releases && !s.releases[k].deleting
    ensures !Alive(Get(Next(s, st).releases, k)) <==>
              st.event == DeleteObject(ReleaseKind, k) || DescriptionDeletes(s, st, k)
  {
    assert Next(s, st).releases == Effect(s, st).releases;
    if st.event.OnDescription? {
      DescriptionStepOnRelease(s, st, k);
    } else if st.event.OnRelease? {
      ReleaseStepFate(s, st, k);
    } else if IsHandler(st.event) {
      OtherHandlersKeepReleases(s, st);
    } else {
      UserOnRelease(s, st, k);
    }
  }

  /** Exactly when a HelmRelease comes, and of whom it is. */
  lemma ReleaseMadeIff(s: Store, st: Step, k: Key)
    requires k !in s.releases
    ensures k in Next(s, st).releases <==> DescriptionMakes(s, st, k)
    ensures DescriptionMakes(s, st, k) ==>
              Fresh(Get(Next(s, st).releases, k), s.clock, RefOf(st.event.key, s.descs[st.event.key]),
                    s.descs[st.event.key].cluster)
  {
    assert Next(s, st).releases == Effect(s, st).releases;
    if st.event.OnDescription? {
      DescriptionStepOnRelease(s, st, k);
    } else if st.event.OnRelease? {
      ReleaseStepFate(s, st, k);
    } else if IsHandler(st.event) {
      OtherHandlersKeepReleases(s, st);
    } else {
      UserOnRelease(s, st, k);
    }
  }

  // ---------------------------------------------------------------- when handling is over

  /** Its cluster is listed, and the hub leaves it to the agent there. */
  ghost predicate LeftToAgent(cat: Catalog, ns: string, id: string) {
    id != "" && ns != ""
    && exists i :: FirstListed(cat, ns, id, i) && (cat.clusters[ns][i].mode.Pull? || !cat.clusters[ns][i].appPusher)
  }

  lemma LeftToAgentIff(cat: Catalog, ns: string, id: string)
    ensures DeployableByHub(cat, ns, id).ByAgent? <==> LeftToAgent(cat, ns, id)
  {
    MatchingFirst(cat, ns, id);
  }

  /**
   * A deleting Description is handled without error exactly when it gives up its finalizer, unless the hub
   * leaves it to others.
   */
  lemma DescriptionWaitsToTheEnd(s: Store, st: Step, k: Key)
    requires st.event == OnDescription(k) && k in s.descs && s.descs[k].deleting
    ensures var d := s.descs[k];
            HandleDescription(st.cat, st.api, s, k).done <==>
              || DescriptionEnds(s, st, k)
              || match d.spec.deployer
                 case Helm => exists i :: FirstListed(st.cat, k.ns, d.cluster, i) && !st.cat.clusters[k.ns][i].appPusher
                 case Generic => LeftToAgent(st.cat, k.ns, d.cluster)
                 case Other => true
  {
    var o := HandledDescription(s, st);
    assert o == s.descs[k];
    assert s.(descs := s.descs[k := o]) == s;
    MatchingFirst(st.cat, k.ns, o.cluster);
    ChildlessIff(s.releases, RefOf(k, o));
    LeftToAgentIff(st.cat, k.ns, o.cluster);
    PushedIff(st.cat, k.ns, o.cluster);
    LostIff(st.cat, k.ns, o.cluster);
    if st.api(Connect(k.ns)) {
      AllDeletableIff(o.spec.raw, st, k.ns);
    }
  }

  /** And a deleting HelmRelease. */
  lemma ReleaseWaitsToTheEnd(s: Store, st: Step, k: Key)
    requires st.event == OnRelease(k) && k in s.releases && s.releases[k].deleting
    ensures HandleRelease(st.cat, st.api, s, k).done <==>
              ReleaseEnds(s, st, k)
              || (!Lost(st.cat, k.ns, s.releases[k].cluster) && LeftToAgent(st.cat, k.ns, s.releases[k].cluster))
  {
    PushedIff(st.cat, k.ns, s.releases[k].cluster);
    LostIff(st.cat, k.ns, s.releases[k].cluster);
    LeftToAgentIff(st.cat, k.ns, s.releases[k].cluster);
  }

  /**
   * A live generic Description is handled without error exactly when everything in it was applied,
   * or is the agent's.
   */
  lemma AppliedToTheEnd(s: Store, st: Step, k: Key)
    requires st.event == OnDescription(k) && k in s.descs && !s.descs[k].deleting
    requires s.descs[k].spec.deployer.Generic?
    ensures var d := s.descs[k];
            HandleDescription(st.cat, st.api, s, k).done <==>
              && (APP_FINALIZER in d.finalizers || st.api(Inject(DescriptionKind, k)))
              && (LeftToAgent(st.cat, k.ns, d.cluster)
                  || (&& Pushed(st.cat, k.ns, d.cluster) && st.api(Connect(k.ns)) && st.api(ReportStatus(k))
                      && forall r :: r in d.spec.raw ==>
                           Parse(r).Some? && Acceptable(Parse(r).value) && st.api(Apply(k.ns, Parse(r).value))))
  {
    var o := HandledDescription(s, st);
    var raw := o.spec.raw;
    PushedIff(st.cat, k.ns, o.cluster);
    LeftToAgentIff(st.cat, k.ns, o.cluster);
    if AllParse(raw) && Applied(st.api, k.ns, raw) == Ids(raw) {
      forall r | r in raw ensures Acceptable(Parse(r).value) && st.api(Apply(k.ns, Parse(r).value)) {
        assert Parse(r).value in Ids(raw);
      }
    }
  }

  lemma {:induction false} OtherChartsOnly(cat: Catalog, api: Api, clock: nat, owner: Ref, cluster: string,
                                           charts: seq<Key>, k: Key, was: Option<Obj<ReleaseSpec>>)
    requires AllCharted(cat, charts) && forall c :: c in charts ==> ReleaseKey(owner.key, c) != k
    ensures SyncCharts(cat, api, clock, owner, cluster, charts, k, was) == Synced(was, true)
  {
    if charts != [] {
      OtherChartsOnly(cat, api, clock, owner, cluster, charts[..|charts| - 1], k, was);
    }
  }

  lemma {:induction false} OnlyChartSynced(cat: Catalog, api: Api, clock: nat, owner: Ref, cluster: string,
                                           charts: seq<Key>, k: Key, was: Option<Obj<ReleaseSpec>>, i: nat)
    requires AllCharted(cat, charts) && Convergence.OnlyChartOf(owner.key, charts, k, i)
    ensures SyncCharts(cat, api, clock, owner, cluster, charts, k, was)
         == SyncRelease(cat, NthApi(api, i), clock, owner, cluster, charts[i], k, was)
  {
    var n := |charts| - 1;
    if i < n {
      OnlyChartSynced(cat, api, clock, owner, cluster, charts[..n], k, was, i);
    } else {
      OtherChartsOnly(cat, api, clock, owner, cluster, charts[..n], k, was);
    }
  }

  /** Its HelmRelease is not deleting, and if it is up to date then its cluster is listed. */
  ghost predicate Reconcilable(cat: Catalog, s: Store, desc: Key, chart: Key)
    requires chart in cat.charts
  {
    var h := Get(s.releases, ReleaseKey(desc, chart));
    h.Some? ==>
      && !h.value.deleting
      && (h.value.spec == Convergence.WantedRelease(cat, chart, h) ==>
            Pushed(cat, desc.ns, h.value.cluster) || LeftToAgent(cat, desc.ns, h.value.cluster))
  }

  lemma ChartDoneIff(cat: Catalog, api: Api, s: Store, owner: Ref, cluster: string, charts: seq<Key>, i: nat)
    requires (forall c :: api(c)) && AllCharted(cat, charts) && i < |charts| && Releases.CollisionFree(charts)
    ensures SyncCharts(cat, api, s.clock, owner, cluster, charts, ReleaseKey(owner.key, charts[i]),
                       Get(s.releases, ReleaseKey(owner.key, charts[i]))).done
       <==> Reconcilable(cat, s, owner.key, charts[i])
  {
    var k := ReleaseKey(owner.key, charts[i]);
    Releases.DistinctReleasesIff(owner.key.name, charts);
    assert Convergence.OnlyChartOf(owner.key, charts, k, i);
    OnlyChartSynced(cat, api, s.clock, owner, cluster, charts, k, Get(s.releases, k), i);
    if k in s.releases {
      PushedIff(cat, k.ns, s.releases[k].cluster);
      LeftToAgentIff(cat, k.ns, s.releases[k].cluster);
    }
  }

  /**
   * With all calls successful, charts without collisions are synced without error exactly when they all
   * exist and each can be reconciled.
   */
  lemma ReleasesDoneIff(cat: Catalog, api: Api, s: Store, owner: Ref, cluster: string, charts: seq<Key>)
    requires (forall c :: api(c)) && Releases.CollisionFree(charts)
    ensures PopulateReleases(cat, api, s, owner, cluster, charts).done
       <==> AllCharted(cat, charts) && forall c :: c in charts ==> c in cat.charts && Reconcilable(cat, s, owner.key, c)
  {
    KnownCharts(cat, charts);
    if AllCharted(cat, charts) {
      assert charts[..Known(cat, charts)] == charts;
      forall i: nat | i < |charts|
        ensures SyncCharts(cat, api, s.clock, owner, cluster, charts, ReleaseKey(owner.key, charts[i]),
                           Get(s.releases, ReleaseKey(owner.key, charts[i]))).done
           <==> Reconcilable(cat, s, owner.key, charts[i])
      {
        ChartDoneIff(cat, api, s, owner, cluster, charts, i);
      }
    }
  }

  // ---------------------------------------------------------------- what the hub leaves alone

  lemma RenderedSteady(cat: Catalog, api: Api, clock: nat, owner: Ref, cluster: string, t: map<Key, DescSpec>, k: Key,
                       was: Obj<DescSpec>)
    ensures Steady(Some(was), DescAfter(cat, api, clock, owner, cluster, t, k, Some(was)))
  {
    SingleSteady(was, k, owner, Deletes(api, DescriptionKind));
    if k in t && Localizer.Render(cat, k.ns, t[k]).Some? {
      RewrittenSteady(was, owner, cluster, Localizer.Render(cat, k.ns, t[k]).value);
    }
  }

  lemma BaseSteadiesDescs(s: Store, st: Step, k: Key)
    requires st.event.OnBase? || st.event.OnFeed?
    ensures Steady(Get(s.descs, k), Get(Effect(s, st).descs, k))
  {
    var q := st.event.key;
    BaseStepOnDescription(s, st, k);
    if k in s.descs && q in s.bases {
      var base := s.bases[q];
      SingleSteady(s.descs[k], k, RefOf(q, base), Deletes(st.api, DescriptionKind));
      if Gather(st.cat, base.spec).Gathered? {
        RenderedSteady(st.cat, st.api, s.clock, RefOf(q, base), base.cluster,
                       Templates(q, Gather(st.cat, base.spec)), k, s.descs[k]);
      }
    }
  }

  lemma DescriptionSteadiesDescs(s: Store, st: Step, k: Key)
    requires st.event.OnDescription?
    ensures Steady(Get(s.descs, k), Get(HandleDescription(st.cat, st.api, s, st.event.key).store.descs, k))
  {
    var q := st.event.key;
    if q in s.descs {
      var o := OwnDescription(s, st);
      assert o.finalizers - {APP_FINALIZER} == s.descs[q].finalizers - {APP_FINALIZER};
      assert o.(finalizers := {}).selfLabelled == s.descs[q].(finalizers := {}).selfLabelled;
      SingleSteady(o, q, RefOf(q, o), Deletes(st.api, DescriptionKind));
    }
  }

  lemma {:induction false} ChartsSteady(cat: Catalog, api: Api, clock: nat, owner: Ref, cluster: string,
                                        charts: seq<Key>, k: Key, was: Option<Obj<ReleaseSpec>>)
    requires AllCharted(cat, charts)
    ensures Steady(was, SyncCharts(cat, api, clock, owner, cluster, charts, k, was).obj)
    ensures was.Some? ==> SyncCharts(cat, api, clock, owner, cluster, charts, k, was).obj.Some?
  {
    if charts != [] {
      ChartsSteady(cat, api, clock, owner, cluster, charts[..|charts| - 1], k, was);
    }
  }

  lemma DescriptionSteadiesReleases(s: Store, st: Step, k: Key)
    requires st.event.OnDescription?
    ensures Steady(Get(s.releases, k), Get(HandleDescription(st.cat, st.api, s, st.event.key).store.releases, k))
  {
    var q, was := st.event.key, Get(s.releases, k);
    if q in s.descs {
      var o := HandledDescription(s, st);
      if o.spec.deployer.Helm? {
        var all := o.spec.charts;
        HelmOnRelease(st.cat, st.api, s.(descs := s.descs[q := o]), q, k);
        KnownCharts(st.cat, all);
        ChartsSteady(st.cat, st.api, s.clock, RefOf(q, o), o.cluster, all[..Known(st.cat, all)], k, was);
        if was.Some? {
          SingleSteady(was.value, k, RefOf(q, o), Deletes(st.api, ReleaseKind));
        }
      }
    }
  }

  lemma ReleaseSteadies(s: Store, st: Step, k: Key)
    requires st.event.OnRelease?
    ensures Steady(Get(s.releases, k), Get(HandleRelease(st.cat, st.api, s, st.event.key).store.releases, k))
  {
    var q := st.event.key;
    if q in s.releases {
      SingleSteady(s.releases[q], q, RefOf(q, s.releases[q]), Deletes(st.api, ReleaseKind));
    }
  }

  lemma HubSteadiesOwners(s: Store, st: Step, k: Key)
    requires IsHandler(st.event)
    ensures Steady(Get(s.subs, k), Get(Effect(s, st).subs, k)) && Steady(Get(s.bases, k), Get(Effect(s, st).bases, k))
  {
    if st.event.OnSubscription? {
      SubscriptionSteadiesSubs(s, st, k);
      SubscriptionSteadiesBases(s, st, k);
    } else {
      OtherHandlersKeepSubs(s, st);
      if st.event.OnBase? {
        BaseSteadiesBases(s, st, k);
      } else {
        OtherHandlersKeepBases(s, st);
      }
    }
  }

  lemma HubSteadiesDescendants(s: Store, st: Step, k: Key)
    requires IsHandler(st.event)
    ensures Steady(Get(s.descs, k), Get(Effect(s, st).descs, k))
         && Steady(Get(s.releases, k), Get(Effect(s, st).releases, k))
  {
    if st.event.OnDescription? {
      DescriptionSteadiesDescs(s, st, k);
      DescriptionSteadiesReleases(s, st, k);
    } else if st.event.OnRelease? {
      OtherHandlersKeepDescs(s, st);
      ReleaseSteadies(s, st, k);
    } else {
      OtherHandlersKeepReleases(s, st);
      if st.event.OnBase? || st.event.OnFeed? {
        BaseSteadiesDescs(s, st, k);
      } else {
        OtherHandlersKeepDescs(s, st);
      }
    }
  }

  /** No step of the hub revives an object, makes another of it, or takes another controller's finalizer. */
  lemma HubIsSteady(s: Store, st: Step, k: Key)
    requires IsHandler(st.event)
    ensures Steady(Get(s.subs, k), Get(Next(s, st).subs, k)) && Steady(Get(s.bases, k), Get(Next(s, st).bases, k))
    ensures Steady(Get(s.descs, k), Get(Next(s, st).descs, k))
         && Steady(Get(s.releases, k), Get(Next(s, st).releases, k))
  {
    HubSteadiesOwners(s, st, k);
    HubSteadiesDescendants(s, st, k);
  }
}
