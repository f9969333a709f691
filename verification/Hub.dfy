/**
 * The handlers as the hub runs them: loops over lists and to-be-deleted sets that change the store
 * one call at a time, proved against Propagation.
 */
module HubDeployer {
  import opened Collections
  import opened Json
  import opened Feeds
  import opened Catalog
  import opened ObjectStore
  import opened Propagation
  import Runs
  import Localizer

  lemma BindingKeysSnoc(cat: Catalog, name: string, all: seq<string>, n: nat)
    requires n < |all|
    ensures var bindings, more, key := all[..n], all[..n + 1], BaseKey(cat, name, all[n]);
            && (BindingsValid(more) <==> BindingsValid(bindings) && SplitKey(all[n]).Some?)
            && BaseKeys(cat, name, more) == BaseKeys(cat, name, bindings) + (if key.Some? then {key.value} else {})
  {
    assert all[..n + 1] == all[..n] + [all[n]];
  }

  lemma BindingSnoc(cat: Catalog, api: Api, clock: nat, owner: Ref, feeds: seq<Feed>, all: seq<string>, n: nat,
                    was: Objects<seq<Feed>>)
    requires n < |all|
    ensures var bindings, more, key := all[..n], all[..n + 1], BaseKey(cat, owner.key.name, all[n]);
            && (forall j :: key != Some(j) ==>
                  SyncBindings(cat, api, clock, owner, feeds, more, j, Get(was, j))
                  == SyncBindings(cat, api, clock, owner, feeds, bindings, j, Get(was, j)))
            && (key.Some? ==>
                  var k := key.value;
                  var before := SyncBindings(cat, api, clock, owner, feeds, bindings, k, Get(was, k));
                  var r := SyncBase(cat, NthApi(api, n), clock, owner, feeds, k, before.obj);
                  && SyncBindings(cat, api, clock, owner, feeds, more, k, Get(was, k))
                       == Synced(r.obj, before.done && r.done)
                  && (k !in BaseKeys(cat, owner.key.name, bindings) ==> before.done))
  {
    var bindings, more, key := all[..n], all[..n + 1], BaseKey(cat, owner.key.name, all[n]);
    assert more == bindings + [all[n]] && more[..n] == bindings;
    if key.Some? {
      BindingsSync(cat, api, clock, owner, feeds, bindings, key.value, Get(was, key.value));
    }
  }

  /** Once gathering has stopped, the feeds behind do not matter. */
  lemma {:induction false} StoppedStaysStopped(cat: Catalog, feeds: seq<Feed>, n: nat)
    requires n <= |feeds| && !Gather(cat, feeds[..n]).Gathered?
    ensures Gather(cat, feeds) == Gather(cat, feeds[..n])
  {
    if n < |feeds| {
      assert feeds[..|feeds| - 1][..n] == feeds[..n];
      StoppedStaysStopped(cat, feeds[..|feeds| - 1], n);
    } else {
      assert feeds[..n] == feeds;
    }
  }

  lemma {:induction false} KnownIs(cat: Catalog, charts: seq<Key>, n: nat)
    requires n <= |charts| && (forall i :: 0 <= i < n ==> charts[i] in cat.charts)
        && (n < |charts| ==> charts[n] !in cat.charts)
    ensures Known(cat, charts) == n
  {
    KnownExist(cat, charts);
  }

  /** The charts of other names leave a HelmRelease alone. */
  lemma {:induction false} UnnamedChartsDoNothing(cat: Catalog, api: Api, clock: nat, owner: Ref, cluster: string,
                                                  charts: seq<Key>, k: Key, was: Option<Obj<ReleaseSpec>>)
    requires (forall c :: c in charts ==> c in cat.charts) && k !in ReleaseKeys(owner.key, charts)
    ensures SyncCharts(cat, api, clock, owner, cluster, charts, k, was) == Synced(was, true)
  {
    if charts != [] {
      assert ReleaseKey(owner.key, charts[|charts| - 1]) in ReleaseKeys(owner.key, charts);
      assert forall c :: c in charts[..|charts| - 1] ==> c in charts;
      UnnamedChartsDoNothing(cat, api, clock, owner, cluster, charts[..|charts| - 1], k, was);
    }
  }

  lemma ChartSnoc(cat: Catalog, api: Api, clock: nat, owner: Ref, cluster: string, all: seq<Key>, n: nat,
                  was: Objects<ReleaseSpec>)
    requires n < |all| && forall i :: 0 <= i <= n ==> all[i] in cat.charts
    ensures var charts, more, k := all[..n], all[..n + 1], ReleaseKey(owner.key, all[n]);
            && ReleaseKeys(owner.key, more) == ReleaseKeys(owner.key, charts) + {k}
            && (forall j :: j != k ==>
                  SyncCharts(cat, api, clock, owner, cluster, more, j, Get(was, j))
                  == SyncCharts(cat, api, clock, owner, cluster, charts, j, Get(was, j)))
            && var before := SyncCharts(cat, api, clock, owner, cluster, charts, k, Get(was, k));
               var r := SyncRelease(cat, NthApi(api, n), clock, owner, cluster, all[n], k, before.obj);
               && SyncCharts(cat, api, clock, owner, cluster, more, k, Get(was, k))
                    == Synced(r.obj, before.done && r.done)
               && (k !in ReleaseKeys(owner.key, charts) ==> before.done)
  {
    var charts, more, k := all[..n], all[..n + 1], ReleaseKey(owner.key, all[n]);
    assert more == charts + [all[n]] && more[..n] == charts;
    if k !in ReleaseKeys(owner.key, charts) {
      UnnamedChartsDoNothing(cat, api, clock, owner, cluster, charts, k, Get(was, k));
    }
  }

  lemma IsPopulateDescriptions(cat: Catalog, api: Api, s: Store, key: Key, base: Obj<seq<Feed>>, s': Store, done: bool)
    requires Gather(cat, base.spec).Gathered? && s' == s.(descs := s'.descs, prunes := s'.prunes)
    requires var t, owner := Templates(key, Gather(cat, base.spec)), RefOf(key, base);
             && (forall k ::
                   Get(s'.descs, k) == DescAfter(cat, api, s.clock, owner, base.cluster, t, k, Get(s.descs, k)))
             && (done <==>
                   && (forall k :: k in t ==>
                         SyncDescription(cat, api, s.clock, owner, base.cluster, t[k], k, Get(s.descs, k)).done)
                   && (forall k :: k in Owned(s.descs, owner) - t.Keys && !s.descs[k].deleting ==>
                       api(Delete(DescriptionKind, k))))
             && s'.prunes == s.prunes + PruneFor(cat, t, HelmKey(key), Get(s.descs, HelmKey(key)))
                             + PruneFor(cat, t, GenericKey(key), Get(s.descs, GenericKey(key)))
    ensures Outcome(s', done) == PopulateDescriptions(cat, api, s, key, base)
  {
    SameObjects(s'.descs, PopulateDescriptions(cat, api, s, key, base).store.descs);
  }

  lemma IsPopulateBases(cat: Catalog, api: Api, s: Store, owner: Ref, spec: SubSpec, s': Store, done: bool)
    requires s' == s.(bases := s'.bases)
    requires forall k :: Get(s'.bases, k) == BaseAfter(cat, api, s.clock, owner, spec, k, Get(s.bases, k))
    requires var keys := BaseKeys(cat, owner.key.name, spec.bindings);
             done <==>
               && BindingsValid(spec.bindings)
               && (forall k :: k in keys ==>
                     SyncBindings(cat, api, s.clock, owner, spec.feeds, spec.bindings, k, Get(s.bases, k)).done)
               && (forall k :: k in Owned(s.bases, owner) - keys ==> DeletesBase(api, k))
    ensures Outcome(s', done) == PopulateBases(cat, api, s, owner, spec)
  {
    SameObjects(s'.bases, PopulateBases(cat, api, s, owner, spec).store.bases);
  }

  lemma TemplateKeys(key: Key, g: Gathered)
    requires g.Gathered?
    ensures forall k :: k in Templates(key, g) ==> k == HelmKey(key) || k == GenericKey(key)
  {
  }

  /**
   * Resolved feeds call for a Description exactly when there are any, so the deletion for an empty
   * list never happens.
   */
  lemma NoFeedsNoTemplates(cat: Catalog, key: Key, feeds: seq<Feed>)
    requires Gather(cat, feeds).Gathered?
    ensures Templates(key, Gather(cat, feeds)) == map[] <==> feeds == []
  {
    var g := Gather(cat, feeds);
    if feeds != [] {
      assert g.charts != [] || g.manifests != [];
      assert HelmKey(key) in Templates(key, g) || GenericKey(key) in Templates(key, g);
    }
  }

  lemma RawSnoc(raw: seq<Raw>, i: nat)
    requires i < |raw|
    ensures AllParse(raw[..i + 1]) <==> AllParse(raw[..i]) && Parse(raw[i]).Some?
    ensures Ids(raw[..i + 1]) == Ids(raw[..i]) + (if Parse(raw[i]).Some? then {Parse(raw[i]).value} else {})
  {
  }

  /** Every object parsed and was applied. */
  ghost predicate AllApplied(api: Api, ns: string, raw: seq<Raw>) {
    AllParse(raw) && Applied(api, ns, raw) == Ids(raw)
  }

  lemma AppliedSnoc(api: Api, ns: string, raw: seq<Raw>, i: nat)
    requires i < |raw|
    ensures var id := Parse(raw[i]);
            var ok := id.Some? && Acceptable(id.value) && api(Apply(ns, id.value));
            && Applied(api, ns, raw[..i + 1]) == Applied(api, ns, raw[..i]) + (if ok then {id.value} else {})
            && (AllApplied(api, ns, raw[..i + 1]) <==> AllApplied(api, ns, raw[..i]) && ok)
  {
    RawSnoc(raw, i);
    var ids, applied := Ids(raw[..i + 1]), Applied(api, ns, raw[..i + 1]);
    if AllApplied(api, ns, raw[..i + 1]) {
      assert forall x :: x in ids ==> x in applied;
    }
  }

  lemma RemovedSnoc(api: Api, ns: string, ids: set<ObjId>, id: ObjId)
    ensures var more := Removed(api, ns, ids + {id});
            && more == Removed(api, ns, ids) + (if Removes(api, ns, id) then {id} else {})
            && (more == ids + {id} <==> Removed(api, ns, ids) == ids && Removes(api, ns, id))
  {
  }

  class Hub {
    var clock: nat
    var subs: Objects<SubSpec>
    var bases: Objects<seq<Feed>>
    var descs: Objects<DescSpec>
    var releases: Objects<ReleaseSpec>
    var children: map<string, set<ObjId>>
    var prunes: multiset<Prune>
    var abandoned: set<(string, ObjId)>

    function State(): Store
      reads this
    {
      Store(clock, subs, bases, descs, releases, children, prunes, abandoned)
    }

    constructor ()
      ensures State() == Store(0, map[], map[], map[], map[], map[], multiset{}, {})
    {
      clock, subs, bases, descs, releases := 0, map[], map[], map[], map[];
      children, prunes, abandoned := map[], multiset{}, {};
    }

    // -------------------------------------------------------------- Subscriptions

    method SyncOneBase(cat: Catalog, api: Api, owner: Ref, feeds: seq<Feed>, k: Key) returns (done: bool)
      modifies this`bases
      ensures Synced(Get(bases, k), done) == SyncBase(cat, api, clock, owner, feeds, k, old(Get(bases, k)))
      ensures forall j :: j != k ==> Get(bases, j) == old(Get(bases, j))
    {
      if k in bases {
        var cur := bases[k];
        if cur.deleting {
          return false;
        }
        if cur.spec == feeds {
          return true;
        }
        if !api(Update(BaseKind, k)) {
          return false;
        }
        bases := bases[k := Rewritten(cur, owner, ClusterOf(cat, k.ns, cur.cluster), feeds)];
        return true;
      }
      if !api(Create(BaseKind, k)) {
        return false;
      }
      bases := bases[k := Created(clock, owner, ClusterOf(cat, k.ns, ""), feeds)];
      return true;
    }

    method DeleteOneBase(api: Api, k: Key) returns (done: bool)
      requires k in bases
      modifies this`bases
      ensures done == DeletesBase(api, k)
      ensures Get(bases, k) == if done then Marked(old(bases)[k]) else Some(old(bases)[k])
      ensures forall j :: j != k ==> Get(bases, j) == old(Get(bases, j))
    {
      if !api(UnlabelFeeds(BaseKind, k)) {
        return false;
      }
      if !api(Delete(BaseKind, k)) {
        return false;
      }
      bases := Put(bases, k, Marked(bases[k]));
      return true;
    }

    /** The first loop: sync the Base of each binding cluster, and spare it from deletion even when that fails. */
    method SyncBases(cat: Catalog, api: Api, owner: Ref, spec: SubSpec) returns (failed: bool, obsolete: set<Key>)
      modifies this`bases
      ensures var keys, was := BaseKeys(cat, owner.key.name, spec.bindings), old(bases);
              && obsolete == Owned(was, owner) - keys
              && (forall k :: Get(bases, k) ==
                    SyncBindings(cat, api, clock, owner, spec.feeds, spec.bindings, k, Get(was, k)).obj)
              && (!failed <==>
                    && BindingsValid(spec.bindings)
                    && forall k :: k in keys ==>
                         SyncBindings(cat, api, clock, owner, spec.feeds, spec.bindings, k, Get(was, k)).done)
    {
      ghost var was := bases;
      var bindings, name := spec.bindings, owner.key.name;
      obsolete := Owned(bases, owner);
      failed := false;
      for i := 0 to |bindings|
        invariant obsolete == Owned(was, owner) - BaseKeys(cat, name, bindings[..i])
        invariant forall k :: Get(bases, k) ==
                    SyncBindings(cat, api, clock, owner, spec.feeds, bindings[..i], k, Get(was, k)).obj
        invariant !failed <==>
                    && BindingsValid(bindings[..i])
                    && forall k :: k in BaseKeys(cat, name, bindings[..i]) ==>
                         SyncBindings(cat, api, clock, owner, spec.feeds, bindings[..i], k, Get(was, k)).done
      {
        BindingKeysSnoc(cat, owner.key.name, bindings, i);
        BindingSnoc(cat, api, clock, owner, spec.feeds, bindings, i, was);
        var split := SplitKey(bindings[i]);
        if split.None? {
          failed := true;
        } else if split.value.0 in cat.namespaces {
          var k := Key(split.value.0, name);
          var done := SyncOneBase(cat, NthApi(api, i), owner, spec.feeds, k);
          if !done {
            failed := true;
          }
          obsolete := obsolete - {k};
        }
      }
      assert bindings[..|bindings|] == bindings;
    }

    /** The second loop: delete what is left over, in any order. */
    method DeleteBases(api: Api, obsolete: set<Key>) returns (failed: bool)
      requires obsolete <= bases.Keys
      modifies this`bases
      ensures forall k :: Get(bases, k) ==
                if k in obsolete && DeletesBase(api, k) then Marked(old(bases)[k]) else Get(old(bases), k)
      ensures !failed <==> forall k :: k in obsolete ==> DeletesBase(api, k)
    {
      ghost var was := bases;
      var todo := obsolete;
      failed := false;
      while todo != {}
        invariant todo <= obsolete
        invariant forall k :: Get(bases, k) ==
                    if k in obsolete && k !in todo && DeletesBase(api, k) then Marked(was[k]) else Get(was, k)
        invariant !failed <==> forall k :: k in obsolete && k !in todo ==> DeletesBase(api, k)
        decreases |todo|
      {
        var k :| k in todo;
        assert Get(bases, k) == Get(was, k);
        var done := DeleteOneBase(api, k);
        if !done {
          failed := true;
        }
        todo := todo - {k};
      }
    }

    method SyncAllBases(cat: Catalog, api: Api, owner: Ref, spec: SubSpec) returns (done: bool)
      modifies this`bases
      ensures Outcome(State(), done) == PopulateBases(cat, api, old(State()), owner, spec)
    {
      var failed, obsolete := SyncBases(cat, api, owner, spec);
      ghost var synced := bases;
      forall k | k !in BaseKeys(cat, owner.key.name, spec.bindings) ensures Get(bases, k) == Get(old(bases), k) {
        BindingsSync(cat, api, clock, owner, spec.feeds, spec.bindings, k, Get(old(bases), k));
      }
      forall k | k in obsolete ensures k in bases {
        assert Get(bases, k) == Get(old(bases), k);
      }
      var undeleted := DeleteBases(api, obsolete);
      forall k ensures Get(bases, k) == BaseAfter(cat, api, clock, owner, spec, k, Get(old(bases), k)) {
        assert k in obsolete ==> Get(synced, k) == Get(old(bases), k);
      }
      done := !failed && !undeleted;
      IsPopulateBases(cat, api, old(State()), owner, spec, State(), done);
    }

    /** Delete the Bases of a deleting Subscription that are not yet deleting. */
    method MarkBases(api: Api, owner: Ref)
      modifies this`bases
      ensures bases == MarkOwned(old(bases), owner, DeletesBases(api))
    {
      ghost var was, calls := bases, DeletesBases(api);
      var todo := Owned(bases, owner);
      while todo != {}
        invariant todo <= Owned(was, owner)
        invariant forall k :: Get(bases, k) == if k in todo then Get(was, k) else MarkOne(k, Get(was, k), owner, calls)
        decreases |todo|
      {
        var k :| k in todo;
        assert Get(bases, k) == Get(was, k);
        if !bases[k].deleting {
          var _ := DeleteOneBase(api, k);
        }
        todo := todo - {k};
      }
      SameObjects(bases, MarkOwned(was, owner, DeletesBases(api)));
    }

    method ProcessOneSubscription(cat: Catalog, api: Api, key: Key) returns (done: bool)
      requires key in subs
      modifies this`subs, this`bases
      ensures Outcome(State(), done) == ProcessSubscription(cat, api, old(State()), key)
    {
      var sub := subs[key];
      var owner := RefOf(key, sub);
      if !sub.deleting {
        done := SyncAllBases(cat, api, owner, sub.spec);
        return;
      }
      if Owned(bases, owner) != {} {
        MarkBases(api, owner);
        return false;
      }
      if !api(UnlabelFeeds(SubscriptionKind, key)) {
        return false;
      }
      if !api(Unprotect(SubscriptionKind, key)) {
        return false;
      }
      subs := Put(subs, key, Unprotected(sub));
      return true;
    }

    /** The controller: finalizer, self label, handler. */
    method OnSubscription(cat: Catalog, api: Api, key: Key) returns (done: bool)
      modifies this`subs, this`bases
      ensures Outcome(State(), done) == HandleSubscription(cat, api, old(State()), key)
    {
      if key !in subs {
        return true;
      }
      var sub := Protected(api, SubscriptionKind, key, subs[key]);
      if sub.None? {
        return false;
      }
      var labelled := Labelled(api, SubscriptionKind, key, sub.value);
      if labelled.None? {
        subs := subs[key := sub.value];
        return false;
      }
      subs := subs[key := labelled.value];
      done := ProcessOneSubscription(cat, api, key);
    }

    // -------------------------------------------------------------- Bases

    /** Resolves the feeds one by one and stops at the first that does not. */
    method GatherFeeds(cat: Catalog, feeds: seq<Feed>) returns (g: Gathered)
      ensures g == Gather(cat, feeds)
    {
      var charts: seq<Key>, manifests: seq<Manifest> := [], [];
      for idx := 0 to |feeds|
        invariant Gather(cat, feeds[..idx]) == Gathered(charts, manifests)
      {
        var feed := feeds[idx];
        assert feeds[..idx + 1][..idx] == feeds[..idx];
        assert Gather(cat, feeds[..idx + 1]) == GatherOne(cat, Gathered(charts, manifests), feed);
        if feed.kind == Localizer.HELM_CHART {
          var k := Key(feed.ns, feed.name);
          if k !in cat.charts || cat.charts[k].phase.Verifying? {
            StoppedStaysStopped(cat, feeds, idx + 1);
            return Fail;
          }
          if cat.charts[k].phase.ChartNotFound? {
            StoppedStaysStopped(cat, feeds, idx + 1);
            return Skip;
          }
          charts := charts + [k];
        } else {
          var ms := ListManifests(cat, feed);
          if ms.None? || ms.value == [] {
            StoppedStaysStopped(cat, feeds, idx + 1);
            return Fail;
          }
          manifests := manifests + ms.value;
        }
      }
      assert feeds[..|feeds|] == feeds;
      return Gathered(charts, manifests);
    }

    method DeleteDescription(api: Api, k: Key) returns (done: bool)
      modifies this`descs
      ensures done == api(Delete(DescriptionKind, k))
      ensures descs == if done && k in old(descs) then Put(old(descs), k, Marked(old(descs)[k])) else old(descs)
    {
      done := api(Delete(DescriptionKind, k));
      if done && k in descs {
        descs := Put(descs, k, Marked(descs[k]));
      }
    }

    /**
     * For a Base without feeds the Description would be deleted; no feeds call for none, as
     * NoFeedsNoTemplates shows.
     */
    method SyncOneDescription(cat: Catalog, api: Api, owner: Ref, cluster: string, feeds: seq<Feed>,
                              template: DescSpec, k: Key)
      returns (done: bool)
      modifies this`descs, this`prunes
      ensures feeds != [] ==>
                && Synced(Get(descs, k), done)
                     == SyncDescription(cat, api, clock, owner, cluster, template, k, old(Get(descs, k)))
                && prunes == old(prunes) + PruneFor(cat, map[k := template], k, old(Get(descs, k)))
      ensures feeds == [] ==>
                && (done <==> Localizer.Render(cat, k.ns, template).Some? && api(Delete(DescriptionKind, k)))
                && Get(descs, k) == (if done && k in old(descs) then Marked(old(descs)[k]) else old(Get(descs, k)))
                && prunes == old(prunes)
      ensures forall j :: j != k ==> Get(descs, j) == old(Get(descs, j))
    {
      var rendered := Localizer.ApplyOverridesToDescription(cat, k.ns, template);
      if rendered.None? {
        return false;
      }
      if |feeds| == 0 {
        done := DeleteDescription(api, k);
        return;
      }
      if k in descs {
        var cur := descs[k];
        if cur.deleting {
          return false;
        }
        if cur.spec == rendered.value {
          return true;
        }
        prunes := prunes + multiset{Prune(k.ns, cur.spec, rendered.value)};
        if !api(Update(DescriptionKind, k)) {
          return false;
        }
        descs := descs[k := Rewritten(cur, owner, cluster, rendered.value)];
        return true;
      }
      if !api(Create(DescriptionKind, k)) {
        return false;
      }
      descs := descs[k := Created(clock, owner, cluster, rendered.value)];
      return true;
    }

    method DeleteDescriptions(api: Api, obsolete: set<Key>) returns (failed: bool)
      requires obsolete <= descs.Keys
      modifies this`descs
      ensures forall k :: Get(descs, k) ==
                if k in obsolete && api(Delete(DescriptionKind, k)) then Marked(old(descs)[k]) else Get(old(descs), k)
      ensures !failed <==> forall k :: k in obsolete ==> api(Delete(DescriptionKind, k))
    {
      ghost var was := descs;
      var todo := obsolete;
      failed := false;
      while todo != {}
        invariant todo <= obsolete
        invariant forall k :: Get(descs, k) ==
                    if k in obsolete && k !in todo && api(Delete(DescriptionKind, k)) then Marked(was[k])
                        else Get(was, k)
        invariant !failed <==> forall k :: k in obsolete && k !in todo ==> api(Delete(DescriptionKind, k))
        decreases |todo|
      {
        var k :| k in todo;
        assert Get(descs, k) == Get(was, k);
        if api(Delete(DescriptionKind, k)) {
          descs := Put(descs, k, Marked(descs[k]));
        } else {
          failed := true;
        }
        todo := todo - {k};
      }
    }

    /** Sync the Description at k, if the feeds call for it. */
    method SyncTemplate(cat: Catalog, api: Api, owner: Ref, cluster: string, feeds: seq<Feed>, t: map<Key, DescSpec>,
                        k: Key)
      returns (done: bool)
      requires feeds == [] ==> t == map[]
      modifies this`descs, this`prunes
      ensures k in t ==>
                Synced(Get(descs, k), done)
                    == SyncDescription(cat, api, clock, owner, cluster, t[k], k, old(Get(descs, k)))
      ensures k !in t ==> Get(descs, k) == old(Get(descs, k)) && done
      ensures forall j :: j != k ==> Get(descs, j) == old(Get(descs, j))
      ensures prunes == old(prunes) + PruneFor(cat, t, k, old(Get(descs, k)))
    {
      if k !in t {
        return true;
      }
      done := SyncOneDescription(cat, api, owner, cluster, feeds, t[k], k);
    }

    method SyncTemplates(cat: Catalog, api: Api, key: Key, owner: Ref, cluster: string, feeds: seq<Feed>,
                         t: map<Key, DescSpec>)
      returns (done: bool)
      requires feeds == [] ==> t == map[]
      requires forall k :: k in t ==> k == HelmKey(key) || k == GenericKey(key)
      modifies this`descs, this`prunes
      ensures var was := old(descs);
              && (forall k :: Get(descs, k) ==
                    if k in t then SyncDescription(cat, api, clock, owner, cluster, t[k], k, Get(was, k)).obj
                        else Get(was, k))
              && (done <==>
                    forall k :: k in t ==> SyncDescription(cat, api, clock, owner, cluster, t[k], k, Get(was, k)).done)
              && prunes == old(prunes) + PruneFor(cat, t, HelmKey(key), Get(was, HelmKey(key)))
                           + PruneFor(cat, t, GenericKey(key), Get(was, GenericKey(key)))
    {
      DifferentKeys(key);
      ghost var was := descs;
      var helm := SyncTemplate(cat, api, owner, cluster, feeds, t, HelmKey(key));
      ghost var between := descs;
      assert Get(between, GenericKey(key)) == Get(was, GenericKey(key));
      var generic := SyncTemplate(cat, api, owner, cluster, feeds, t, GenericKey(key));
      forall k ensures Get(descs, k) ==
          if k in t then SyncDescription(cat, api, clock, owner, cluster, t[k], k, Get(was, k)).obj else Get(was, k) {
        assert k != GenericKey(key) ==> Get(descs, k) == Get(between, k);
        assert k != HelmKey(key) ==> Get(between, k) == Get(was, k);
      }
      return helm && generic;
    }

    /** Sync what the feeds call for, then delete the other live Descriptions of the Base. */
    method ReplaceDescriptions(cat: Catalog, api: Api, key: Key, owner: Ref, cluster: string, feeds: seq<Feed>,
                               t: map<Key, DescSpec>) returns (done: bool)
      requires feeds == [] ==> t == map[]
      requires forall k :: k in t ==> k == HelmKey(key) || k == GenericKey(key)
      modifies this`descs, this`prunes
      ensures var was := old(descs);
              && (forall k :: Get(descs, k) == DescAfter(cat, api, clock, owner, cluster, t, k, Get(was, k)))
              && (done <==>
                    && (forall k :: k in t ==>
                        SyncDescription(cat, api, clock, owner, cluster, t[k], k, Get(was, k)).done)
                    && (forall k :: k in Owned(was, owner) - t.Keys && !was[k].deleting ==>
                        api(Delete(DescriptionKind, k))))
              && prunes == old(prunes) + PruneFor(cat, t, HelmKey(key), Get(was, HelmKey(key)))
                           + PruneFor(cat, t, GenericKey(key), Get(was, GenericKey(key)))
    {
      var obsolete := set k | k in Owned(descs, owner) - t.Keys && !descs[k].deleting;
      var synced := SyncTemplates(cat, api, key, owner, cluster, feeds, t);
      forall k | k in obsolete ensures k in descs {
        assert Get(descs, k) == Get(old(descs), k);
      }
      ghost var between := descs;
      var undeleted := DeleteDescriptions(api, obsolete);
      forall k ensures Get(descs, k) == DescAfter(cat, api, clock, owner, cluster, t, k, Get(old(descs), k)) {
        assert k in obsolete ==> Get(between, k) == Get(old(descs), k);
      }
      return synced && !undeleted;
    }

    method SyncAllDescriptions(cat: Catalog, api: Api, key: Key, base: Obj<seq<Feed>>) returns (done: bool)
      modifies this`descs, this`prunes
      ensures Outcome(State(), done) == PopulateDescriptions(cat, api, old(State()), key, base)
    {
      var g := GatherFeeds(cat, base.spec);
      if !g.Gathered? {
        return g.Skip?;
      }
      TemplateKeys(key, g);
      NoFeedsNoTemplates(cat, key, base.spec);
      done := ReplaceDescriptions(cat, api, key, RefOf(key, base), base.cluster, base.spec, Templates(key, g));
      IsPopulateDescriptions(cat, api, old(State()), key, base, State(), done);
    }

    /** Delete the Descriptions of a deleting Base that are not yet deleting. */
    method MarkDescriptions(api: Api, owner: Ref)
      modifies this`descs
      ensures descs == MarkOwned(old(descs), owner, Deletes(api, DescriptionKind))
    {
      ghost var was, calls := descs, Deletes(api, DescriptionKind);
      var todo := Owned(descs, owner);
      while todo != {}
        invariant todo <= Owned(was, owner)
        invariant forall k :: Get(descs, k) == if k in todo then Get(was, k) else MarkOne(k, Get(was, k), owner, calls)
        decreases |todo|
      {
        var k :| k in todo;
        assert Get(descs, k) == Get(was, k);
        if !descs[k].deleting && api(Delete(DescriptionKind, k)) {
          descs := Put(descs, k, Marked(descs[k]));
        }
        todo := todo - {k};
      }
      SameObjects(descs, MarkOwned(was, owner, Deletes(api, DescriptionKind)));
    }

    method ProcessOneBase(cat: Catalog, api: Api, key: Key) returns (done: bool)
      requires key in bases
      modifies this`bases, this`descs, this`prunes
      ensures Outcome(State(), done) == ProcessBase(cat, api, old(State()), key)
    {
      var base := bases[key];
      var owner := RefOf(key, base);
      if !base.deleting {
        if !api(LabelFeeds(key)) {
          return false;
        }
        done := SyncAllDescriptions(cat, api, key, base);
        return;
      }
      if Owned(descs, owner) != {} {
        MarkDescriptions(api, owner);
        return false;
      }
      if !api(Unprotect(BaseKind, key)) {
        return false;
      }
      bases := Put(bases, key, Unprotected(base));
      return true;
    }

    method OnBase(cat: Catalog, api: Api, key: Key) returns (done: bool)
      modifies this`bases, this`descs, this`prunes
      ensures Outcome(State(), done) == HandleBase(cat, api, old(State()), key)
    {
      if key !in bases {
        return true;
      }
      var base := Protected(api, BaseKind, key, bases[key]);
      if base.None? {
        return false;
      }
      var labelled := Labelled(api, BaseKind, key, base.value);
      if labelled.None? {
        bases := bases[key := base.value];
        return false;
      }
      bases := bases[key := labelled.value];
      done := ProcessOneBase(cat, api, key);
    }

    method OnFeed(cat: Catalog, api: Api, key: Key) returns (done: bool)
      modifies this`descs, this`prunes
      ensures Outcome(State(), done) == ResyncBase(cat, api, old(State()), key)
    {
      if key !in bases || !bases[key].selfLabelled {
        return true;
      }
      done := SyncAllDescriptions(cat, api, key, bases[key]);
    }

    // -------------------------------------------------------------- helm Descriptions and HelmReleases

    method SyncOneRelease(cat: Catalog, api: Api, owner: Ref, cluster: string, chart: Key, k: Key) returns (done: bool)
      requires chart in cat.charts
      modifies this`releases
      ensures Synced(Get(releases, k), done)
           == SyncRelease(cat, api, clock, owner, cluster, chart, k, old(Get(releases, k)))
      ensures forall j :: j != k ==> Get(releases, j) == old(Get(releases, j))
    {
      var want := ReleaseSpec(Some(chart.name), cat.charts[chart].options);
      if k in releases {
        var cur := releases[k];
        if cur.deleting {
          return false;
        }
        if cur.spec.releaseName.None? {
          want := want.(releaseName := None);
        }
        if cur.spec == want {
          return Reconciles(cat, api, k, cur.cluster);
        }
        if !api(Update(ReleaseKind, k)) {
          return false;
        }
        releases := releases[k := Rewritten(cur, owner, cluster, want)];
        return true;
      }
      if !api(Create(ReleaseKind, k)) {
        return false;
      }
      releases := releases[k := Created(clock, owner, cluster, want)];
      return true;
    }

    method DeleteReleases(api: Api, obsolete: set<Key>) returns (failed: bool)
      requires obsolete <= releases.Keys
      modifies this`releases
      ensures forall k :: Get(releases, k) ==
                if k in obsolete && api(Delete(ReleaseKind, k)) then Marked(old(releases)[k]) else Get(old(releases), k)
      ensures !failed <==> forall k :: k in obsolete ==> api(Delete(ReleaseKind, k))
    {
      ghost var was := releases;
      var todo := obsolete;
      failed := false;
      while todo != {}
        invariant todo <= obsolete
        invariant forall k :: Get(releases, k) ==
                    if k in obsolete && k !in todo && api(Delete(ReleaseKind, k)) then Marked(was[k]) else Get(was, k)
        invariant !failed <==> forall k :: k in obsolete && k !in todo ==> api(Delete(ReleaseKind, k))
        decreases |todo|
      {
        var k :| k in todo;
        assert Get(releases, k) == Get(was, k);
        if api(Delete(ReleaseKind, k)) {
          releases := Put(releases, k, Marked(releases[k]));
        } else {
          failed := true;
        }
        todo := todo - {k};
      }
    }

    /** The loop over the charts, up to the first that does not exist. */
    method SyncKnownCharts(cat: Catalog, api: Api, owner: Ref, cluster: string, all: seq<Key>)
      returns (n: nat, failed: bool, obsolete: set<Key>)
      modifies this`releases
      ensures n == Known(cat, all) && forall c :: c in all[..n] ==> c in cat.charts
      ensures var charts, was := all[..n], old(releases);
              && obsolete == Owned(was, owner) - ReleaseKeys(owner.key, charts)
              && (forall k :: Get(releases, k) ==
                    SyncCharts(cat, api, clock, owner, cluster, charts, k, Get(was, k)).obj)
              && (!failed <==> forall k :: k in ReleaseKeys(owner.key, charts) ==>
                    SyncCharts(cat, api, clock, owner, cluster, charts, k, Get(was, k)).done)
    {
      ghost var was := releases;
      obsolete := Owned(releases, owner);
      failed := false;
      n := 0;
      assert all[..0] == [];
      while n < |all| && all[n] in cat.charts
        invariant n <= |all|
        invariant forall i :: 0 <= i < n ==> all[i] in cat.charts
        invariant obsolete == Owned(was, owner) - ReleaseKeys(owner.key, all[..n])
        invariant forall k ::
            Get(releases, k) == SyncCharts(cat, api, clock, owner, cluster, all[..n], k, Get(was, k)).obj
        invariant !failed <==> forall k :: k in ReleaseKeys(owner.key, all[..n]) ==>
                    SyncCharts(cat, api, clock, owner, cluster, all[..n], k, Get(was, k)).done
      {
        ChartSnoc(cat, api, clock, owner, cluster, all, n, was);
        var k := ReleaseKey(owner.key, all[n]);
        obsolete := obsolete - {k};
        var done := SyncOneRelease(cat, NthApi(api, n), owner, cluster, all[n], k);
        if !done {
          failed := true;
        }
        n := n + 1;
      }
      KnownIs(cat, all, n);
    }

    method SyncAllReleases(cat: Catalog, api: Api, owner: Ref, cluster: string, all: seq<Key>) returns (done: bool)
      modifies this`releases
      ensures Outcome(State(), done) == PopulateReleases(cat, api, old(State()), owner, cluster, all)
    {
      ghost var was := releases;
      var n, failed, obsolete := SyncKnownCharts(cat, api, owner, cluster, all);
      ghost var charts := all[..n];
      forall k | k !in ReleaseKeys(owner.key, charts) ensures Get(releases, k) == Get(was, k) {
        UnnamedChartsDoNothing(cat, api, clock, owner, cluster, charts, k, Get(was, k));
      }
      forall k | k in obsolete ensures k in releases {
        assert Get(releases, k) == Get(was, k);
      }
      if n == |all| {
        var undeleted := DeleteReleases(api, obsolete);
        done := !failed && !undeleted;
      } else {
        done := false;
      }
      forall k ensures Get(releases, k) ==
        ReleaseAfter(cat, api, clock, owner, cluster, charts, n == |all|, k, Get(was, k))
      {
      }
      SameObjects(releases, PopulateReleases(cat, api, old(State()), owner, cluster, all).store.releases);
    }

    /** Delete the HelmReleases of a deleting Description that are not yet deleting. */
    method MarkReleases(api: Api, owner: Ref)
      modifies this`releases
      ensures releases == MarkOwned(old(releases), owner, Deletes(api, ReleaseKind))
    {
      ghost var was, calls := releases, Deletes(api, ReleaseKind);
      var todo := Owned(releases, owner);
      while todo != {}
        invariant todo <= Owned(was, owner)
        invariant forall k :: Get(releases, k) == if k in todo then Get(was, k)
            else MarkOne(k, Get(was, k), owner, calls)
        decreases |todo|
      {
        var k :| k in todo;
        assert Get(releases, k) == Get(was, k);
        if !releases[k].deleting && api(Delete(ReleaseKind, k)) {
          releases := Put(releases, k, Marked(releases[k]));
        }
        todo := todo - {k};
      }
      SameObjects(releases, MarkOwned(was, owner, Deletes(api, ReleaseKind)));
    }

    method ProcessHelm(cat: Catalog, api: Api, key: Key) returns (done: bool)
      requires key in descs
      modifies this`descs, this`releases
      ensures Outcome(State(), done) == HandleHelm(cat, api, old(State()), key)
    {
      var d := descs[key];
      var owner := RefOf(key, d);
      var clusters := MatchingClusters(cat, key.ns, d.cluster);
      if clusters == [] {
        return false;
      }
      if !clusters[0].appPusher {
        return true;
      }
      if !d.deleting {
        done := SyncAllReleases(cat, api, owner, d.cluster, d.spec.charts);
        return;
      }
      if Owned(releases, owner) != {} {
        MarkReleases(api, owner);
        return false;
      }
      if !api(Unprotect(DescriptionKind, key)) {
        return false;
      }
      descs := Put(descs, key, Unprotected(d));
      return true;
    }

    method OnRelease(cat: Catalog, api: Api, key: Key) returns (done: bool)
      modifies this`releases
      ensures Outcome(State(), done) == HandleRelease(cat, api, old(State()), key)
    {
      if key !in releases {
        return true;
      }
      var hr := Protected(api, ReleaseKind, key, releases[key]);
      if hr.None? {
        return false;
      }
      var h := hr.value;
      releases := releases[key := h];
      if !h.deleting {
        return Reconciles(cat, api, key, h.cluster);
      }
      if !IsClusterLost(cat, key.ns, h.cluster) {
        var deployable := DeployableByHub(cat, key.ns, h.cluster);
        if deployable.Undecided? {
          return false;
        }
        if deployable.ByAgent? {
          return true;
        }
        if !api(Connect(key.ns)) || !api(Uninstall(key)) {
          return false;
        }
      }
      if !api(Unprotect(ReleaseKind, key)) {
        return false;
      }
      releases := Put(releases, key, Unprotected(h));
      return true;
    }

    // -------------------------------------------------------------- generic Descriptions

    method ApplyAll(api: Api, key: Key) returns (done: bool)
      requires key in descs
      modifies this`children, this`abandoned
      ensures Outcome(State(), done) == ApplyDescription(api, old(State()), key)
    {
      var raw, ns := descs[key].spec.raw, key.ns;
      var applied: set<ObjId>, failed := {}, false;
      for i := 0 to |raw|
        invariant children == old(children) && abandoned == old(abandoned)
        invariant applied == Applied(api, ns, raw[..i])
        invariant !failed <==> AllApplied(api, ns, raw[..i])
      {
        AppliedSnoc(api, ns, raw, i);
        var id := Parse(raw[i]);
        if id.Some? && Acceptable(id.value) && api(Apply(ns, id.value)) {
          applied := applied + {id.value};
        } else {
          failed := true;
        }
      }
      assert raw[..|raw|] == raw;
      children := children[ns := ChildrenOf(State(), ns) + applied];
      abandoned := abandoned - InCluster(ns, applied);
      return api(ReportStatus(key)) && !failed;
    }

    /** Remove the objects; the rest of the store is left to the caller. */
    method RemoveAll(api: Api, ns: string, raw: seq<Raw>) returns (failed: bool)
      modifies this`children
      ensures children == old(children)[ns := ChildrenOf(old(State()), ns) - Removed(api, ns, Ids(raw))]
      ensures !failed <==> AllParse(raw) && Removed(api, ns, Ids(raw)) == Ids(raw)
    {
      ghost var was := ChildrenOf(State(), ns);
      var left := ChildrenOf(State(), ns);
      failed := false;
      for i := 0 to |raw|
        invariant children == old(children)
        invariant left == was - Removed(api, ns, Ids(raw[..i]))
        invariant !failed <==> AllParse(raw[..i]) && Removed(api, ns, Ids(raw[..i])) == Ids(raw[..i])
      {
        RawSnoc(raw, i);
        var id := Parse(raw[i]);
        if id.Some? {
          RemovedSnoc(api, ns, Ids(raw[..i]), id.value);
        }
        if id.Some? && Removes(api, ns, id.value) {
          left := left - {id.value};
        } else {
          failed := true;
        }
      }
      assert raw[..|raw|] == raw;
      children := children[ns := left];
    }

    method OffloadAll(api: Api, key: Key) returns (done: bool)
      requires key in descs
      modifies this`children, this`descs
      ensures Outcome(State(), done) == OffloadDescription(api, old(State()), key)
    {
      var d := descs[key];
      var failed := RemoveAll(api, key.ns, d.spec.raw);
      if failed || !api(Unprotect(DescriptionKind, key)) {
        return false;
      }
      descs := Put(descs, key, Unprotected(d));
      return true;
    }

    method ProcessGeneric(cat: Catalog, api: Api, key: Key) returns (done: bool)
      requires key in descs
      modifies this`children, this`descs, this`abandoned
      ensures Outcome(State(), done) == HandleGeneric(cat, api, old(State()), key)
    {
      var d := descs[key];
      var deployable := DeployableByHub(cat, key.ns, d.cluster);
      if deployable.Undecided? {
        return false;
      }
      if deployable.ByAgent? {
        return true;
      }
      if d.deleting && IsClusterLost(cat, key.ns, d.cluster) {
        if !api(Unprotect(DescriptionKind, key)) {
          return false;
        }
        descs := Put(descs, key, Unprotected(d));
        abandoned := abandoned + InCluster(key.ns, Ids(d.spec.raw));
        return true;
      }
      if !api(Connect(key.ns)) {
        return false;
      }
      if d.deleting {
        done := OffloadAll(api, key);
      } else {
        done := ApplyAll(api, key);
      }
    }

    method OnDescription(cat: Catalog, api: Api, key: Key) returns (done: bool)
      modifies this`descs, this`releases, this`children, this`abandoned
      ensures Outcome(State(), done) == HandleDescription(cat, api, old(State()), key)
    {
      if key !in descs {
        return true;
      }
      var desc := Protected(api, DescriptionKind, key, descs[key]);
      if desc.None? {
        return false;
      }
      descs := descs[key := desc.value];
      match desc.value.spec.deployer {
        case Helm => done := ProcessHelm(cat, api, key);
        case Generic => done := ProcessGeneric(cat, api, key);
        case Other => done := true;
      }
    }

    // -------------------------------------------------------------- started prunes

    /** The printed names of the desired objects. */
    method DesiredNames(raw: seq<Raw>) returns (names: seq<string>, failed: bool)
      ensures forall n :: n in names <==> exists d :: d in Ids(raw) && ResourceName(d) == n
      ensures !failed <==> AllParse(raw)
    {
      names, failed := [], false;
      for i := 0 to |raw|
        invariant forall n :: n in names <==> exists d :: d in Ids(raw[..i]) && ResourceName(d) == n
        invariant !failed <==> AllParse(raw[..i])
      {
        RawSnoc(raw, i);
        var id := Parse(raw[i]);
        if id.None? {
          failed := true;
        } else {
          names := names + [ResourceName(id.value)];
        }
      }
      assert raw[..|raw|] == raw;
    }

    /** The current objects whose names are not among the desired ones. */
    method ObsoleteObjects(raw: seq<Raw>, names: seq<string>) returns (ids: seq<ObjId>, failed: bool)
      ensures forall id :: id in ids <==> id in Ids(raw) && ResourceName(id) !in names
      ensures !failed <==> AllParse(raw)
    {
      ids, failed := [], false;
      for i := 0 to |raw|
        invariant forall id :: id in ids <==> id in Ids(raw[..i]) && ResourceName(id) !in names
        invariant !failed <==> AllParse(raw[..i])
      {
        RawSnoc(raw, i);
        var id := Parse(raw[i]);
        if id.None? {
          failed := true;
        } else if ResourceName(id.value) !in names {
          ids := ids + [id.value];
        }
      }
      assert raw[..|raw|] == raw;
    }

    method RemoveObjects(api: Api, ns: string, ids: seq<ObjId>) returns (failed: bool)
      modifies this`children
      ensures children == old(children)[ns := ChildrenOf(old(State()), ns) - Removed(api, ns, ToSet(ids))]
      ensures !failed <==> Removed(api, ns, ToSet(ids)) == ToSet(ids)
    {
      ghost var was := ChildrenOf(State(), ns);
      var left := ChildrenOf(State(), ns);
      failed := false;
      for i := 0 to |ids|
        invariant children == old(children)
        invariant left == was - Removed(api, ns, ToSet(ids[..i]))
        invariant !failed <==> Removed(api, ns, ToSet(ids[..i])) == ToSet(ids[..i])
      {
        assert ids[..i + 1] == ids[..i] + [ids[i]];
        assert ToSet(ids[..i + 1]) == ToSet(ids[..i]) + {ids[i]};
        RemovedSnoc(api, ns, ToSet(ids[..i]), ids[i]);
        if Removes(api, ns, ids[i]) {
          left := left - {ids[i]};
        } else {
          failed := true;
        }
      }
      assert ids[..|ids|] == ids;
      children := children[ns := left];
    }

    /** PruneFeedsInDescription: an unparsable object fails the attempt, but the others are removed all the same. */
    method OnPrune(api: Api, p: Prune) returns (done: bool)
      modifies this`children, this`prunes
      ensures Outcome(State(), done) == RunPrune(api, old(State()), p)
    {
      if p !in prunes {
        return true;
      }
      if p.desired.deployer.Helm? {
        prunes := prunes - multiset{p};
        return true;
      }
      if !api(Connect(p.ns)) {
        return false;
      }
      var names, badDesired := DesiredNames(p.desired.raw);
      var ids, badCurrent := ObsoleteObjects(p.current.raw, names);
      forall id ensures id in ToSet(ids) <==> id in PruneIds(p) {
      }
      assert ToSet(ids) == PruneIds(p);
      var failed := RemoveObjects(api, p.ns, ids);
      if badDesired || badCurrent || failed {
        return false;
      }
      prunes := prunes - multiset{p};
      return true;
    }

    // -------------------------------------------------------------- steps of a run

    /** A step that the hub itself takes in a run. */
    method Perform(st: Runs.Step)
      requires Runs.IsHandler(st.event)
      modifies this
      ensures State() == Runs.Next(old(State()), st)
    {
      match st.event {
        case OnSubscription(k) => var _ := OnSubscription(st.cat, st.api, k);
        case OnBase(k) => var _ := OnBase(st.cat, st.api, k);
        case OnDescription(k) => var _ := OnDescription(st.cat, st.api, k);
        case OnRelease(k) => var _ := OnRelease(st.cat, st.api, k);
        case OnFeed(k) => var _ := OnFeed(st.cat, st.api, k);
        case OnPrune(p) => var _ := OnPrune(st.api, p);
      }
      clock := clock + 1;
    }
  }
}
