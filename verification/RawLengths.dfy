/** In every run a helm Description in the store has one Raw entry per chart. */
module RawLengths {
  import opened Collections
  import opened Feeds
  import opened Catalog
  import opened ObjectStore
  import opened Propagation
  import opened Runs
  import Localizer
  import Releases

  ghost predicate Paired(o: Option<Obj<DescSpec>>) {
    o.Some? && o.value.spec.deployer.Helm? ==> |o.value.spec.raw| == |o.value.spec.charts|
  }

  ghost predicate AllPaired(s: Store) {
    forall k :: Paired(Get(s.descs, k))
  }

  lemma RenderedIsPaired(cat: Catalog, ns: string, template: DescSpec)
    ensures var r := Localizer.Render(cat, ns, template);
            r.Some? && r.value.deployer.Helm? ==> |r.value.raw| == |r.value.charts|
  {
  }

  lemma DescAfterPaired(cat: Catalog, api: Api, clock: nat, owner: Ref, cluster: string, t: map<Key, DescSpec>, k: Key,
                        was: Option<Obj<DescSpec>>)
    requires Paired(was)
    ensures Paired(DescAfter(cat, api, clock, owner, cluster, t, k, was))
  {
    if k in t {
      RenderedIsPaired(cat, k.ns, t[k]);
    }
  }

  lemma PopulateKeepsPaired(cat: Catalog, api: Api, s: Store, key: Key, base: Obj<seq<Feed>>)
    requires AllPaired(s)
    ensures AllPaired(PopulateDescriptions(cat, api, s, key, base).store)
  {
    var g, s' := Gather(cat, base.spec), PopulateDescriptions(cat, api, s, key, base).store;
    if g.Gathered? {
      forall k ensures Paired(Get(s'.descs, k)) {
        assert Paired(Get(s.descs, k));
        DescAfterPaired(cat, api, s.clock, RefOf(key, base), base.cluster, Templates(key, g), k, Get(s.descs, k));
      }
    }
  }

  lemma MarkedKeepPaired(m: Objects<DescSpec>, r: Ref, api: Key -> bool, k: Key)
    requires Paired(Get(m, k))
    ensures Paired(Get(MarkOwned(m, r, api), k))
  {
  }

  lemma ProcessBaseKeepsPaired(cat: Catalog, api: Api, s: Store, key: Key)
    requires AllPaired(s) && key in s.bases
    ensures AllPaired(ProcessBase(cat, api, s, key).store)
  {
    if s.bases[key].deleting {
      var r := RefOf(key, s.bases[key]);
      var descs := MarkOwned(s.descs, r, Deletes(api, DescriptionKind));
      forall k ensures Paired(Get(descs, k)) {
        assert Paired(Get(s.descs, k));
        MarkedKeepPaired(s.descs, r, Deletes(api, DescriptionKind), k);
      }
    } else {
      PopulateKeepsPaired(cat, api, s, key, s.bases[key]);
    }
  }

  lemma HandleBaseKeepsPaired(cat: Catalog, api: Api, s: Store, key: Key)
    requires AllPaired(s)
    ensures AllPaired(HandleBase(cat, api, s, key).store)
  {
    if key in s.bases {
      var base := Protected(api, BaseKind, key, s.bases[key]);
      if base.Some? {
        var labelled := Labelled(api, BaseKind, key, base.value);
        if labelled.Some? {
          var s' := s.(bases := s.bases[key := labelled.value]);
          assert AllPaired(s');
          ProcessBaseKeepsPaired(cat, api, s', key);
        }
      }
    }
  }

  lemma PutKeepsPaired(s: Store, key: Key, o: Option<Obj<DescSpec>>)
    requires AllPaired(s) && key in s.descs && (o.Some? ==> o.value.spec == s.descs[key].spec)
    ensures AllPaired(s.(descs := Put(s.descs, key, o)))
  {
  }

  lemma SameDescsPaired(s: Store, s': Store)
    requires AllPaired(s) && s'.descs == s.descs
    ensures AllPaired(s')
  {
  }

  lemma ProcessDescriptionKeepsPaired(cat: Catalog, api: Api, s: Store, key: Key)
    requires AllPaired(s) && key in s.descs
    ensures AllPaired(HandleHelm(cat, api, s, key).store) && AllPaired(HandleGeneric(cat, api, s, key).store)
  {
    var left := s.(descs := Put(s.descs, key, Unprotected(s.descs[key])));
    PutKeepsPaired(s, key, Unprotected(s.descs[key]));
    var helm, generic := HandleHelm(cat, api, s, key).store, HandleGeneric(cat, api, s, key).store;
    SameDescsPaired(if helm.descs == s.descs then s else left, helm);
    SameDescsPaired(if generic.descs == s.descs then s else left, generic);
  }

  lemma HandleDescriptionKeepsPaired(cat: Catalog, api: Api, s: Store, key: Key)
    requires AllPaired(s)
    ensures AllPaired(HandleDescription(cat, api, s, key).store)
  {
    if key in s.descs {
      var desc := Protected(api, DescriptionKind, key, s.descs[key]);
      if desc.Some? {
        var s' := s.(descs := s.descs[key := desc.value]);
        PutKeepsPaired(s, key, desc);
        assert s'.descs == Put(s.descs, key, desc);
        SameDescsPaired(s.(descs := Put(s.descs, key, desc)), s');
        ProcessDescriptionKeepsPaired(cat, api, s', key);
      }
    }
  }

  lemma ChangeKeepsPaired(s: Store, k: Key, change: Obj<DescSpec> -> Option<Obj<DescSpec>>)
    requires AllPaired(s)
        && (k in s.descs && change(s.descs[k]).Some? ==> change(s.descs[k]).value.spec == s.descs[k].spec)
    ensures AllPaired(s.(descs := Change(s.descs, k, change)))
  {
  }

  lemma OtherDescsKeepPaired(s: Store, st: Step)
    requires AllPaired(s) && (st.event.DeleteObject? || st.event.HoldObject? || st.event.FreeObject?)
    requires st.event.kind.DescriptionKind?
    ensures AllPaired(Effect(s, st))
  {
    var e := st.event;
    if e.DeleteObject? {
      ChangeKeepsPaired(s, e.key, o => Marked(o));
    } else if e.HoldObject? {
      ChangeKeepsPaired(s, e.key, o => Held(o, e.finalizer));
    } else {
      ChangeKeepsPaired(s, e.key, o => Freed(o, e.finalizer));
    }
  }

  lemma OtherKindsKeepDescs(s: Store, st: Step)
    requires st.event.DeleteObject? || st.event.HoldObject? || st.event.FreeObject?
    requires !st.event.kind.DescriptionKind?
    ensures Effect(s, st).descs == s.descs
  {
    match st.event.kind {
      case SubscriptionKind =>
      case BaseKind =>
      case ReleaseKind =>
    }
  }

  lemma OthersKeepPaired(s: Store, st: Step)
    requires AllPaired(s) && (st.event.DeleteObject? || st.event.HoldObject? || st.event.FreeObject?)
    ensures AllPaired(Effect(s, st))
  {
    if st.event.kind.DescriptionKind? {
      OtherDescsKeepPaired(s, st);
    } else {
      OtherKindsKeepDescs(s, st);
      SameDescsPaired(s, Effect(s, st));
    }
  }

  lemma HandlersKeepPaired(s: Store, st: Step)
    requires AllPaired(s) && (st.event.OnBase? || st.event.OnFeed? || st.event.OnDescription?)
    ensures AllPaired(Effect(s, st))
  {
    var e := st.event;
    if e.OnBase? {
      HandleBaseKeepsPaired(st.cat, st.api, s, e.key);
    } else if e.OnDescription? {
      HandleDescriptionKeepsPaired(st.cat, st.api, s, e.key);
    } else if e.key in s.bases {
      PopulateKeepsPaired(st.cat, st.api, s, e.key, s.bases[e.key]);
    }
  }

  lemma NextKeepsPaired(s: Store, st: Step)
    requires AllPaired(s)
    ensures AllPaired(Next(s, st))
  {
    var e := st.event;
    if e.OnBase? || e.OnFeed? || e.OnDescription? {
      HandlersKeepPaired(s, st);
    } else if e.DeleteObject? || e.HoldObject? || e.FreeObject? {
      OthersKeepPaired(s, st);
    } else {
      SameDescsPaired(s, Effect(s, st));
    }
    SameDescsPaired(Effect(s, st), Next(s, st));
  }

  /** So the index that GetOverrides computes is always in range, although its guard admits one more. */
  lemma {:induction false} RawInRangeInAnyRun(steps: seq<Step>, k: Key, release: string, i: nat)
    ensures AllPaired(Run(steps))
    ensures k in Run(steps).descs && Run(steps).descs[k].spec.deployer.Helm? ==>
              var d := Run(steps).descs[k].spec;
              Releases.FirstOf(k.name, d.charts, release, i) ==> i < |d.raw|
  {
    if steps != [] {
      RawInRangeInAnyRun(steps[..|steps| - 1], k, release, i);
      NextKeepsPaired(Run(steps[..|steps| - 1]), steps[|steps| - 1]);
    }
    assert Paired(Get(Run(steps).descs, k));
  }
}
