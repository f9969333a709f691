/**
 * Exactly when Subscriptions and Bases come, are marked for deletion and lose the hub's finalizer, in any
 * step of the hub or its environment, in terms of the objects, the catalog and the calls alone.
 */
module Lifecycle {
  import opened Collections
  import opened Feeds
  import opened Catalog
  import opened ObjectStore
  import opened Propagation
  import opened Runs

  /** The object is there with the hub's finalizer. */
  ghost predicate Hooked<S>(o: Option<Obj<S>>) {
    o.Some? && APP_FINALIZER in o.value.finalizers
  }

  /** It is there and not marked for deletion. */
  ghost predicate Alive<S>(o: Option<Obj<S>>) {
    o.Some? && !o.value.deleting
  }

  /** The calls that come before handling succeed: the finalizer for a live object, the label for any. */
  predicate Ready<S>(api: Api, kind: Kind, key: Key, o: Obj<S>) {
    && (o.deleting || APP_FINALIZER in o.finalizers || api(Inject(kind, key)))
    && (o.selfLabelled || api(SelfLabel(kind, key)))
  }

  /** No object has this owner. */
  ghost predicate Childless<S>(m: Objects<S>, r: Ref) {
    forall k :: k in m ==> m[k].owner != Some(r)
  }

  lemma ChildlessIff<S>(m: Objects<S>, r: Ref)
    ensures Owned(m, r) == {} <==> Childless(m, r)
  {
    if k :| k in m && m[k].owner == Some(r) {
      assert k in Owned(m, r);
    }
  }

  // ---------------------------------------------------------------- one object

  /** When the finalizer goes, so does an object that no other controller holds. */
  lemma UnprotectedFate<S>(o: Obj<S>)
    ensures !Hooked(Unprotected(o))
    ensures o.deleting ==> (Unprotected(o).None? <==> o.finalizers <= {APP_FINALIZER})
  {
    assert o.finalizers - {APP_FINALIZER} == {} <==> o.finalizers <= {APP_FINALIZER};
  }

  lemma MarkOneFate<S>(k: Key, o: Option<Obj<S>>, r: Ref, api: Key -> bool)
    ensures Hooked(o) ==> Hooked(MarkOne(k, o, r, api))
    ensures Alive(o) ==> (!Alive(MarkOne(k, o, r, api)) <==> o.value.owner == Some(r) && api(k))
    ensures o.None? ==> MarkOne(k, o, r, api).None?
  {
  }

  lemma HookedStays<S>(o: Obj<S>, f: string)
    requires APP_FINALIZER in o.finalizers
    ensures Hooked(Marked(o)) && Hooked(Held(o, f)) && Hooked(Freed(o, f))
  {
    assert f != APP_FINALIZER ==> APP_FINALIZER in o.finalizers - {f};
  }

  lemma UsersMark<S>(o: Obj<S>, f: string)
    requires !o.deleting
    ensures !Alive(Marked(o)) && Alive(Held(o, f)) && Alive(Freed(o, f))
  {
  }

  /** What deleting, holding or freeing an object, or another event of the environment, does to the one at k. */
  function Altered<S>(o: Option<Obj<S>>, kind: Kind, e: Event, k: Key): Option<Obj<S>> {
    if o.None? || !(e.DeleteObject? || e.HoldObject? || e.FreeObject?) || e.kind != kind || e.key != k then o
    else if e.DeleteObject? then Marked(o.value)
    else if e.HoldObject? then Held(o.value, e.finalizer)
    else Freed(o.value, e.finalizer)
  }

  lemma AltersSubs(s: Store, e: Event, k: Key)
    ensures e.DeleteObject? ==>
        Get(Deleted(s, e.kind, e.key).subs, k) == Altered(Get(s.subs, k), SubscriptionKind, e, k)
    ensures e.HoldObject? ==>
              Get(Holding(s, e.kind, e.key, e.finalizer).subs, k) == Altered(Get(s.subs, k), SubscriptionKind, e, k)
    ensures e.FreeObject? ==>
              Get(Freeing(s, e.kind, e.key, e.finalizer).subs, k) == Altered(Get(s.subs, k), SubscriptionKind, e, k)
  {
  }

  lemma AltersBases(s: Store, e: Event, k: Key)
    ensures e.DeleteObject? ==> Get(Deleted(s, e.kind, e.key).bases, k) == Altered(Get(s.bases, k), BaseKind, e, k)
    ensures e.HoldObject? ==>
              Get(Holding(s, e.kind, e.key, e.finalizer).bases, k) == Altered(Get(s.bases, k), BaseKind, e, k)
    ensures e.FreeObject? ==>
              Get(Freeing(s, e.kind, e.key, e.finalizer).bases, k) == Altered(Get(s.bases, k), BaseKind, e, k)
  {
  }

  lemma AltersDescs(s: Store, e: Event, k: Key)
    ensures e.DeleteObject? ==>
        Get(Deleted(s, e.kind, e.key).descs, k) == Altered(Get(s.descs, k), DescriptionKind, e, k)
    ensures e.HoldObject? ==>
              Get(Holding(s, e.kind, e.key, e.finalizer).descs, k) == Altered(Get(s.descs, k), DescriptionKind, e, k)
    ensures e.FreeObject? ==>
              Get(Freeing(s, e.kind, e.key, e.finalizer).descs, k) == Altered(Get(s.descs, k), DescriptionKind, e, k)
  {
  }

  lemma AltersReleases(s: Store, e: Event, k: Key)
    ensures e.DeleteObject? ==>
        Get(Deleted(s, e.kind, e.key).releases, k) == Altered(Get(s.releases, k), ReleaseKind, e, k)
    ensures e.HoldObject? ==>
              Get(Holding(s, e.kind, e.key, e.finalizer).releases, k) == Altered(Get(s.releases, k), ReleaseKind, e, k)
    ensures e.FreeObject? ==>
              Get(Freeing(s, e.kind, e.key, e.finalizer).releases, k) == Altered(Get(s.releases, k), ReleaseKind, e, k)
  {
  }

  /** The environment alters single objects; and it makes Subscriptions and Bases, and edits the former. */
  lemma UsersAlter(s: Store, st: Step, k: Key)
    requires !IsHandler(st.event)
    ensures var after := Effect(s, st);
            && (!st.event.EditSubscription? && !st.event.NewSubscription? ==>
                  Get(after.subs, k) == Altered(Get(s.subs, k), SubscriptionKind, st.event, k))
            && (!st.event.NewBase? ==> Get(after.bases, k) == Altered(Get(s.bases, k), BaseKind, st.event, k))
            && Get(after.descs, k) == Altered(Get(s.descs, k), DescriptionKind, st.event, k)
            && Get(after.releases, k) == Altered(Get(s.releases, k), ReleaseKind, st.event, k)
  {
    AltersSubs(s, st.event, k);
    AltersBases(s, st.event, k);
    AltersDescs(s, st.event, k);
    AltersReleases(s, st.event, k);
  }

  lemma AlteredFate<S>(o: Option<Obj<S>>, kind: Kind, e: Event, k: Key)
    ensures Hooked(o) ==> Hooked(Altered(o, kind, e, k))
    ensures Alive(o) ==> (!Alive(Altered(o, kind, e, k)) <==> e == DeleteObject(kind, k))
    ensures o.None? ==> Altered(o, kind, e, k).None?
  {
    if o.Some? {
      var f := if e.HoldObject? || e.FreeObject? then e.finalizer else "";
      if APP_FINALIZER in o.value.finalizers {
        HookedStays(o.value, f);
      }
      if !o.value.deleting {
        UsersMark(o.value, f);
      }
    }
  }

  // ---------------------------------------------------------------- bindings

  /** The binding names a cluster in this namespace. */
  ghost predicate BindsTo(binding: string, ns: string) {
    || (ns == "" && '/' !in binding)
    || exists name :: '/' !in ns && '/' !in name && binding == ns + ['/'] + name
  }

  lemma {:induction false} SlashSplits(s: string)
    requires '/' in s
    ensures '/' !in Before(s, '/') && s == Before(s, '/') + ['/'] + After(s, '/')
  {
    if s[0] != '/' {
      assert s == [s[0]] + s[1..];
      SlashSplits(s[1..]);
    }
  }

  lemma SlashJoins(a: string, b: string)
    ensures '/' in a + ['/'] + b
  {
    assert (a + ['/'] + b)[|a|] == '/';
  }

  /** Which namespace a binding is split to. */
  lemma BindsToIff(binding: string, ns: string)
    ensures SplitKey(binding).Some? && SplitKey(binding).value.0 == ns <==> BindsTo(binding, ns)
  {
    CountNone(binding, '/');
    if '/' in binding {
      var a, b := Before(binding, '/'), After(binding, '/');
      SlashSplits(binding);
      CutAtFirst(a, b, '/');
      CountNone(b, '/');
      if name :| '/' !in ns && '/' !in name && binding == ns + ['/'] + name {
        SplitFirst('/', ns, name, a, b);
        CountNone(name, '/');
      }
    } else {
      forall name ensures binding != ns + ['/'] + name {
        SlashJoins(ns, name);
      }
    }
  }

  /** The Subscription of this name and these bindings calls for a Base at k. */
  ghost predicate WantsBase(cat: Catalog, name: string, bindings: seq<string>, k: Key) {
    k.name == name && k.ns in cat.namespaces && exists b :: b in bindings && BindsTo(b, k.ns)
  }

  lemma BaseKeyIff(cat: Catalog, name: string, binding: string, k: Key)
    ensures BaseKey(cat, name, binding) == Some(k)
       <==> k.name == name && k.ns in cat.namespaces && BindsTo(binding, k.ns)
  {
    BindsToIff(binding, k.ns);
  }

  lemma WantsBaseIff(cat: Catalog, name: string, bindings: seq<string>, k: Key)
    ensures k in BaseKeys(cat, name, bindings) <==> WantsBase(cat, name, bindings, k)
  {
    forall b ensures BaseKey(cat, name, b) == Some(k) <==>
        k.name == name && k.ns in cat.namespaces && BindsTo(b, k.ns) {
      BaseKeyIff(cat, name, b, k);
    }
    if WantsBase(cat, name, bindings, k) {
      var b :| b in bindings && BindsTo(b, k.ns);
      assert BaseKey(cat, name, b) == Some(k);
    }
  }

  // ---------------------------------------------------------------- Subscriptions

  /** A deleting Subscription without Bases gives up its finalizer. */
  ghost predicate SubscriptionEnds(s: Store, st: Step, k: Key)
    requires k in s.subs
  {
    && st.event == OnSubscription(k) && s.subs[k].deleting
    && Ready(st.api, SubscriptionKind, k, s.subs[k]) && Childless(s.bases, RefOf(k, s.subs[k]))
    && st.api(UnlabelFeeds(SubscriptionKind, k)) && st.api(Unprotect(SubscriptionKind, k))
  }

  lemma HandledSubscription(cat: Catalog, api: Api, s: Store, key: Key) returns (o: Obj<SubSpec>)
    requires key in s.subs
    ensures o.(finalizers := {}, selfLabelled := true) == s.subs[key].(finalizers := {}, selfLabelled := true)
    ensures s.subs[key].finalizers <= o.finalizers <= s.subs[key].finalizers + {APP_FINALIZER}
    ensures (o.deleting ==> o.finalizers == s.subs[key].finalizers) && (s.subs[key].selfLabelled ==> o.selfLabelled)
    ensures var s' := s.(subs := s.subs[key := o]);
            HandleSubscription(cat, api, s, key) ==
              if Ready(api, SubscriptionKind, key, s.subs[key]) then ProcessSubscription(cat, api, s', key)
              else Outcome(HandleSubscription(cat, api, s, key).store, false)
    ensures !Ready(api, SubscriptionKind, key, s.subs[key]) ==>
              HandleSubscription(cat, api, s, key).store == s.(subs := s.subs[key := o])
  {
    o := s.subs[key];
    assert s == s.(subs := s.subs[key := o]);
    var sub := Protected(api, SubscriptionKind, key, o);
    if sub.Some? {
      o := sub.value;
      var labelled := Labelled(api, SubscriptionKind, key, o);
      if labelled.Some? {
        o := labelled.value;
      }
    }
  }

  lemma OwnSubscription(s: Store, st: Step, k: Key)
    requires k in s.subs && APP_FINALIZER in s.subs[k].finalizers && st.event == OnSubscription(k)
    ensures var after := Get(HandleSubscription(st.cat, st.api, s, k).store.subs, k);
            && (!Hooked(after) <==> SubscriptionEnds(s, st, k))
            && (!Hooked(after) ==> (after.None? <==> s.subs[k].finalizers == {APP_FINALIZER}))
            && (Alive(after) <==> !s.subs[k].deleting)
  {
    var o := HandledSubscription(st.cat, st.api, s, k);
    ChildlessIff(s.bases, RefOf(k, o));
    UnprotectedFate(o);
  }

  lemma OtherSubscription(s: Store, st: Step, k: Key)
    requires st.event.OnSubscription? && st.event.key != k
    ensures Get(HandleSubscription(st.cat, st.api, s, st.event.key).store.subs, k) == Get(s.subs, k)
  {
    if st.event.key in s.subs {
      var o := HandledSubscription(st.cat, st.api, s, st.event.key);
    }
  }

  lemma UserOnSubscription(s: Store, st: Step, k: Key)
    requires !IsHandler(st.event) && k in s.subs
    ensures var after := Get(Effect(s, st).subs, k);
            && (Hooked(Get(s.subs, k)) ==> Hooked(after))
            && (!s.subs[k].deleting ==> (!Alive(after) <==> st.event == DeleteObject(SubscriptionKind, k)))
  {
    UsersAlter(s, st, k);
    AlteredFate(Get(s.subs, k), SubscriptionKind, st.event, k);
  }

  lemma OtherHandlersKeepSubs(s: Store, st: Step)
    requires IsHandler(st.event) && !st.event.OnSubscription?
    ensures Effect(s, st).subs == s.subs
  {
  }

  /** Exactly when a Subscription loses the hub's finalizer, and with it its place if no one else holds it. */
  lemma SubscriptionEndsIff(s: Store, st: Step, k: Key)
    requires k in s.subs && APP_FINALIZER in s.subs[k].finalizers
    ensures !Hooked(Get(Next(s, st).subs, k)) <==> SubscriptionEnds(s, st, k)
    ensures SubscriptionEnds(s, st, k) ==>
              (k !in Next(s, st).subs <==> s.subs[k].finalizers == {APP_FINALIZER})
  {
    assert Next(s, st).subs == Effect(s, st).subs;
    if st.event == OnSubscription(k) {
      OwnSubscription(s, st, k);
    } else if st.event.OnSubscription? {
      OtherSubscription(s, st, k);
    } else if IsHandler(st.event) {
      OtherHandlersKeepSubs(s, st);
    } else {
      UserOnSubscription(s, st, k);
    }
  }

  // ---------------------------------------------------------------- Bases

  /** What a handled Subscription does to the Base at k. */
  lemma SubscriptionOnBase(cat: Catalog, api: Api, s: Store, q: Key, k: Key)
    ensures var was, after := Get(s.bases, k), Get(HandleSubscription(cat, api, s, q).store.bases, k);
            if q !in s.subs || !Ready(api, SubscriptionKind, q, s.subs[q]) then after == was
            else if s.subs[q].deleting then after == MarkOne(k, was, RefOf(q, s.subs[q]), DeletesBases(api))
            else after == BaseAfter(cat, api, s.clock, RefOf(q, s.subs[q]), s.subs[q].spec, k, was)
  {
    if q in s.subs {
      var o := HandledSubscription(cat, api, s, q);
      if o.deleting && Owned(s.bases, RefOf(q, o)) == {} {
        assert k !in Owned(s.bases, RefOf(q, o));
      }
    }
  }

  lemma BaseAfterFate(cat: Catalog, api: Api, clock: nat, owner: Ref, spec: SubSpec, k: Key,
                      was: Option<Obj<seq<Feed>>>)
    ensures var after := BaseAfter(cat, api, clock, owner, spec, k, was);
            && (Hooked(was) ==> Hooked(after))
            && (Alive(was) ==> (!Alive(after) <==>
                  was.value.owner == Some(owner) && DeletesBase(api, k)
                  && !WantsBase(cat, owner.key.name, spec.bindings, k)))
  {
    BindingsSync(cat, api, clock, owner, spec.feeds, spec.bindings, k, was);
    WantsBaseIff(cat, owner.key.name, spec.bindings, k);
  }

  /** A call that creates the Base succeeds, for one of its bindings. */
  ghost predicate CreatesBase(cat: Catalog, api: Api, name: string, bindings: seq<string>, k: Key) {
    && k.name == name && k.ns in cat.namespaces
    && exists n: nat :: n < |bindings| && BindsTo(bindings[n], k.ns) && api(Nth(n, Create(BaseKind, k)))
  }

  /** An object as the hub makes it. */
  ghost predicate Fresh<S>(o: Option<Obj<S>>, clock: nat, owner: Ref, cluster: string) {
    && Alive(o) && o.value.born == clock && o.value.finalizers == {APP_FINALIZER} && o.value.owner == Some(owner)
    && o.value.cluster == cluster && !o.value.selfLabelled
  }

  /** The cluster ID label of a namespace, or none. */
  function IdLabel(cat: Catalog, ns: string): string {
    if ns in cat.namespaces && cat.namespaces[ns].Some? then cat.namespaces[ns].value else ""
  }

  lemma {:induction false} BindingsCreate(cat: Catalog, api: Api, clock: nat, owner: Ref, feeds: seq<Feed>,
                                          bindings: seq<string>, k: Key)
    ensures var after := SyncBindings(cat, api, clock, owner, feeds, bindings, k, None).obj;
            && (after.Some? <==> CreatesBase(cat, api, owner.key.name, bindings, k))
            && (after.Some? ==> Fresh(after, clock, owner, IdLabel(cat, k.ns)) && after.value.spec == feeds)
  {
    if bindings != [] {
      var n := |bindings| - 1;
      BindingsCreate(cat, api, clock, owner, feeds, bindings[..n], k);
      BaseKeyIff(cat, owner.key.name, bindings[n], k);
      if CreatesBase(cat, api, owner.key.name, bindings[..n], k) {
        var m: nat :| m < n && BindsTo(bindings[..n][m], k.ns) && api(Nth(m, Create(BaseKind, k)));
        assert BindsTo(bindings[m], k.ns);
      }
      if CreatesBase(cat, api, owner.key.name, bindings, k) {
        var m: nat :| m <= n && BindsTo(bindings[m], k.ns) && api(Nth(m, Create(BaseKind, k)));
        assert m < n ==> BindsTo(bindings[..n][m], k.ns);
      }
    }
  }

  lemma HandledBase(cat: Catalog, api: Api, s: Store, key: Key) returns (o: Obj<seq<Feed>>)
    requires key in s.bases
    ensures o.(finalizers := {}, selfLabelled := true) == s.bases[key].(finalizers := {}, selfLabelled := true)
    ensures s.bases[key].finalizers <= o.finalizers <= s.bases[key].finalizers + {APP_FINALIZER}
    ensures (o.deleting ==> o.finalizers == s.bases[key].finalizers) && (s.bases[key].selfLabelled ==> o.selfLabelled)
    ensures Ready(api, BaseKind, key, s.bases[key]) ==>
              HandleBase(cat, api, s, key) == ProcessBase(cat, api, s.(bases := s.bases[key := o]), key)
    ensures !Ready(api, BaseKind, key, s.bases[key]) ==>
              HandleBase(cat, api, s, key) == Outcome(s.(bases := s.bases[key := o]), false)
  {
    o := s.bases[key];
    assert s == s.(bases := s.bases[key := o]);
    var base := Protected(api, BaseKind, key, o);
    if base.Some? {
      o := base.value;
      var labelled := Labelled(api, BaseKind, key, o);
      if labelled.Some? {
        o := labelled.value;
      }
    }
  }

  /** A deleting Base without Descriptions gives up its finalizer. */
  ghost predicate BaseEnds(s: Store, st: Step, k: Key)
    requires k in s.bases
  {
    && st.event == OnBase(k) && s.bases[k].deleting
    && Ready(st.api, BaseKind, k, s.bases[k]) && Childless(s.descs, RefOf(k, s.bases[k]))
    && st.api(Unprotect(BaseKind, k))
  }

  lemma ProcessedBase(cat: Catalog, api: Api, s: Store, key: Key)
    requires key in s.bases
    ensures Get(ProcessBase(cat, api, s, key).store.bases, key) ==
              if s.bases[key].deleting && Childless(s.descs, RefOf(key, s.bases[key])) && api(Unprotect(BaseKind, key))
              then Unprotected(s.bases[key]) else Some(s.bases[key])
  {
    ChildlessIff(s.descs, RefOf(key, s.bases[key]));
  }

  lemma OwnBase(s: Store, st: Step, k: Key)
    requires k in s.bases && st.event == OnBase(k)
    ensures var after := Get(HandleBase(st.cat, st.api, s, k).store.bases, k);
            && (Hooked(Get(s.bases, k)) ==> (!Hooked(after) <==> BaseEnds(s, st, k)))
            && (BaseEnds(s, st, k) ==> (after.None? <==> s.bases[k].finalizers <= {APP_FINALIZER}))
            && (!s.bases[k].deleting ==> Alive(after))
  {
    var o := HandledBase(st.cat, st.api, s, k);
    ProcessedBase(st.cat, st.api, s.(bases := s.bases[k := o]), k);
    UnprotectedFate(o);
  }

  lemma OtherBase(s: Store, st: Step, k: Key)
    requires st.event.OnBase? && st.event.key != k
    ensures Get(HandleBase(st.cat, st.api, s, st.event.key).store.bases, k) == Get(s.bases, k)
  {
    if st.event.key in s.bases {
      var o := HandledBase(st.cat, st.api, s, st.event.key);
    }
  }

  lemma UserOnBase(s: Store, st: Step, k: Key)
    requires !IsHandler(st.event)
    ensures var was, after := Get(s.bases, k), Get(Effect(s, st).bases, k);
            && (Hooked(was) ==> Hooked(after))
            && (Alive(was) ==> (!Alive(after) <==> st.event == DeleteObject(BaseKind, k)))
            && (was.None? ==> (after.Some? <==> st.event.NewBase? && st.event.key == k))
  {
    UsersAlter(s, st, k);
    AlteredFate(Get(s.bases, k), BaseKind, st.event, k);
  }

  lemma OtherHandlersKeepBases(s: Store, st: Step)
    requires IsHandler(st.event) && !st.event.OnSubscription? && !st.event.OnBase?
    ensures Effect(s, st).bases == s.bases
  {
  }

  /** The Subscription of the step owns the Base and deletes it: it is deleting, or does not call for it. */
  ghost predicate SubscriptionDeletes(s: Store, st: Step, k: Key)
    requires k in s.bases
  {
    && st.event.OnSubscription? && st.event.key in s.subs
    && var q, sub := st.event.key, s.subs[st.event.key];
       && Ready(st.api, SubscriptionKind, q, sub) && s.bases[k].owner == Some(RefOf(q, sub))
       && (sub.deleting || !WantsBase(st.cat, q.name, sub.spec.bindings, k))
       && st.api(UnlabelFeeds(BaseKind, k)) && st.api(Delete(BaseKind, k))
  }

  /** The Subscription of the step calls for a Base that is not there, and makes it. */
  ghost predicate SubscriptionMakes(s: Store, st: Step, k: Key) {
    && st.event.OnSubscription? && st.event.key in s.subs
    && var q, sub := st.event.key, s.subs[st.event.key];
       && Ready(st.api, SubscriptionKind, q, sub) && !sub.deleting
       && CreatesBase(st.cat, st.api, q.name, sub.spec.bindings, k)
  }

  lemma SubscriptionStepOnBase(s: Store, st: Step, k: Key)
    requires st.event.OnSubscription?
    ensures var was, after := Get(s.bases, k), Get(HandleSubscription(st.cat, st.api, s, st.event.key).store.bases, k);
            && (Hooked(was) ==> Hooked(after))
            && (Alive(was) ==> (!Alive(after) <==> SubscriptionDeletes(s, st, k)))
            && (was.None? ==> (after.Some? <==> SubscriptionMakes(s, st, k)))
            && (was.None? && after.Some? ==>
                  Fresh(after, s.clock, RefOf(st.event.key, s.subs[st.event.key]), IdLabel(st.cat, k.ns))
                  && after.value.spec == s.subs[st.event.key].spec.feeds)
  {
    var q, was := st.event.key, Get(s.bases, k);
    SubscriptionOnBase(st.cat, st.api, s, q, k);
    if q in s.subs {
      var owner, spec := RefOf(q, s.subs[q]), s.subs[q].spec;
      MarkOneFate(k, was, owner, DeletesBases(st.api));
      BaseAfterFate(st.cat, st.api, s.clock, owner, spec, k, was);
      BindingsCreate(st.cat, st.api, s.clock, owner, spec.feeds, spec.bindings, k);
      WantsBaseIff(st.cat, q.name, spec.bindings, k);
      assert CreatesBase(st.cat, st.api, q.name, spec.bindings, k) ==> WantsBase(st.cat, q.name, spec.bindings, k);
    }
  }

  /** Exactly when a Base loses the hub's finalizer. */
  lemma BaseEndsIff(s: Store, st: Step, k: Key)
    requires k in s.bases && APP_FINALIZER in s.bases[k].finalizers
    ensures !Hooked(Get(Next(s, st).bases, k)) <==> BaseEnds(s, st, k)
    ensures BaseEnds(s, st, k) ==> (k !in Next(s, st).bases <==> s.bases[k].finalizers == {APP_FINALIZER})
  {
    assert Next(s, st).bases == Effect(s, st).bases;
    if st.event.OnSubscription? {
      SubscriptionStepOnBase(s, st, k);
    } else if st.event == OnBase(k) {
      OwnBase(s, st, k);
    } else if st.event.OnBase? {
      OtherBase(s, st, k);
    } else if IsHandler(st.event) {
      OtherHandlersKeepBases(s, st);
    } else {
      UserOnBase(s, st, k);
    }
  }

  /** Exactly when a live Base is deleted. */
  lemma BaseDeletedIff(s: Store, st: Step, k: Key)
    requires k in s.bases && !s.bases[k].deleting
    ensures !Alive(Get(Next(s, st).bases, k)) <==>
              st.event == DeleteObject(BaseKind, k) || SubscriptionDeletes(s, st, k)
  {
    assert Next(s, st).bases == Effect(s, st).bases;
    if st.event.OnSubscription? {
      SubscriptionStepOnBase(s, st, k);
    } else if st.event == OnBase(k) {
      OwnBase(s, st, k);
    } else if st.event.OnBase? {
      OtherBase(s, st, k);
    } else if IsHandler(st.event) {
      OtherHandlersKeepBases(s, st);
    } else {
      UserOnBase(s, st, k);
    }
  }

  /** Exactly when a Base comes, and what the hub's looks like. */
  lemma BaseMadeIff(s: Store, st: Step, k: Key)
    requires k !in s.bases
    ensures k in Next(s, st).bases <==>
              (st.event.NewBase? && st.event.key == k) || SubscriptionMakes(s, st, k)
    ensures SubscriptionMakes(s, st, k) ==>
              Fresh(Get(Next(s, st).bases, k), s.clock, RefOf(st.event.key, s.subs[st.event.key]),
                    IdLabel(st.cat, k.ns))
              && Next(s, st).bases[k].spec == s.subs[st.event.key].spec.feeds
  {
    assert Next(s, st).bases == Effect(s, st).bases;
    if st.event.OnSubscription? {
      SubscriptionStepOnBase(s, st, k);
    } else if st.event.OnBase? {
      if st.event.key != k {
        OtherBase(s, st, k);
      }
    } else if IsHandler(st.event) {
      OtherHandlersKeepBases(s, st);
    } else {
      UserOnBase(s, st, k);
    }
  }

  // ---------------------------------------------------------------- when handling a deleting object is over

  /**
   * A deleting Subscription or Base is handled without error exactly when it gives up its
   * finalizer; else it is retried.
   */
  lemma OwnersWaitToTheEnd(s: Store, st: Step, k: Key)
    ensures st.event == OnSubscription(k) && k in s.subs && s.subs[k].deleting ==>
              (HandleSubscription(st.cat, st.api, s, k).done <==> SubscriptionEnds(s, st, k))
    ensures st.event == OnBase(k) && k in s.bases && s.bases[k].deleting ==>
              (HandleBase(st.cat, st.api, s, k).done <==> BaseEnds(s, st, k))
  {
    if st.event == OnSubscription(k) && k in s.subs {
      var o := HandledSubscription(st.cat, st.api, s, k);
      ChildlessIff(s.bases, RefOf(k, o));
    }
    if st.event == OnBase(k) && k in s.bases {
      var o := HandledBase(st.cat, st.api, s, k);
      ChildlessIff(s.descs, RefOf(k, o));
    }
  }

  // ---------------------------------------------------------------- what the hub leaves alone

  /**
   * It stays the object that was made, keeps the finalizers of other controllers, and neither its deletion
   * mark nor its label goes.
   */
  ghost predicate Steady<S>(o: Option<Obj<S>>, after: Option<Obj<S>>) {
    o.Some? && after.Some? ==>
      && after.value.born == o.value.born && (o.value.deleting ==> after.value.deleting)
      && (o.value.selfLabelled ==> after.value.selfLabelled)
      && after.value.finalizers - {APP_FINALIZER} == o.value.finalizers - {APP_FINALIZER}
  }

  lemma SingleSteady<S>(o: Obj<S>, k: Key, r: Ref, api: Key -> bool)
    ensures Steady(Some(o), Unprotected(o)) && Steady(Some(o), MarkOne(k, Some(o), r, api))
  {
  }

  lemma RewrittenSteady<S>(o: Obj<S>, owner: Ref, cluster: string, spec: S)
    ensures Steady(Some(o), Some(Rewritten(o, owner, cluster, spec)))
  {
  }

  lemma ReadiedSteady<S>(was: Obj<S>, o: Obj<S>, after: Option<Obj<S>>)
    requires o.(finalizers := {}, selfLabelled := true) == was.(finalizers := {}, selfLabelled := true)
    requires was.finalizers <= o.finalizers <= was.finalizers + {APP_FINALIZER}
    requires was.selfLabelled ==> o.selfLabelled
    requires after == Some(o) || after == Unprotected(o)
    ensures Steady(Some(was), after)
  {
    assert o.finalizers - {APP_FINALIZER} == was.finalizers - {APP_FINALIZER};
    assert o.(finalizers := {}, selfLabelled := true).born == was.(finalizers := {}, selfLabelled := true).born;
    assert o.(finalizers := {}, selfLabelled := true).deleting
        == was.(finalizers := {}, selfLabelled := true).deleting;
  }

  lemma SubscriptionSteadiesSubs(s: Store, st: Step, k: Key)
    requires st.event.OnSubscription?
    ensures Steady(Get(s.subs, k), Get(HandleSubscription(st.cat, st.api, s, st.event.key).store.subs, k))
  {
    if st.event.key != k {
      OtherSubscription(s, st, k);
    } else if k in s.subs {
      var o := HandledSubscription(st.cat, st.api, s, k);
      ReadiedSteady(s.subs[k], o, Get(HandleSubscription(st.cat, st.api, s, k).store.subs, k));
    }
  }

  lemma SubscriptionSteadiesBases(s: Store, st: Step, k: Key)
    requires st.event.OnSubscription?
    ensures Steady(Get(s.bases, k), Get(HandleSubscription(st.cat, st.api, s, st.event.key).store.bases, k))
  {
    var q, was := st.event.key, Get(s.bases, k);
    SubscriptionOnBase(st.cat, st.api, s, q, k);
    if q in s.subs && was.Some? {
      var owner, spec := RefOf(q, s.subs[q]), s.subs[q].spec;
      BindingsSync(st.cat, st.api, s.clock, owner, spec.feeds, spec.bindings, k, was);
      SingleSteady(was.value, k, owner, DeletesBases(st.api));
      RewrittenSteady(was.value, owner, ClusterOf(st.cat, k.ns, was.value.cluster), spec.feeds);
    }
  }

  lemma BaseSteadiesBases(s: Store, st: Step, k: Key)
    requires st.event.OnBase?
    ensures Steady(Get(s.bases, k), Get(HandleBase(st.cat, st.api, s, st.event.key).store.bases, k))
  {
    if st.event.key != k {
      OtherBase(s, st, k);
    } else if k in s.bases {
      var o := HandledBase(st.cat, st.api, s, k);
      ProcessedBase(st.cat, st.api, s.(bases := s.bases[k := o]), k);
      ReadiedSteady(s.bases[k], o, Get(HandleBase(st.cat, st.api, s, k).store.bases, k));
    }
  }
}
