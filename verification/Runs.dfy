/** Runs of the hub together with its users, its child clusters and other controllers. */
module Runs {
  import opened Collections
  import opened Feeds
  import opened Catalog
  import opened ObjectStore
  import opened Propagation

  /** Handlers that the hub runs, in any order and as often as it likes, and what others do in between. */
  datatype Event =
    | OnSubscription(key: Key)
    | OnBase(key: Key)
    | OnDescription(key: Key)
    | OnRelease(key: Key)
    | OnFeed(key: Key)
    | OnPrune(prune: Prune)
    | NewSubscription(key: Key, sub: SubSpec)
    | EditSubscription(key: Key, sub: SubSpec)
    | NewBase(key: Key, feeds: seq<Feed>)
    | DeleteObject(kind: Kind, key: Key)
    | HoldObject(kind: Kind, key: Key, finalizer: string)
    | FreeObject(kind: Kind, key: Key, finalizer: string)
    | ChildrenGone(ns: string, ids: set<ObjId>)

  predicate IsHandler(e: Event) {
    e.OnSubscription? || e.OnBase? || e.OnDescription? || e.OnRelease? || e.OnFeed? || e.OnPrune?
  }

  /** An event with the objects that its listers show and the calls that succeed. */
  datatype Step = Step(event: Event, cat: Catalog, api: Api)

  function NewObject<S>(clock: nat, spec: S): Obj<S> {
    ObjectStore.Obj.Obj(clock, false, {}, None, "", false, spec)
  }

  function Insert<S>(m: Objects<S>, k: Key, o: Obj<S>): Objects<S> {
    if k in m then m else m[k := o]
  }

  function Change<S>(m: Objects<S>, k: Key, change: Obj<S> -> Option<Obj<S>>): (r: Objects<S>)
    ensures forall j :: Get(r, j) == if j == k && j in m then change(m[j]) else Get(m, j)
  {
    if k in m then Put(m, k, change(m[k])) else m
  }

  /** Another controller's finalizer; none can be added to a deleting object. */
  function Held<S>(o: Obj<S>, f: string): Option<Obj<S>> {
    Some(if o.deleting || f == APP_FINALIZER then o else o.(finalizers := o.finalizers + {f}))
  }

  function Freed<S>(o: Obj<S>, f: string): Option<Obj<S>> {
    if f == APP_FINALIZER then Some(o) else Kept(o.(finalizers := o.finalizers - {f}))
  }

  function Deleted(s: Store, kind: Kind, k: Key): Store {
    match kind
    case SubscriptionKind => s.(subs := Change(s.subs, k, o => Marked(o)))
    case BaseKind => s.(bases := Change(s.bases, k, o => Marked(o)))
    case DescriptionKind => s.(descs := Change(s.descs, k, o => Marked(o)))
    case ReleaseKind => s.(releases := Change(s.releases, k, o => Marked(o)))
  }

  function Holding(s: Store, kind: Kind, k: Key, f: string): Store {
    match kind
    case SubscriptionKind => s.(subs := Change(s.subs, k, o => Held(o, f)))
    case BaseKind => s.(bases := Change(s.bases, k, o => Held(o, f)))
    case DescriptionKind => s.(descs := Change(s.descs, k, o => Held(o, f)))
    case ReleaseKind => s.(releases := Change(s.releases, k, o => Held(o, f)))
  }

  function Freeing(s: Store, kind: Kind, k: Key, f: string): Store {
    match kind
    case SubscriptionKind => s.(subs := Change(s.subs, k, o => Freed(o, f)))
    case BaseKind => s.(bases := Change(s.bases, k, o => Freed(o, f)))
    case DescriptionKind => s.(descs := Change(s.descs, k, o => Freed(o, f)))
    case ReleaseKind => s.(releases := Change(s.releases, k, o => Freed(o, f)))
  }

  function Effect(s: Store, st: Step): Store {
    match st.event
    case OnSubscription(k) => HandleSubscription(st.cat, st.api, s, k).store
    case OnBase(k) => HandleBase(st.cat, st.api, s, k).store
    case OnDescription(k) => HandleDescription(st.cat, st.api, s, k).store
    case OnRelease(k) => HandleRelease(st.cat, st.api, s, k).store
    case OnFeed(k) => ResyncBase(st.cat, st.api, s, k).store
    case OnPrune(p) => RunPrune(st.api, s, p).store
    case NewSubscription(k, spec) => s.(subs := Insert(s.subs, k, NewObject(s.clock, spec)))
    case EditSubscription(k, spec) => s.(subs := Change(s.subs, k, (o: Obj<SubSpec>) => Some(o.(spec := spec))))
    case NewBase(k, feeds) => s.(bases := Insert(s.bases, k, NewObject(s.clock, feeds)))
    case DeleteObject(kind, k) => Deleted(s, kind, k)
    case HoldObject(kind, k, f) => Holding(s, kind, k, f)
    case FreeObject(kind, k, f) => Freeing(s, kind, k, f)
    case ChildrenGone(ns, ids) => SetChildren(s, ns, ChildrenOf(s, ns) - ids)
  }

  function Next(s: Store, st: Step): Store {
    Effect(s, st).(clock := s.clock + 1)
  }

  const EMPTY_STORE: Store := Store(0, map[], map[], map[], map[], map[], multiset{}, {})

  function Run(steps: seq<Step>): Store {
    if steps == [] then EMPTY_STORE else Next(Run(steps[..|steps| - 1]), steps[|steps| - 1])
  }

  lemma RunPrefix(steps: seq<Step>, n: nat)
    requires n < |steps|
    ensures Run(steps[..n + 1]) == Next(Run(steps[..n]), steps[n])
  {
    assert steps[..n + 1][..n] == steps[..n];
  }

  lemma RunSnoc(steps: seq<Step>, st: Step)
    ensures Run(steps + [st]) == Next(Run(steps), st)
  {
  }

  /** A controller other than the hub puts a finalizer on a Base. */
  predicate HoldsBase(st: Step) {
    st.event.HoldObject? && st.event.kind.BaseKind?
  }
}
