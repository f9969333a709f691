/** The hub's objects and the calls that change them. */
module ObjectStore {
  import opened Collections
  import opened Json
  import opened Feeds
  import opened Catalog

  /** A UID: no two objects with one key are created at the same time, so it is never reused. */
  datatype Ref = Ref(key: Key, born: nat)

  /**
   * An API object. `owner` stands for the four labels kind, name, namespace and UID of its origin,
   * which are always written together; `cluster` is the cluster ID label.
   */
  datatype Obj<+S> = Obj(
    born: nat,
    deleting: bool,
    finalizers: set<string>,
    owner: Option<Ref>,
    cluster: string,
    selfLabelled: bool,
    spec: S)

  type Objects<S> = map<Key, Obj<S>>

  datatype SubSpec = SubSpec(feeds: seq<Feed>, bindings: seq<string>)

  datatype ReleaseSpec = ReleaseSpec(releaseName: Option<string>, options: string)

  /** A prune that was started for a changed Description and is retried until it succeeds. */
  datatype Prune = Prune(ns: string, current: DescSpec, desired: DescSpec)

  /**
   * `children` holds, for each dedicated namespace, what the hub has applied in its child cluster;
   * `abandoned` what was in Descriptions that were released because their cluster was lost.
   */
  datatype Store = Store(
    clock: nat,
    subs: Objects<SubSpec>,
    bases: Objects<seq<Feed>>,
    descs: Objects<DescSpec>,
    releases: Objects<ReleaseSpec>,
    children: map<string, set<ObjId>>,
    prunes: multiset<Prune>,
    abandoned: set<(string, ObjId)>)

  datatype Kind = SubscriptionKind | BaseKind | DescriptionKind | ReleaseKind

  datatype Call =
    | Inject(kind: Kind, key: Key)
    | SelfLabel(kind: Kind, key: Key)
    | Create(kind: Kind, key: Key)
    | Update(kind: Kind, key: Key)
    | Delete(kind: Kind, key: Key)
    | Unprotect(kind: Kind, key: Key)
    | LabelFeeds(key: Key)
    | UnlabelFeeds(kind: Kind, key: Key)
    | Connect(ns: string)
    | Apply(ns: string, id: ObjId)
    | Remove(ns: string, id: ObjId)
    | ReportStatus(key: Key)
    | Install(key: Key)
    | Uninstall(key: Key)
    | Nth(n: nat, call: Call)

  /**
   * Which of the calls that a handler makes succeed; Nth tells apart the calls for several charts of
   * one HelmRelease, or for several bindings of one Base.
   */
  type Api = Call -> bool

  const ALL_SUCCEED: Api := _ => true

  function NthApi(api: Api, n: nat): Api {
    (c: Call) => api(Nth(n, c))
  }

  // ---------------------------------------------------------------- calls on one object

  /** An object marked for deletion goes with its last finalizer. */
  function Kept<S>(o: Obj<S>): Option<Obj<S>> {
    if o.deleting && o.finalizers == {} then None else Some(o)
  }

  function Marked<S>(o: Obj<S>): Option<Obj<S>> {
    Kept(o.(deleting := true))
  }

  function Unprotected<S>(o: Obj<S>): Option<Obj<S>> {
    Kept(o.(finalizers := o.finalizers - {APP_FINALIZER}))
  }

  function Put<S>(m: Objects<S>, k: Key, o: Option<Obj<S>>): (r: Objects<S>)
    ensures Get(r, k) == o && forall j :: j != k ==> Get(r, j) == Get(m, j)
  {
    if o.Some? then m[k := o.value] else m - {k}
  }

  /** The objects after each of them, and each of `more`, went through `after`. */
  function Mapped<S>(m: Objects<S>, more: set<Key>, after: (Key, Option<Obj<S>>) -> Option<Obj<S>>): (r: Objects<S>)
    ensures forall k :: Get(r, k) == if k in m || k in more then after(k, Get(m, k)) else None
  {
    map k | k in m.Keys + more && after(k, Get(m, k)).Some? :: after(k, Get(m, k)).value
  }

  function Owned<S>(m: Objects<S>, r: Ref): set<Key> {
    set k | k in m && m[k].owner == Some(r)
  }

  lemma SameObjects<S>(a: Objects<S>, b: Objects<S>)
    requires forall k :: Get(a, k) == Get(b, k)
    ensures a == b
  {
    forall k ensures (k in a <==> k in b) && (k in a ==> a[k] == b[k]) {
      assert Get(a, k) == Get(b, k);
    }
  }

  // ---------------------------------------------------------------- objects in child clusters

  function ChildrenOf(s: Store, ns: string): set<ObjId> {
    if ns in s.children then s.children[ns] else {}
  }

  function Ids(raw: seq<Raw>): set<ObjId> {
    set r | r in raw && Parse(r).Some? :: Parse(r).value
  }

  predicate AllParse(raw: seq<Raw>) {
    forall r :: r in raw ==> Parse(r).Some?
  }

  /** Kubernetes takes no object without an API, or whose kind, namespace or name has a slash. */
  predicate Acceptable(id: ObjId) {
    id.group.Some? && Slashless(id)
  }

  predicate Slashless(id: ObjId) {
    '/' !in id.kind && '/' !in id.ns && '/' !in id.name
  }

  /** The name by which objects are pruned, without the group. */
  function ResourceName(id: ObjId): string {
    id.kind + "/" + id.ns + "/" + id.name
  }

  lemma {:induction false} CountConcat(a: string, b: string, c: char)
    ensures Count(a + b, c) == Count(a, c) + Count(b, c)
  {
    if a == "" {
      assert a + b == b;
    } else {
      assert (a + b)[1..] == a[1..] + b;
      CountConcat(a[1..], b, c);
    }
  }

  lemma SlashesInName(id: ObjId)
    ensures Count(ResourceName(id), '/') == Count(id.kind, '/') + Count(id.ns, '/') + Count(id.name, '/') + 2
  {
    CountConcat(id.kind + "/" + id.ns + "/", id.name, '/');
    CountConcat(id.kind + "/" + id.ns, "/", '/');
    CountConcat(id.kind + "/", id.ns, '/');
    CountConcat(id.kind, "/", '/');
    assert Count("/", '/') == 1;
  }

  lemma SlashlessIff(id: ObjId)
    ensures Slashless(id) <==> Count(ResourceName(id), '/') == 2
  {
    SlashesInName(id);
    CountNone(id.kind, '/');
    CountNone(id.ns, '/');
    CountNone(id.name, '/');
  }

  lemma ResourceNameParts(x: ObjId)
    ensures ResourceName(x) == x.kind + ['/'] + (x.ns + ['/'] + x.name)
  {
  }

  /** All but the group agrees. */
  predicate SameButGroup(x: ObjId, y: ObjId) {
    x.kind == y.kind && x.ns == y.ns && x.name == y.name
  }

  /** The printed name of an object without slashes tells its kind, namespace and name, and not its group. */
  lemma ResourceNamesEqual(x: ObjId, y: ObjId)
    requires Slashless(x)
    ensures ResourceName(x) == ResourceName(y) <==> SameButGroup(x, y)
  {
    if ResourceName(x) == ResourceName(y) {
      SlashlessIff(x);
      SlashlessIff(y);
      ResourceNameParts(x);
      ResourceNameParts(y);
      SplitFirst('/', x.kind, x.ns + ['/'] + x.name, y.kind, y.ns + ['/'] + y.name);
      SplitFirst('/', x.ns, x.name, y.ns, y.name);
    }
  }
}
