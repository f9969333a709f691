/** Registration of child clusters (pkg/hub/approver and the registration request controller). */
module Approver {
  import opened Collections
  import opened Feeds
  import opened Catalog

  const NAME_PREFIX: string := "clusternet-"
  const AGENT: string := "clusternet-agent"
  const CREATED_BY: string := "clusternet.io/created-by"
  const CLUSTER_ID: string := "clusters.clusternet.io/cluster-id"
  const CLUSTER_NAME: string := "clusters.clusternet.io/cluster-name"

  datatype Verdict = Approved | Denied

  /** Empty strings stand for what is not set. */
  datatype Status = Status(result: Option<Verdict>, message: string, ns: string, cluster: string, token: string,
                           ca: string)

  const BLANK: Status := Status(None, "", "", "", "", "")

  datatype Request = Request(id: string, clusterName: string, labels: Labels, status: Status)

  /** A namespace (whose own ns is empty), a ManagedCluster, whose spec has the cluster ID, or a service account. */
  datatype Tagged = Tagged(key: Key, labels: Labels, id: string)

  /** The objects in the order in which the listers return them. */
  datatype Registry = Registry(
    requests: map<string, Request>,
    namespaces: seq<Tagged>,
    clusters: seq<Tagged>,
    accounts: seq<Tagged>)

  /** Which calls succeed, the names that the server generates, and the token and CA of each service account. */
  datatype Calls = Calls(
    createNamespace: bool,
    namespaceName: string,
    createCluster: bool,
    createAccount: bool,
    accountName: string,
    bindings: bool,
    credentials: Key -> Option<(string, string)>,
    updateStatus: bool)

  // ---------------------------------------------------------------- lookups

  function TrimPrefix(name: string): string {
    if NAME_PREFIX <= name then name[|NAME_PREFIX|..] else name
  }

  function AgentLabels(id: string, clusterName: string): Labels {
    map[CREATED_BY := AGENT, CLUSTER_ID := id, CLUSTER_NAME := clusterName]
  }

  predicate Marked(o: Tagged, id: string) {
    Matches(map[CREATED_BY := AGENT, CLUSTER_ID := id], o.labels)
  }

  /** The first listed object that carries the ID. */
  function Find(objs: seq<Tagged>, id: string): Option<Tagged> {
    if objs == [] then None
    else
      var front := Find(objs[..|objs| - 1], id);
      if front.Some? then front else if Marked(objs[|objs| - 1], id) then Some(objs[|objs| - 1]) else None
  }

  predicate HasKey(objs: seq<Tagged>, key: Key) {
    exists o :: o in objs && o.key == key
  }

  // ---------------------------------------------------------------- what the handler does

  /** UpdateCRRStatus blanks all but the message of a status that is not approved; None when it refuses. */
  function Published(status: Status): Option<Status> {
    if status.result.Some? && !status.result.value.Approved? then
      if status.message == "" then None
      else Some(status.(token := "", cluster := "", ns := "", ca := ""))
    else Some(status)
  }

  function WithStatus(reg: Registry, calls: Calls, name: string, status: Status): (Registry, bool)
    requires name in reg.requests
  {
    var p := Published(status);
    if p.None? || !calls.updateStatus then (reg, false)
    else (reg.(requests := reg.requests[name := reg.requests[name].(status := p.value)]), true)
  }

  function NamespaceFor(calls: Calls, r: Request): Tagged {
    Tagged(Key("", calls.namespaceName), AgentLabels(r.id, r.clusterName), "")
  }

  /** The user's labels are added last and may redefine those that the lookup relies on. */
  function ClusterFor(ns: string, r: Request): Tagged {
    Tagged(Key(ns, r.clusterName), AgentLabels(r.id, r.clusterName) + r.labels, r.id)
  }

  function AccountFor(calls: Calls, ns: string, r: Request): Tagged {
    Tagged(Key(ns, calls.accountName), AgentLabels(r.id, r.clusterName), "")
  }

  /** The namespaces afterwards, and the dedicated one. */
  function NamespaceIfNeeded(reg: Registry, calls: Calls, r: Request): (seq<Tagged>, Option<Tagged>) {
    var found, made := Find(reg.namespaces, r.id), NamespaceFor(calls, r);
    if found.Some? then (reg.namespaces, found)
    else if !calls.createNamespace || HasKey(reg.namespaces, made.key) then (reg.namespaces, None)
    else (reg.namespaces + [made], Some(made))
  }

  function ClusterIfNeeded(reg: Registry, calls: Calls, ns: string, r: Request): (seq<Tagged>, Option<Tagged>) {
    var found, made := Find(reg.clusters, r.id), ClusterFor(ns, r);
    if found.Some? then (reg.clusters, found)
    else if !calls.createCluster || HasKey(reg.clusters, made.key) then (reg.clusters, None)
    else (reg.clusters + [made], Some(made))
  }

  function AccountIfNeeded(reg: Registry, calls: Calls, ns: string, r: Request): (seq<Tagged>, Option<Tagged>) {
    var found, made := Find(reg.accounts, r.id), AccountFor(calls, ns, r);
    if found.Some? then (reg.accounts, found)
    else if !calls.createAccount || HasKey(reg.accounts, made.key) then (reg.accounts, None)
    else (reg.accounts + [made], Some(made))
  }

  /** The message is never empty. */
  function DeniedStatus(detail: string): Status {
    Status(Some(Denied), "illegal update on spec.clusterID: " + detail, "", "", "", "")
  }

  /** A request whose ID is not that of its name is denied, whatever it was before. */
  function HandleRequest(reg: Registry, calls: Calls, name: string, detail: string): (Registry, bool) {
    if name !in reg.requests then (reg, true)
    else
      var r := reg.requests[name];
      if TrimPrefix(name) != r.id then (WithStatus(reg, calls, name, DeniedStatus(detail)).0, true)
      else if r.status.result.Some? then (reg, true)
      else Admit(reg, calls, name)
  }

  function Admit(reg: Registry, calls: Calls, name: string): (Registry, bool)
    requires name in reg.requests
  {
    var r := reg.requests[name];
    var (namespaces, ns) := NamespaceIfNeeded(reg, calls, r);
    var reg1 := reg.(namespaces := namespaces);
    if ns.None? then (reg1, false)
    else
      var (clusters, mc) := ClusterIfNeeded(reg1, calls, ns.value.key.name, r);
      var reg2 := reg1.(clusters := clusters);
      if mc.None? then (reg2, false)
      else
        var (accounts, sa) := AccountIfNeeded(reg2, calls, ns.value.key.name, r);
        var reg3 := reg2.(accounts := accounts);
        if sa.None? || !calls.bindings || calls.credentials(sa.value.key).None? then (reg3, false)
        else
          var (token, ca) := calls.credentials(sa.value.key).value;
          WithStatus(reg3, calls, name, Status(Some(Approved), "", ns.value.key.name, mc.value.key.name, token, ca))
  }

  class CRRApprover {
    var requests: map<string, Request>
    var namespaces: seq<Tagged>
    var clusters: seq<Tagged>
    var accounts: seq<Tagged>

    function State(): Registry
      reads this
    {
      Registry(requests, namespaces, clusters, accounts)
    }

    constructor ()
      ensures State() == EMPTY_REGISTRY
    {
      requests, namespaces, clusters, accounts := map[], [], [], [];
    }

    method FindMarked(objs: seq<Tagged>, id: string) returns (found: Option<Tagged>)
      ensures found == Find(objs, id)
    {
      for i := 0 to |objs|
        invariant Find(objs[..i], id) == None
      {
        assert objs[..i + 1][..i] == objs[..i];
        if Marked(objs[i], id) {
          FoundStays(objs, i + 1, id);
          return Some(objs[i]);
        }
      }
      assert objs[..|objs|] == objs;
      return None;
    }

    method UpdateCRRStatus(calls: Calls, name: string, status: Status) returns (done: bool)
      requires name in requests
      modifies this`requests
      ensures (State(), done) == WithStatus(old(State()), calls, name, status)
    {
      var st := status;
      if st.result.Some? && st.result.value != Approved {
        if st.message == "" {
          return false;
        }
        st := st.(token := "");
        st := st.(cluster := "");
        st := st.(ns := "");
        st := st.(ca := "");
      }
      if !calls.updateStatus {
        return false;
      }
      requests := requests[name := requests[name].(status := st)];
      return true;
    }

    method CreateNamespaceIfNeeded(calls: Calls, r: Request) returns (ns: Option<Tagged>)
      modifies this`namespaces
      ensures (namespaces, ns) == NamespaceIfNeeded(old(State()), calls, r)
    {
      ns := FindMarked(namespaces, r.id);
      if ns.Some? {
        return;
      }
      var made := Tagged(Key("", calls.namespaceName), AgentLabels(r.id, r.clusterName), "");
      if !calls.createNamespace || HasKey(namespaces, made.key) {
        return None;
      }
      namespaces := namespaces + [made];
      return Some(made);
    }

    method CreateManagedClusterIfNeeded(calls: Calls, ns: string, r: Request) returns (mc: Option<Tagged>)
      modifies this`clusters
      ensures (clusters, mc) == ClusterIfNeeded(old(State()), calls, ns, r)
    {
      mc := FindMarked(clusters, r.id);
      if mc.Some? {
        return;
      }
      var labels, todo := AgentLabels(r.id, r.clusterName), r.labels.Keys;
      while todo != {}
        invariant todo <= r.labels.Keys
        invariant labels == AgentLabels(r.id, r.clusterName) + (r.labels - todo)
        decreases |todo|
      {
        var key :| key in todo;
        labels := labels[key := r.labels[key]];
        todo := todo - {key};
      }
      assert r.labels - {} == r.labels;
      var made := Tagged(Key(ns, r.clusterName), labels, r.id);
      if !calls.createCluster || HasKey(clusters, made.key) {
        return None;
      }
      clusters := clusters + [made];
      return Some(made);
    }

    method CreateServiceAccountIfNeeded(calls: Calls, ns: string, r: Request) returns (sa: Option<Tagged>)
      modifies this`accounts
      ensures (accounts, sa) == AccountIfNeeded(old(State()), calls, ns, r)
    {
      sa := FindMarked(accounts, r.id);
      if sa.Some? {
        return;
      }
      var made := Tagged(Key(ns, calls.accountName), AgentLabels(r.id, r.clusterName), "");
      if !calls.createAccount || HasKey(accounts, made.key) {
        return None;
      }
      accounts := accounts + [made];
      return Some(made);
    }

    method AdmitRequest(calls: Calls, name: string) returns (done: bool)
      requires name in requests
      modifies this
      ensures (State(), done) == Admit(old(State()), calls, name)
    {
      var r := requests[name];
      var ns := CreateNamespaceIfNeeded(calls, r);
      if ns.None? {
        return false;
      }
      var mc := CreateManagedClusterIfNeeded(calls, ns.value.key.name, r);
      if mc.None? {
        return false;
      }
      var sa := CreateServiceAccountIfNeeded(calls, ns.value.key.name, r);
      if sa.None? || !calls.bindings || calls.credentials(sa.value.key).None? {
        return false;
      }
      var (token, ca) := calls.credentials(sa.value.key).value;
      done := UpdateCRRStatus(calls, name, Status(Some(Approved), "", ns.value.key.name, mc.value.key.name, token, ca));
    }

    method HandleClusterRegistrationRequests(calls: Calls, name: string, detail: string) returns (done: bool)
      modifies this
      ensures (State(), done) == HandleRequest(old(State()), calls, name, detail)
    {
      if name !in requests {
        return true;
      }
      var r := requests[name];
      if TrimPrefix(name) != r.id {
        var _ := UpdateCRRStatus(calls, name, DeniedStatus(detail));
        return true;
      }
      if r.status.result.Some? {
        return true;
      }
      done := AdmitRequest(calls, name);
    }
  }

  lemma {:induction false} FoundStays(objs: seq<Tagged>, n: nat, id: string)
    requires n <= |objs| && Find(objs[..n], id).Some?
    ensures Find(objs, id) == Find(objs[..n], id)
  {
    if n < |objs| {
      assert objs[..|objs| - 1][..n] == objs[..n];
      FoundStays(objs[..|objs| - 1], n, id);
    } else {
      assert objs[..n] == objs;
    }
  }

  // ---------------------------------------------------------------- runs

  datatype Event =
    | Handle(name: string, calls: Calls, detail: string)
    | Submit(name: string, id: string, clusterName: string, labels: Labels)
    | Edit(name: string, id: string, clusterName: string, labels: Labels)
    | Withdraw(name: string)
    | OtherNamespace(other: Tagged)
    | OtherCluster(other: Tagged)
    | OtherAccount(other: Tagged)

  function Next(reg: Registry, e: Event): Registry {
    match e
    case Handle(name, calls, detail) => HandleRequest(reg, calls, name, detail).0
    case Submit(name, id, clusterName, labels) =>
      if name in reg.requests then reg
      else reg.(requests := reg.requests[name := Request(id, clusterName, labels, BLANK)])
    case Edit(name, id, clusterName, labels) =>
      if name !in reg.requests then reg
      else reg.(requests := reg.requests[name := Request(id, clusterName, labels, reg.requests[name].status)])
    case Withdraw(name) => reg.(requests := reg.requests - {name})
    case OtherNamespace(o) => if HasKey(reg.namespaces, o.key) then reg else reg.(namespaces := reg.namespaces + [o])
    case OtherCluster(o) => if HasKey(reg.clusters, o.key) then reg else reg.(clusters := reg.clusters + [o])
    case OtherAccount(o) => if HasKey(reg.accounts, o.key) then reg else reg.(accounts := reg.accounts + [o])
  }

  function Run(reg: Registry, events: seq<Event>): Registry {
    if events == [] then reg else Next(Run(reg, events[..|events| - 1]), events[|events| - 1])
  }

  /** The user's labels leave the marks of the ManagedCluster as they are. */
  predicate Harmless(labels: Labels, id: string) {
    (CREATED_BY in labels ==> labels[CREATED_BY] == AGENT) && (CLUSTER_ID in labels ==> labels[CLUSTER_ID] == id)
  }

  /** A ManagedCluster that was just made is found again by its ID if and only if the user's labels are harmless. */
  lemma MadeIsFoundIff(ns: string, r: Request)
    ensures Marked(ClusterFor(ns, r), r.id) <==> Harmless(r.labels, r.id)
  {
  }

  /** Others do not claim to be the agent, and user labels are harmless. */
  predicate Fair(e: Event) {
    match e
    case Submit(_, id, _, labels) => Harmless(labels, id)
    case Edit(_, id, _, labels) => Harmless(labels, id)
    case OtherNamespace(o) => Label(o.labels, CREATED_BY) != AGENT
    case OtherCluster(o) => Label(o.labels, CREATED_BY) != AGENT
    case OtherAccount(o) => Label(o.labels, CREATED_BY) != AGENT
    case _ => true
  }

  // ---------------------------------------------------------------- the invariant

  ghost predicate AtMostOne(objs: seq<Tagged>, id: string) {
    forall i, j :: 0 <= i < j < |objs| ==> !(Marked(objs[i], id) && Marked(objs[j], id))
  }

  predicate HoldsNoSecrets(st: Status) {
    st.ns == "" && st.cluster == "" && st.token == "" && st.ca == ""
  }

  /** The dedicated namespace and ManagedCluster of an ID, by their names. */
  ghost predicate Dedicated(reg: Registry, id: string, ns: string, cluster: string) {
    && (exists n :: n in reg.namespaces && Marked(n, id) && n.key.name == ns)
    && (exists c :: c in reg.clusters && Marked(c, id) && c.key == Key(ns, cluster))
  }

  ghost predicate SoundRequest(reg: Registry, name: string) {
    name in reg.requests ==>
      var r := reg.requests[name];
      && Harmless(r.labels, r.id)
      && (r.status.result != Some(Approved) ==> HoldsNoSecrets(r.status))
      && (r.status.result == Some(Approved) ==> Dedicated(reg, TrimPrefix(name), r.status.ns, r.status.cluster))
  }

  /** A ManagedCluster or service account lives in the namespace of its ID. */
  ghost predicate Housed(reg: Registry, c: Tagged, id: string) {
    Marked(c, id) ==> exists n :: n in reg.namespaces && Marked(n, id) && n.key.name == c.key.ns
  }

  ghost predicate Inv(reg: Registry) {
    && (forall id :: AtMostOne(reg.namespaces, id))
    && (forall id :: AtMostOne(reg.clusters, id))
    && (forall id :: AtMostOne(reg.accounts, id))
    && (forall c, id :: c in reg.clusters || c in reg.accounts ==> Housed(reg, c, id))
    && (forall name :: SoundRequest(reg, name))
  }

  lemma {:induction false} FindMarks(objs: seq<Tagged>, id: string)
    ensures Find(objs, id).Some? ==> Find(objs, id).value in objs && Marked(Find(objs, id).value, id)
    ensures Find(objs, id).None? ==> forall o :: o in objs ==> !Marked(o, id)
  {
    if objs != [] {
      FindMarks(objs[..|objs| - 1], id);
      assert objs == objs[..|objs| - 1] + [objs[|objs| - 1]];
    }
  }

  lemma OnlyItsId(o: Tagged, id: string, other: string)
    requires Marked(o, id) && Marked(o, other)
    ensures id == other
  {
    assert CLUSTER_ID in map[CREATED_BY := AGENT, CLUSTER_ID := id];
    assert CLUSTER_ID in map[CREATED_BY := AGENT, CLUSTER_ID := other];
  }

  lemma MarkedForOne(o: Tagged, id: string, other: string)
    requires Marked(o, id) && id != other
    ensures !Marked(o, other)
  {
    if Marked(o, other) {
      OnlyItsId(o, id, other);
    }
  }

  lemma OthersAreUnmarked(o: Tagged, id: string)
    requires Label(o.labels, CREATED_BY) != AGENT
    ensures !Marked(o, id)
  {
  }

  /** Adding an object keeps IDs unique when no other object carries its ID. */
  lemma AppendKeepsUnique(objs: seq<Tagged>, o: Tagged)
    requires forall id :: AtMostOne(objs, id)
    requires forall id, x :: Marked(o, id) && x in objs ==> !Marked(x, id)
    ensures forall id :: AtMostOne(objs + [o], id)
  {
    forall id ensures AtMostOne(objs + [o], id) {
      assert AtMostOne(objs, id);
    }
  }

  lemma SameObject(objs: seq<Tagged>, id: string, a: Tagged, b: Tagged)
    requires AtMostOne(objs, id) && a in objs && b in objs && Marked(a, id) && Marked(b, id)
    ensures a == b
  {
  }

  /** More objects leave the requests and the housing sound. */
  lemma GrowthKeepsSound(reg: Registry, reg': Registry)
    requires Inv(reg) && reg'.requests == reg.requests
    requires forall n :: n in reg.namespaces ==> n in reg'.namespaces
    requires forall c :: c in reg.clusters ==> c in reg'.clusters
    ensures forall name :: SoundRequest(reg', name)
    ensures forall c, id :: c in reg.clusters || c in reg.accounts ==> Housed(reg', c, id)
  {
    forall name ensures SoundRequest(reg', name) {
      assert SoundRequest(reg, name);
    }
    forall c, id | c in reg.clusters || c in reg.accounts ensures Housed(reg', c, id) {
      assert Housed(reg, c, id);
    }
  }

  lemma NamespaceKeeps(reg: Registry, calls: Calls, r: Request)
    requires Inv(reg)
    ensures var (namespaces, ns) := NamespaceIfNeeded(reg, calls, r);
            && Inv(reg.(namespaces := namespaces))
            && (ns.Some? ==> ns.value in namespaces && Marked(ns.value, r.id))
  {
    var (namespaces, ns) := NamespaceIfNeeded(reg, calls, r);
    FindMarks(reg.namespaces, r.id);
    var made := NamespaceFor(calls, r);
    assert Marked(made, r.id);
    if namespaces != reg.namespaces {
      forall id, x | Marked(made, id) && x in reg.namespaces ensures !Marked(x, id) {
        OnlyItsId(made, r.id, id);
      }
      AppendKeepsUnique(reg.namespaces, made);
    }
    GrowthKeepsSound(reg, reg.(namespaces := namespaces));
  }

  lemma ClusterKeeps(reg: Registry, calls: Calls, ns: Tagged, r: Request)
    requires Inv(reg) && Harmless(r.labels, r.id) && ns in reg.namespaces && Marked(ns, r.id)
    ensures var (clusters, mc) := ClusterIfNeeded(reg, calls, ns.key.name, r);
            && Inv(reg.(clusters := clusters))
            && (mc.Some? ==> mc.value in clusters && Marked(mc.value, r.id) && mc.value.key.ns == ns.key.name)
  {
    var (clusters, mc) := ClusterIfNeeded(reg, calls, ns.key.name, r);
    FindMarks(reg.clusters, r.id);
    var made := ClusterFor(ns.key.name, r);
    MadeIsFoundIff(ns.key.name, r);
    var reg' := reg.(clusters := clusters);
    GrowthKeepsSound(reg, reg');
    if clusters != reg.clusters {
      forall id, x | Marked(made, id) && x in reg.clusters ensures !Marked(x, id) {
        OnlyItsId(made, r.id, id);
      }
      AppendKeepsUnique(reg.clusters, made);
      forall id ensures Housed(reg', made, id) {
        if Marked(made, id) {
          OnlyItsId(made, r.id, id);
        }
      }
    } else if mc.Some? {
      assert Housed(reg, mc.value, r.id);
      var n :| n in reg.namespaces && Marked(n, r.id) && n.key.name == mc.value.key.ns;
      SameObject(reg.namespaces, r.id, n, ns);
    }
  }

  lemma AccountKeeps(reg: Registry, calls: Calls, ns: Tagged, r: Request)
    requires Inv(reg) && ns in reg.namespaces && Marked(ns, r.id)
    ensures var (accounts, sa) := AccountIfNeeded(reg, calls, ns.key.name, r);
            && Inv(reg.(accounts := accounts))
            && (sa.Some? ==> sa.value in accounts && Marked(sa.value, r.id))
  {
    var (accounts, sa) := AccountIfNeeded(reg, calls, ns.key.name, r);
    FindMarks(reg.accounts, r.id);
    var made, reg' := AccountFor(calls, ns.key.name, r), reg.(accounts := accounts);
    assert Marked(made, r.id);
    GrowthKeepsSound(reg, reg');
    if accounts != reg.accounts {
      forall id, x | Marked(made, id) && x in reg.accounts ensures !Marked(x, id) {
        OnlyItsId(made, r.id, id);
      }
      AppendKeepsUnique(reg.accounts, made);
      forall id ensures Housed(reg', made, id) {
        if Marked(made, id) {
          OnlyItsId(made, r.id, id);
        }
      }
    }
  }

  lemma SetRequestKeeps(reg: Registry, name: string, r: Request)
    requires Inv(reg) && Harmless(r.labels, r.id)
    requires r.status.result != Some(Approved) ==> HoldsNoSecrets(r.status)
    requires r.status.result == Some(Approved) ==> Dedicated(reg, TrimPrefix(name), r.status.ns, r.status.cluster)
    ensures Inv(reg.(requests := reg.requests[name := r]))
  {
    var reg' := reg.(requests := reg.requests[name := r]);
    forall n ensures SoundRequest(reg', n) {
      assert SoundRequest(reg, n);
    }
    forall c, id | c in reg'.clusters || c in reg'.accounts ensures Housed(reg', c, id) {
      assert Housed(reg, c, id);
    }
  }

  lemma ApproveKeeps(reg: Registry, name: string, ns: Tagged, mc: Tagged, secret: (string, string))
    requires Inv(reg) && name in reg.requests && TrimPrefix(name) == reg.requests[name].id
    requires ns in reg.namespaces && Marked(ns, reg.requests[name].id)
    requires mc in reg.clusters && Marked(mc, reg.requests[name].id) && mc.key.ns == ns.key.name
    ensures var st := Status(Some(Approved), "", ns.key.name, mc.key.name, secret.0, secret.1);
            Inv(reg.(requests := reg.requests[name := reg.requests[name].(status := st)]))
  {
    var r, st := reg.requests[name], Status(Some(Approved), "", ns.key.name, mc.key.name, secret.0, secret.1);
    assert SoundRequest(reg, name);
    assert Dedicated(reg, r.id, st.ns, st.cluster);
    SetRequestKeeps(reg, name, r.(status := st));
  }

  lemma AdmitKeeps(reg: Registry, calls: Calls, name: string)
    requires Inv(reg) && name in reg.requests && TrimPrefix(name) == reg.requests[name].id
    ensures Inv(Admit(reg, calls, name).0)
  {
    var r := reg.requests[name];
    assert SoundRequest(reg, name);
    NamespaceKeeps(reg, calls, r);
    var (namespaces, ns) := NamespaceIfNeeded(reg, calls, r);
    var reg1 := reg.(namespaces := namespaces);
    if ns.Some? {
      ClusterKeeps(reg1, calls, ns.value, r);
      var (clusters, mc) := ClusterIfNeeded(reg1, calls, ns.value.key.name, r);
      var reg2 := reg1.(clusters := clusters);
      if mc.Some? {
        AccountKeeps(reg2, calls, ns.value, r);
        var (accounts, sa) := AccountIfNeeded(reg2, calls, ns.value.key.name, r);
        var reg3 := reg2.(accounts := accounts);
        if sa.Some? && calls.credentials(sa.value.key).Some? {
          ApproveKeeps(reg3, name, ns.value, mc.value, calls.credentials(sa.value.key).value);
        }
      }
    }
  }

  lemma HandleKeeps(reg: Registry, calls: Calls, name: string, detail: string)
    requires Inv(reg)
    ensures Inv(HandleRequest(reg, calls, name, detail).0)
  {
    if name in reg.requests {
      assert SoundRequest(reg, name);
      var r := reg.requests[name];
      if TrimPrefix(name) != r.id {
        SetRequestKeeps(reg, name, r.(status := DeniedStatus(detail)));
      } else if r.status.result.None? {
        AdmitKeeps(reg, calls, name);
      }
    }
  }

  lemma NextKeeps(reg: Registry, e: Event)
    requires Inv(reg) && Fair(e)
    ensures Inv(Next(reg, e))
  {
    match e {
      case Handle(name, calls, detail) => HandleKeeps(reg, calls, name, detail);
      case Submit(name, id, clusterName, labels) => SetRequestKeeps(reg, name, Request(id, clusterName, labels, BLANK));
      case Edit(name, id, clusterName, labels) =>
        if name in reg.requests {
          assert SoundRequest(reg, name);
          SetRequestKeeps(reg, name, Request(id, clusterName, labels, reg.requests[name].status));
        }
      case Withdraw(name) =>
        forall n ensures SoundRequest(Next(reg, e), n) {
          assert SoundRequest(reg, n);
        }
        forall c, id | c in reg.clusters || c in reg.accounts ensures Housed(Next(reg, e), c, id) {
          assert Housed(reg, c, id);
        }
      case OtherNamespace(o) =>
        forall id ensures !Marked(o, id) {
          OthersAreUnmarked(o, id);
        }
        AppendKeepsUnique(reg.namespaces, o);
        GrowthKeepsSound(reg, Next(reg, e));
      case OtherCluster(o) =>
        forall id ensures !Marked(o, id) {
          OthersAreUnmarked(o, id);
        }
        AppendKeepsUnique(reg.clusters, o);
        GrowthKeepsSound(reg, Next(reg, e));
      case OtherAccount(o) =>
        forall id ensures !Marked(o, id) {
          OthersAreUnmarked(o, id);
        }
        AppendKeepsUnique(reg.accounts, o);
        GrowthKeepsSound(reg, Next(reg, e));
    }
  }

  const EMPTY_REGISTRY: Registry := Registry(map[], [], [], [])

  ghost predicate AllFair(events: seq<Event>) {
    forall i :: 0 <= i < |events| ==> Fair(events[i])
  }

  /**
   * In every run, retried partial failures included: each ID has at most one namespace, ManagedCluster
   * and service account, an approved request names them, and no other request holds secrets.
   */
  lemma {:induction false} RegistrationInvariant(events: seq<Event>)
    requires AllFair(events)
    ensures Inv(Run(EMPTY_REGISTRY, events))
  {
    if events != [] {
      RegistrationInvariant(events[..|events| - 1]);
      NextKeeps(Run(EMPTY_REGISTRY, events[..|events| - 1]), events[|events| - 1]);
    }
  }

  /** A verdict of Approved comes with the credentials of a service account of the request's ID. */
  lemma ApprovedCredentials(reg: Registry, calls: Calls, name: string, detail: string)
    requires Inv(reg) && name in reg.requests && reg.requests[name].status.result.None?
    ensures var reg' := HandleRequest(reg, calls, name, detail).0;
            reg'.requests[name].status.result == Some(Approved) ==>
              var st := reg'.requests[name].status;
              exists sa :: sa in reg'.accounts && Marked(sa, reg.requests[name].id)
                  && calls.credentials(sa.key) == Some((st.token, st.ca))
  {
    var r := reg.requests[name];
    if TrimPrefix(name) == r.id {
      assert SoundRequest(reg, name);
      NamespaceKeeps(reg, calls, r);
      var (namespaces, ns) := NamespaceIfNeeded(reg, calls, r);
      var reg1 := reg.(namespaces := namespaces);
      if ns.Some? {
        ClusterKeeps(reg1, calls, ns.value, r);
        var (clusters, mc) := ClusterIfNeeded(reg1, calls, ns.value.key.name, r);
        AccountKeeps(reg1.(clusters := clusters), calls, ns.value, r);
        var (accounts, sa) := AccountIfNeeded(reg1.(clusters := clusters), calls, ns.value.key.name, r);
        if mc.Some? && sa.Some? {
          assert sa.value in accounts && Marked(sa.value, r.id);
          var reg' := HandleRequest(reg, calls, name, detail).0;
          assert reg'.accounts == accounts;
          if reg'.requests[name].status.result == Some(Approved) {
            var c := calls.credentials(sa.value.key);
            assert c.Some? && reg'.requests[name].status.token == c.value.0
                && reg'.requests[name].status.ca == c.value.1;
          }
        }
      }
    }
  }

  // ---------------------------------------------------------------- what one handling decides

  /** A request whose ID is not that of its name is denied and loses its secrets, whatever it was before. */
  lemma ForeignIsDenied(reg: Registry, calls: Calls, name: string, detail: string)
    requires name in reg.requests && TrimPrefix(name) != reg.requests[name].id
    ensures var after := HandleRequest(reg, calls, name, detail).0;
            if calls.updateStatus then
              && name in after.requests
              && var st := after.requests[name].status;
                 && st.result == Some(Denied) && st.message != "" && HoldsNoSecrets(st)
                 && after == reg.(requests := reg.requests[name := reg.requests[name].(status := st)])
            else after == reg
  {
  }

  /** The first object that carries the ID, or else the one that is made for it. */
  ghost predicate Obtains(objs: seq<Tagged>, id: string, made: Tagged, call: bool, o: Tagged) {
    || (exists i :: FirstMarked(objs, id, i) && objs[i] == o)
    || ((forall x :: x in objs ==> !Marked(x, id) && x.key != made.key) && call && o == made)
  }

  ghost predicate FirstMarked(objs: seq<Tagged>, id: string, i: int) {
    0 <= i < |objs| && Marked(objs[i], id) && forall j :: 0 <= j < i ==> !Marked(objs[j], id)
  }

  lemma {:induction false} FindsFirst(objs: seq<Tagged>, id: string, o: Tagged)
    ensures Find(objs, id) == Some(o) <==> exists i :: FirstMarked(objs, id, i) && objs[i] == o
    ensures Find(objs, id).None? <==> forall x :: x in objs ==> !Marked(x, id)
  {
    FindMarks(objs, id);
    if objs != [] {
      var n := |objs| - 1;
      FindsFirst(objs[..n], id, o);
      assert objs == objs[..n] + [objs[n]];
      forall i ensures FirstMarked(objs, id, i) <==>
          FirstMarked(objs[..n], id, i) || (i == n && Find(objs[..n], id).None? && Marked(objs[n], id)) {
      }
    }
  }

  lemma ObtainedIff(objs: seq<Tagged>, id: string, made: Tagged, call: bool, o: Tagged)
    ensures Obtains(objs, id, made, call, o) <==>
              Find(objs, id) == Some(o) || (Find(objs, id).None? && call && !HasKey(objs, made.key) && o == made)
  {
    FindsFirst(objs, id, o);
  }

  lemma NamespaceObtained(reg: Registry, calls: Calls, r: Request, o: Tagged)
    ensures NamespaceIfNeeded(reg, calls, r).1 == Some(o)
       <==> Obtains(reg.namespaces, r.id, NamespaceFor(calls, r), calls.createNamespace, o)
  {
    ObtainedIff(reg.namespaces, r.id, NamespaceFor(calls, r), calls.createNamespace, o);
  }

  lemma ClusterObtained(reg: Registry, calls: Calls, ns: string, r: Request, o: Tagged)
    ensures ClusterIfNeeded(reg, calls, ns, r).1 == Some(o)
       <==> Obtains(reg.clusters, r.id, ClusterFor(ns, r), calls.createCluster, o)
  {
    ObtainedIff(reg.clusters, r.id, ClusterFor(ns, r), calls.createCluster, o);
  }

  lemma AccountObtained(reg: Registry, calls: Calls, ns: string, r: Request, o: Tagged)
    ensures AccountIfNeeded(reg, calls, ns, r).1 == Some(o)
       <==> Obtains(reg.accounts, r.id, AccountFor(calls, ns, r), calls.createAccount, o)
  {
    ObtainedIff(reg.accounts, r.id, AccountFor(calls, ns, r), calls.createAccount, o);
  }

  /** The namespace, ManagedCluster and service account with which a request is approved. */
  ghost predicate Admits(reg: Registry, calls: Calls, r: Request, ns: Tagged, mc: Tagged, sa: Tagged) {
    && Obtains(reg.namespaces, r.id, NamespaceFor(calls, r), calls.createNamespace, ns)
    && Obtains(reg.clusters, r.id, ClusterFor(ns.key.name, r), calls.createCluster, mc)
    && Obtains(reg.accounts, r.id, AccountFor(calls, ns.key.name, r), calls.createAccount, sa)
    && calls.bindings && calls.credentials(sa.key).Some? && calls.updateStatus
  }

  ghost function ApprovedWith(calls: Calls, ns: Tagged, mc: Tagged, sa: Tagged): Status
    requires calls.credentials(sa.key).Some?
  {
    var (token, ca) := calls.credentials(sa.key).value;
    Status(Some(Approved), "", ns.key.name, mc.key.name, token, ca)
  }

  lemma AdmittedWith(reg: Registry, calls: Calls, name: string, detail: string, ns: Tagged, mc: Tagged, sa: Tagged)
    requires name in reg.requests && reg.requests[name].status.result.None?
    requires TrimPrefix(name) == reg.requests[name].id && Admits(reg, calls, reg.requests[name], ns, mc, sa)
    ensures HandleRequest(reg, calls, name, detail).1
    ensures HandleRequest(reg, calls, name, detail).0.requests
         == reg.requests[name := reg.requests[name].(status := ApprovedWith(calls, ns, mc, sa))]
  {
    var r := reg.requests[name];
    NamespaceObtained(reg, calls, r, ns);
    var reg1 := reg.(namespaces := NamespaceIfNeeded(reg, calls, r).0);
    ClusterObtained(reg1, calls, ns.key.name, r, mc);
    var reg2 := reg1.(clusters := ClusterIfNeeded(reg1, calls, ns.key.name, r).0);
    AccountObtained(reg2, calls, ns.key.name, r, sa);
  }

  lemma ApprovedIsAdmitted(reg: Registry, calls: Calls, name: string, detail: string)
    returns (ns: Tagged, mc: Tagged, sa: Tagged)
    requires name in reg.requests && reg.requests[name].status.result.None?
    requires HandleRequest(reg, calls, name, detail).0.requests != reg.requests
          || HandleRequest(reg, calls, name, detail).1
    requires TrimPrefix(name) == reg.requests[name].id
    ensures Admits(reg, calls, reg.requests[name], ns, mc, sa)
  {
    var r := reg.requests[name];
    var (namespaces, n) := NamespaceIfNeeded(reg, calls, r);
    ns := n.value;
    var reg1 := reg.(namespaces := namespaces);
    var (clusters, c) := ClusterIfNeeded(reg1, calls, ns.key.name, r);
    mc := c.value;
    var (accounts, a) := AccountIfNeeded(reg1.(clusters := clusters), calls, ns.key.name, r);
    sa := a.value;
    NamespaceObtained(reg, calls, r, ns);
    ClusterObtained(reg1, calls, ns.key.name, r, mc);
    AccountObtained(reg1.(clusters := clusters), calls, ns.key.name, r, sa);
  }

  /**
   * A pending request of its own ID is approved exactly when a namespace, a ManagedCluster and a service
   * account of the ID are found or made, the latter two in that namespace, and the other calls succeed;
   * it then names the first two and holds the credentials of the third. Else the handler fails.
   */
  lemma ApprovedIff(reg: Registry, calls: Calls, name: string, detail: string)
    requires name in reg.requests && reg.requests[name].status.result.None?
    requires TrimPrefix(name) == reg.requests[name].id
    ensures var r, after := reg.requests[name], HandleRequest(reg, calls, name, detail).0.requests;
            && (HandleRequest(reg, calls, name, detail).1 <==> exists ns, mc, sa :: Admits(reg, calls, r, ns, mc, sa))
            && (after == reg.requests <==> !exists ns, mc, sa :: Admits(reg, calls, r, ns, mc, sa))
            && forall ns, mc, sa :: Admits(reg, calls, r, ns, mc, sa) ==>
                 after == reg.requests[name := r.(status := ApprovedWith(calls, ns, mc, sa))]
  {
    var r, after := reg.requests[name], HandleRequest(reg, calls, name, detail).0.requests;
    forall ns, mc, sa | Admits(reg, calls, r, ns, mc, sa)
      ensures after == reg.requests[name := r.(status := ApprovedWith(calls, ns, mc, sa))] && after != reg.requests
    {
      AdmittedWith(reg, calls, name, detail, ns, mc, sa);
      assert after[name].status.result == Some(Approved);
    }
    if after != reg.requests || HandleRequest(reg, calls, name, detail).1 {
      var ns, mc, sa := ApprovedIsAdmitted(reg, calls, name, detail);
      assert Admits(reg, calls, r, ns, mc, sa);
    }
  }

  /** The list is as before, or has one more object at its end. */
  ghost predicate GrowsByOne(objs: seq<Tagged>, after: seq<Tagged>) {
    after == objs || exists o :: after == objs + [o]
  }

  lemma AdmitGrows(reg: Registry, calls: Calls, name: string)
    requires name in reg.requests
    ensures var after := Admit(reg, calls, name).0;
            && GrowsByOne(reg.namespaces, after.namespaces) && GrowsByOne(reg.clusters, after.clusters)
            && GrowsByOne(reg.accounts, after.accounts)
            && exists st :: after.requests == reg.requests[name := reg.requests[name].(status := st)]
  {
    var r := reg.requests[name];
    var (namespaces, ns) := NamespaceIfNeeded(reg, calls, r);
    assert GrowsByOne(reg.namespaces, namespaces);
    assert reg.requests == reg.requests[name := r.(status := r.status)];
    if ns.Some? {
      var reg1 := reg.(namespaces := namespaces);
      var (clusters, mc) := ClusterIfNeeded(reg1, calls, ns.value.key.name, r);
      assert GrowsByOne(reg.clusters, clusters);
      var (accounts, sa) := AccountIfNeeded(reg1.(clusters := clusters), calls, ns.value.key.name, r);
      assert GrowsByOne(reg.accounts, accounts);
    }
  }

  /** Handling one request touches no other, nothing but its status, and no object that exists. */
  lemma HandleTouchesOne(reg: Registry, calls: Calls, name: string, detail: string)
    ensures var after := HandleRequest(reg, calls, name, detail).0;
            && after.requests.Keys == reg.requests.Keys
            && (forall n :: n in reg.requests ==>
                  if n == name then after.requests[n] == reg.requests[n].(status := after.requests[n].status)
                  else after.requests[n] == reg.requests[n])
            && GrowsByOne(reg.namespaces, after.namespaces) && GrowsByOne(reg.clusters, after.clusters)
            && GrowsByOne(reg.accounts, after.accounts)
            && ((name in reg.requests && TrimPrefix(name) == reg.requests[name].id
                 && reg.requests[name].status.result.Some?) ==> after == reg)
  {
    if name in reg.requests {
      AdmitGrows(reg, calls, name);
    }
  }

  // ---------------------------------------------------------------- ManagedClusters of one ID

  ghost predicate OnePerId(clusters: seq<Tagged>) {
    forall i, j :: 0 <= i < j < |clusters| ==> clusters[i].id != clusters[j].id
  }

  /** The request is admitted as far as to make a ManagedCluster. */
  predicate MakesCluster(reg: Registry, calls: Calls, name: string) {
    name in reg.requests &&
    var r := reg.requests[name];
    TrimPrefix(name) == r.id && r.status.result.None? &&
    var ns := NamespaceIfNeeded(reg, calls, r).1;
    ns.Some? && Find(reg.clusters, r.id).None? && calls.createCluster
        && !HasKey(reg.clusters, Key(ns.value.key.name, r.clusterName))
  }

  /** And there is one of its ID, which the lookup misses because it does not carry the ID's labels. */
  predicate Doubles(reg: Registry, e: Event) {
    match e
    case Handle(name, calls, _) =>
      MakesCluster(reg, calls, name)
      && exists c :: c in reg.clusters && c.id == reg.requests[name].id && !Marked(c, c.id)
    case OtherCluster(o) => !HasKey(reg.clusters, o.key) && exists c :: c in reg.clusters && c.id == o.id
    case _ => false
  }

  lemma HandleMakesCluster(reg: Registry, calls: Calls, name: string, detail: string)
    ensures var after := HandleRequest(reg, calls, name, detail).0.clusters;
            if MakesCluster(reg, calls, name)
            then after == reg.clusters
                + [ClusterFor(NamespaceIfNeeded(reg, calls, reg.requests[name]).1.value.key.name, reg.requests[name])]
            else after == reg.clusters
  {
  }

  lemma OneMore(clusters: seq<Tagged>, o: Tagged)
    requires OnePerId(clusters)
    ensures OnePerId(clusters + [o]) <==> !exists c :: c in clusters && c.id == o.id
  {
    if c :| c in clusters && c.id == o.id {
      var i :| 0 <= i < |clusters| && clusters[i] == c;
      assert (clusters + [o])[i] == c && (clusters + [o])[|clusters|] == o;
    }
  }

  /** Which steps make a second ManagedCluster of an ID. */
  lemma DoublesIff(reg: Registry, e: Event)
    requires OnePerId(reg.clusters)
    ensures OnePerId(Next(reg, e).clusters) <==> !Doubles(reg, e)
  {
    if e.Handle? {
      HandleMakesCluster(reg, e.calls, e.name, e.detail);
      if MakesCluster(reg, e.calls, e.name) {
        var r := reg.requests[e.name];
        FindMarks(reg.clusters, r.id);
        OneMore(reg.clusters, ClusterFor(NamespaceIfNeeded(reg, e.calls, r).1.value.key.name, r));
      }
    } else if e.OtherCluster? {
      OneMore(reg.clusters, e.other);
    }
  }

  ghost predicate DoublesAt(events: seq<Event>, i: int) {
    0 <= i < |events| && Doubles(Run(EMPTY_REGISTRY, events[..i]), events[i])
  }

  lemma UndoubledPrefix(events: seq<Event>, n: nat)
    requires n <= |events| && forall i :: !DoublesAt(events, i)
    ensures forall i :: !DoublesAt(events[..n], i)
  {
    forall i ensures !DoublesAt(events[..n], i) {
      assert !DoublesAt(events, i);
      assert 0 <= i < n ==> events[..n][..i] == events[..i];
    }
  }

  lemma {:induction false} OnePerIdWhileUndoubled(events: seq<Event>)
    requires forall i :: !DoublesAt(events, i)
    ensures OnePerId(Run(EMPTY_REGISTRY, events).clusters)
  {
    if events != [] {
      var n := |events| - 1;
      UndoubledPrefix(events, n);
      OnePerIdWhileUndoubled(events[..n]);
      assert !DoublesAt(events, n);
      DoublesIff(Run(EMPTY_REGISTRY, events[..n]), events[n]);
    }
  }

  lemma DoubleShows(events: seq<Event>, i: nat)
    requires DoublesAt(events, i)
    ensures OnePerId(Run(EMPTY_REGISTRY, events[..i]).clusters) ==>
        !OnePerId(Run(EMPTY_REGISTRY, events[..i + 1]).clusters)
  {
    assert events[..i + 1][..i] == events[..i];
    if OnePerId(Run(EMPTY_REGISTRY, events[..i]).clusters) {
      DoublesIff(Run(EMPTY_REGISTRY, events[..i]), events[i]);
    }
  }

  /** All along a run every ID has at most one ManagedCluster exactly when no step makes a second one. */
  lemma OnePerIdInAnyRun(events: seq<Event>)
    ensures (forall n :: 0 <= n <= |events| ==> OnePerId(Run(EMPTY_REGISTRY, events[..n]).clusters))
       <==> forall i :: !DoublesAt(events, i)
  {
    if forall i :: !DoublesAt(events, i) {
      forall n | 0 <= n <= |events| ensures OnePerId(Run(EMPTY_REGISTRY, events[..n]).clusters) {
        UndoubledPrefix(events, n);
        OnePerIdWhileUndoubled(events[..n]);
      }
    } else {
      var i :| DoublesAt(events, i);
      DoubleShows(events, i);
    }
  }

  // ---------------------------------------------------------------- with harmful labels

  /** All calls succeed but, perhaps, that for the service account. */
  function CallsWith(account: bool, name: string): Calls {
    Calls(true, name, true, account, name, true, (_: Key) => Some(("token", "ca")), true)
  }

  /** A request is handled, fails at the service account, gets another cluster name and is retried. */
  function RetriedRun(id: string, a: string, b: string, labels: Labels): seq<Event> {
    var name := NAME_PREFIX + id;
    [Submit(name, id, a, labels), Handle(name, CallsWith(false, "ns"), ""),
     Edit(name, id, b, labels), Handle(name, CallsWith(true, "other"), "")]
  }

  lemma RunOfFour(reg: Registry, events: seq<Event>)
    requires |events| == 4
    ensures Run(reg, events) == Next(Next(Next(Next(reg, events[0]), events[1]), events[2]), events[3])
  {
    assert events[..3][..2] == events[..2] && events[..2][..1] == events[..1] && events[..1][..0] == [];
    assert Run(reg, events[..1]) == Next(reg, events[0]);
    assert Run(reg, events[..2]) == Next(Run(reg, events[..1]), events[1]);
    assert Run(reg, events[..3]) == Next(Run(reg, events[..2]), events[2]);
  }

  /** Before the retry, with the request as it is by then. */
  function Halfway(id: string, a: string, r: Request, labels: Labels): Registry {
    var was := Request(id, a, labels, BLANK);
    Registry(map[NAME_PREFIX + id := r], [NamespaceFor(CallsWith(false, "ns"), was)], [ClusterFor("ns", was)], [])
  }

  lemma FirstAttempt(id: string, a: string, labels: Labels)
    ensures var r := Request(id, a, labels, BLANK);
            HandleRequest(EMPTY_REGISTRY.(requests := map[NAME_PREFIX + id := r]), CallsWith(false, "ns"),
                          NAME_PREFIX + id, "").0 ==
              Halfway(id, a, r, labels)
  {
  }

  lemma SecondStart(id: string, a: string, b: string, labels: Labels)
    ensures var events := RetriedRun(id, a, b, labels);
            Next(Next(Next(EMPTY_REGISTRY, events[0]), events[1]), events[2]) ==
              Halfway(id, a, Request(id, b, labels, BLANK), labels)
  {
    var name, was, r := NAME_PREFIX + id, Request(id, a, labels, BLANK), Request(id, b, labels, BLANK);
    FirstAttempt(id, a, labels);
    assert map[][name := was] == map[name := was] && map[name := was][name := r] == map[name := r];
  }

  lemma SecondFinds(id: string, a: string, r: Request, labels: Labels)
    ensures var reg, was := Halfway(id, a, r, labels), Request(id, a, labels, BLANK);
            && Find(reg.namespaces, id) == Some(NamespaceFor(CallsWith(false, "ns"), was))
            && Find(reg.clusters, id) == if Harmless(labels, id) then Some(ClusterFor("ns", was)) else None
  {
  }

  lemma SecondAttempt(id: string, a: string, b: string, labels: Labels)
    requires a != b
    ensures var r := Request(id, b, labels, BLANK);
            var reg := Halfway(id, a, r, labels);
            var after := HandleRequest(reg, CallsWith(true, "other"), NAME_PREFIX + id, "").0;
            && NAME_PREFIX + id in after.requests && after.requests[NAME_PREFIX + id].status.result == Some(Approved)
            && after.clusters == reg.clusters + if Harmless(labels, id) then [] else [ClusterFor("ns", r)]
  {
    SecondFinds(id, a, Request(id, b, labels, BLANK), labels);
  }

  /**
   * The failure is reached: after this run two ManagedClusters have the ID exactly when the labels
   * are not harmless.
   */
  lemma RetryDuplicatesIff(id: string, a: string, b: string, labels: Labels)
    requires a != b
    ensures var name, reg := NAME_PREFIX + id, Run(EMPTY_REGISTRY, RetriedRun(id, a, b, labels));
            && (forall c :: c in reg.clusters ==> c.id == id)
            && |reg.clusters| == (if Harmless(labels, id) then 1 else 2)
            && name in reg.requests && reg.requests[name].status.result == Some(Approved)
  {
    var name, events, half := NAME_PREFIX + id, RetriedRun(id, a, b, labels),
        Halfway(id, a, Request(id, b, labels, BLANK), labels);
    RunOfFour(EMPTY_REGISTRY, events);
    SecondStart(id, a, b, labels);
    assert Run(EMPTY_REGISTRY, events) == Next(half, events[3]);
    SecondAttempt(id, a, b, labels);
  }

  /** The other failure: labels that name another ID lend the ManagedCluster to it. */
  predicate Lends(labels: Labels, id: string) {
    (CREATED_BY in labels ==> labels[CREATED_BY] == AGENT) && CLUSTER_ID in labels && labels[CLUSTER_ID] == id
  }

  /** A request is approved, and then one of another ID. */
  function LentRun(a: string, x: string, labels: Labels, b: string, y: string): seq<Event> {
    [Submit(NAME_PREFIX + a, a, x, labels), Handle(NAME_PREFIX + a, CallsWith(true, "ns"), ""),
     Submit(NAME_PREFIX + b, b, y, map[]), Handle(NAME_PREFIX + b, CallsWith(true, "other"), "")]
  }

  /** What the first leaves behind, with the second request as it is by then. */
  function Lent(a: string, x: string, labels: Labels, second: map<string, Request>): Registry {
    var calls, was := CallsWith(true, "ns"), Request(a, x, labels, BLANK);
    Registry(map[NAME_PREFIX + a := was.(status := Status(Some(Approved), "", "ns", x, "token", "ca"))] + second,
             [NamespaceFor(calls, was)], [ClusterFor("ns", was)], [AccountFor(calls, "ns", was)])
  }

  lemma FirstIsApproved(a: string, x: string, labels: Labels)
    ensures var r := Request(a, x, labels, BLANK);
            HandleRequest(EMPTY_REGISTRY.(requests := map[NAME_PREFIX + a := r]), CallsWith(true, "ns"),
                          NAME_PREFIX + a, "").0 ==
              Lent(a, x, labels, map[])
  {
    var r, s := Request(a, x, labels, BLANK), Status(Some(Approved), "", "ns", x, "token", "ca");
    assert map[NAME_PREFIX + a := r][NAME_PREFIX + a := r.(status := s)]
        == map[NAME_PREFIX + a := r.(status := s)] + map[];
  }

  lemma LentStarts(a: string, x: string, labels: Labels, b: string, y: string)
    requires a != b
    ensures var events := LentRun(a, x, labels, b, y);
            Next(Next(Next(EMPTY_REGISTRY, events[0]), events[1]), events[2]) ==
              Lent(a, x, labels, map[NAME_PREFIX + b := Request(b, y, map[], BLANK)])
  {
    var r := Request(b, y, map[], BLANK);
    FirstIsApproved(a, x, labels);
    assert (NAME_PREFIX + a)[|NAME_PREFIX|..] == a && (NAME_PREFIX + b)[|NAME_PREFIX|..] == b;
    assert map[][NAME_PREFIX + a := Request(a, x, labels, BLANK)]
        == map[NAME_PREFIX + a := Request(a, x, labels, BLANK)];
    var was := Lent(a, x, labels, map[]).requests;
    assert was[NAME_PREFIX + b := r] == was + map[NAME_PREFIX + b := r];
  }

  lemma LentIsFound(a: string, x: string, labels: Labels, second: map<string, Request>, b: string)
    requires a != b
    ensures var reg, was := Lent(a, x, labels, second), Request(a, x, labels, BLANK);
            && Find(reg.namespaces, b) == None && Find(reg.accounts, b) == None
            && Find(reg.clusters, b) == if Lends(labels, b) then Some(ClusterFor("ns", was)) else None
  {
    var reg, was := Lent(a, x, labels, second), Request(a, x, labels, BLANK);
    var n, c, o := reg.namespaces[0], ClusterFor("ns", was), reg.accounts[0];
    assert Find([], b) == None && [n][..0] == [] && [c][..0] == [] && [o][..0] == [];
    MarkedForOne(n, a, b);
    MarkedForOne(o, a, b);
    assert Marked(c, b) <==> Lends(labels, b);
  }

  /** With everything found or made, the request is approved. */
  lemma AllIsAdmitted(reg: Registry, calls: Calls, name: string, detail: string)
    requires name in reg.requests && reg.requests[name].status.result.None? && TrimPrefix(name) == reg.requests[name].id
    requires var r := reg.requests[name];
             var (namespaces, ns) := NamespaceIfNeeded(reg, calls, r);
             var reg1 := reg.(namespaces := namespaces);
             && ns.Some? && ClusterIfNeeded(reg1, calls, ns.value.key.name, r).1.Some?
             && var reg2 := reg1.(clusters := ClusterIfNeeded(reg1, calls, ns.value.key.name, r).0);
                var sa := AccountIfNeeded(reg2, calls, ns.value.key.name, r).1;
                sa.Some? && calls.bindings && calls.credentials(sa.value.key).Some? && calls.updateStatus
    ensures var r, after := reg.requests[name], HandleRequest(reg, calls, name, detail).0;
            var (namespaces, ns) := NamespaceIfNeeded(reg, calls, r);
            var (clusters, mc) := ClusterIfNeeded(reg.(namespaces := namespaces), calls, ns.value.key.name, r);
            && name in after.requests && after.requests[name].status.result == Some(Approved)
            && after.requests[name].status.cluster == mc.value.key.name && after.clusters == clusters
  {
  }

  lemma LentIsSought(a: string, x: string, labels: Labels, b: string, y: string)
    requires a != b
    ensures var calls, r := CallsWith(true, "other"), Request(b, y, map[], BLANK);
            var reg := Lent(a, x, labels, map[NAME_PREFIX + b := r]);
            var (namespaces, ns) := NamespaceIfNeeded(reg, calls, r);
            var reg1 := reg.(namespaces := namespaces);
            var (clusters, mc) := ClusterIfNeeded(reg1, calls, "other", r);
            var (accounts, sa) := AccountIfNeeded(reg1.(clusters := clusters), calls, "other", r);
            && ns == Some(NamespaceFor(calls, r)) && sa == Some(AccountFor(calls, "other", r))
            && mc == Some(if Lends(labels, b) then reg.clusters[0] else ClusterFor("other", r))
            && clusters == reg.clusters + (if Lends(labels, b) then [] else [ClusterFor("other", r)])
  {
    LentIsFound(a, x, labels, map[NAME_PREFIX + b := Request(b, y, map[], BLANK)], b);
  }

  lemma LentIsAdmitted(a: string, x: string, labels: Labels, b: string, y: string)
    requires a != b
    ensures var name, r := NAME_PREFIX + b, Request(b, y, map[], BLANK);
            var reg := Lent(a, x, labels, map[name := r]);
            var after := HandleRequest(reg, CallsWith(true, "other"), name, "").0;
            && name in after.requests && after.requests[name].status.result == Some(Approved)
            && after.requests[name].status.cluster == (if Lends(labels, b) then x else y)
            && after.clusters == reg.clusters + (if Lends(labels, b) then [] else [ClusterFor("other", r)])
  {
    var name, r := NAME_PREFIX + b, Request(b, y, map[], BLANK);
    var reg := Lent(a, x, labels, map[name := r]);
    LentIsFound(a, x, labels, map[name := r], b);
    LentIsSought(a, x, labels, b, y);
    assert name in reg.requests && reg.requests[name] == r && TrimPrefix(name) == b;
    AllIsAdmitted(reg, CallsWith(true, "other"), name, "");
  }

  /**
   * The second request is approved with the ManagedCluster of the first, and has none of its own, exactly
   * when the labels of the first lend it.
   */
  lemma LentClusterIff(a: string, x: string, labels: Labels, b: string, y: string)
    requires a != b
    ensures var name, reg := NAME_PREFIX + b, Run(EMPTY_REGISTRY, LentRun(a, x, labels, b, y));
            && name in reg.requests && reg.requests[name].status.result == Some(Approved)
            && reg.requests[name].status.cluster == (if Lends(labels, b) then x else y)
            && ((exists c :: c in reg.clusters && c.id == b) <==> !Lends(labels, b))
  {
    var r := Request(b, y, map[], BLANK);
    var events, half := LentRun(a, x, labels, b, y), Lent(a, x, labels, map[NAME_PREFIX + b := r]);
    RunOfFour(EMPTY_REGISTRY, events);
    LentStarts(a, x, labels, b, y);
    assert Run(EMPTY_REGISTRY, events) == Next(half, events[3]);
    LentIsAdmitted(a, x, labels, b, y);
    assert half.clusters[0].id == a && ClusterFor("other", r) in half.clusters + [ClusterFor("other", r)];
  }

  /** Approved moves to Denied only, and only for an ID that is not the name's; Denied does not move. */
  lemma VerdictMoves(reg: Registry, e: Event, name: string)
    requires name in reg.requests && name in Next(reg, e).requests
    ensures var was, after := reg.requests[name].status, Next(reg, e).requests[name].status;
            && (was.result == Some(Denied) ==> after.result == Some(Denied))
            && (was.result == Some(Approved) && after != was ==>
                  after.result == Some(Denied) && HoldsNoSecrets(after) && reg.requests[name].id != TrimPrefix(name))
  {
  }

  lemma RequestStays(reg: Registry, e: Event, name: string)
    requires name in reg.requests && e != Withdraw(name)
    ensures name in Next(reg, e).requests
  {
  }

  lemma {:induction false} DeniedIsAbsorbing(reg: Registry, events: seq<Event>, name: string)
    requires name in reg.requests && reg.requests[name].status.result == Some(Denied)
    requires forall i :: 0 <= i < |events| ==> events[i] != Withdraw(name)
    ensures var after := Run(reg, events);
            name in after.requests && after.requests[name].status.result == Some(Denied)
  {
    if events != [] {
      var front, last := events[..|events| - 1], events[|events| - 1];
      DeniedIsAbsorbing(reg, front, name);
      RequestStays(Run(reg, front), last, name);
      VerdictMoves(Run(reg, front), last, name);
    }
  }

  lemma RunLast(reg: Registry, events: seq<Event>)
    requires events != []
    ensures Run(reg, events) == Next(Run(reg, events[..|events| - 1]), events[|events| - 1])
  {
  }

  lemma {:induction false} RunSplit(reg: Registry, events: seq<Event>, n: nat)
    requires n <= |events|
    ensures Run(reg, events) == Run(Run(reg, events[..n]), events[n..])
  {
    if n == |events| {
      assert events[..n] == events;
    } else {
      var m := |events| - 1;
      assert events[..m][..n] == events[..n] && events[n..][..m - n] == events[..m][n..];
      RunSplit(reg, events[..m], n);
      RunLast(reg, events);
      RunLast(Run(reg, events[..n]), events[n..]);
    }
  }

  lemma DeniedFrom(events: seq<Event>, n: nat, name: string)
    requires n <= |events| && forall j :: n <= j < |events| ==> events[j] != Withdraw(name)
    requires var reg := Run(EMPTY_REGISTRY, events[..n]);
             name in reg.requests && reg.requests[name].status.result == Some(Denied)
    ensures var after := Run(EMPTY_REGISTRY, events);
            name in after.requests && after.requests[name].status.result == Some(Denied)
  {
    RunSplit(EMPTY_REGISTRY, events, n);
    DeniedIsAbsorbing(Run(EMPTY_REGISTRY, events[..n]), events[n..], name);
  }

  lemma RunNext(reg: Registry, events: seq<Event>, i: nat)
    requires i < |events|
    ensures Run(reg, events[..i + 1]) == Next(Run(reg, events[..i]), events[i])
  {
    assert events[..i + 1][..i] == events[..i];
  }

  lemma ForeignStepDenies(reg: Registry, e: Event, name: string)
    requires e.Handle? && e.name == name && e.calls.updateStatus
    requires name in reg.requests && TrimPrefix(name) != reg.requests[name].id
    ensures name in Next(reg, e).requests && Next(reg, e).requests[name].status.result == Some(Denied)
  {
    ForeignIsDenied(reg, e.calls, name, e.detail);
  }

  /** Over whole runs: once a request with a foreign ID is handled, it is Denied for as long as it exists. */
  lemma ForeignEndsDenied(events: seq<Event>, i: nat, name: string)
    requires i < |events| && events[i].Handle? && events[i].name == name && events[i].calls.updateStatus
    requires var reg := Run(EMPTY_REGISTRY, events[..i]);
             name in reg.requests && TrimPrefix(name) != reg.requests[name].id
    requires forall j :: i < j < |events| ==> events[j] != Withdraw(name)
    ensures var after := Run(EMPTY_REGISTRY, events);
            name in after.requests && after.requests[name].status.result == Some(Denied)
  {
    RunNext(EMPTY_REGISTRY, events, i);
    ForeignStepDenies(Run(EMPTY_REGISTRY, events[..i]), events[i], name);
    DeniedFrom(events, i + 1, name);
  }
}
