/** Version and priority selection of the shadow API (pkg/hub/apiserver/shadow/utils.go and priority.go). */
module Shadow {
  import opened Collections
  import opened StableSort

  datatype Resource = Resource(group: string, version: string, name: string, kind: string)

  /** An API group: its preferred version and the resources that each version serves. */
  datatype Group = Group(name: string, preferred: string, served: map<string, seq<Resource>>)

  // ---------------------------------------------------------------- orders

  /** Go's string order. */
  predicate Lex(a: string, b: string) {
    a == "" || (b != "" && (a[0] < b[0] || (a[0] == b[0] && Lex(a[1..], b[1..]))))
  }

  lemma {:induction false} LexTotal(a: string, b: string)
    ensures Lex(a, b) || Lex(b, a)
    ensures Lex(a, b) && Lex(b, a) ==> a == b
    ensures Lex(a, a)
  {
    if a != "" {
      LexTotal(a[1..], a[1..]);
      if b != "" {
        LexTotal(a[1..], b[1..]);
        assert a == [a[0]] + a[1..] && b == [b[0]] + b[1..];
      }
    }
  }

  lemma {:induction false} LexTransitive(a: string, b: string, c: string)
    requires Lex(a, b) && Lex(b, c)
    ensures Lex(a, c)
  {
    if a != "" && b != "" && c != "" && a[0] == b[0] == c[0] {
      LexTransitive(a[1..], b[1..], c[1..]);
    }
  }

  /** The comparison of kube-aware version strings, as a rank: greater means preferred. */
  type Ranking = string -> int

  /** Not greater under the less function of normalizeAPIGroupResources. */
  predicate NotAfter(preferred: string, rank: Ranking, x: Resource, y: Resource) {
    if x.version == y.version then Lex(x.name, y.name)
    else if y.version == preferred then false
    else if x.version == preferred then true
    else rank(y.version) <= rank(x.version)
  }

  function Order(preferred: string, rank: Ranking): (Resource, Resource) -> bool {
    (x: Resource, y: Resource) => NotAfter(preferred, rank, x, y)
  }

  /** Something that tells versions of equal rank apart, before their strings do. */
  type Tie = string -> int

  /** The order with ties settled. */
  predicate Settled(preferred: string, rank: Ranking, tie: Tie, x: Resource, y: Resource) {
    if x.version == y.version then Lex(x.name, y.name)
    else if y.version == preferred then false
    else if x.version == preferred then true
    else
      || rank(y.version) < rank(x.version)
      || (rank(y.version) == rank(x.version)
          && (tie(x.version) < tie(y.version) || (tie(x.version) == tie(y.version) && Lex(x.version, y.version))))
  }

  function SettledOrder(preferred: string, rank: Ranking, tie: Tie): (Resource, Resource) -> bool {
    (x: Resource, y: Resource) => Settled(preferred, rank, tie, x, y)
  }

  lemma SettledChains(preferred: string, rank: Ranking, tie: Tie, x: Resource, y: Resource, z: Resource)
    requires Settled(preferred, rank, tie, x, y) && Settled(preferred, rank, tie, y, z)
    ensures Settled(preferred, rank, tie, x, z)
  {
    LexTotal(x.version, y.version);
    LexTotal(y.version, z.version);
    if Lex(x.name, y.name) && Lex(y.name, z.name) {
      LexTransitive(x.name, y.name, z.name);
    }
    if Lex(x.version, y.version) && Lex(y.version, z.version) {
      LexTransitive(x.version, y.version, z.version);
    }
  }

  lemma SettledIsTotal(preferred: string, rank: Ranking, tie: Tie)
    ensures TotalPreorder(SettledOrder(preferred, rank, tie))
  {
    var leq := SettledOrder(preferred, rank, tie);
    forall x, y ensures Comparable(leq, x, y) {
      LexTotal(x.name, y.name);
      LexTotal(x.version, y.version);
    }
    forall x, y, z ensures Chains(leq, x, y, z) {
      if leq(x, y) && leq(y, z) {
        SettledChains(preferred, rank, tie, x, y, z);
      }
    }
  }

  lemma SettledSame(preferred: string, rank: Ranking, tie: Tie, x: Resource, y: Resource)
    ensures Settled(preferred, rank, tie, x, y) && Settled(preferred, rank, tie, y, x)
       <==> x.version == y.version && x.name == y.name
  {
    LexTotal(x.name, y.name);
    LexTotal(y.name, x.name);
    LexTotal(x.version, y.version);
  }

  // ---------------------------------------------------------------- flattening, sorting, picking

  function Stamped(g: Group, version: string): seq<Resource>
    requires version in g.served
  {
    seq(|g.served[version]|, i requires 0 <= i < |g.served[version]| =>
      g.served[version][i].(group := g.name, version := version))
  }

  /** The resources of all versions, in the order in which the map is ranged over. */
  function Flatten(g: Group, order: seq<string>): seq<Resource>
    requires forall v :: v in order ==> v in g.served
  {
    if order == [] then [] else Flatten(g, order[..|order| - 1]) + Stamped(g, order[|order| - 1])
  }

  /** Each version once, in some order. */
  ghost predicate Ranges(g: Group, order: seq<string>) {
    NoDup(order) && ToSet(order) == g.served.Keys
  }

  predicate Named(s: seq<Resource>, name: string) {
    exists x :: x in s && x.name == name
  }

  /** The first resource of each name. */
  function Firsts(s: seq<Resource>): seq<Resource> {
    if s == [] then []
    else
      var front, last := s[..|s| - 1], s[|s| - 1];
      Firsts(front) + (if Named(front, last.name) then [] else [last])
  }

  function Normalized(g: Group, rank: Ranking, order: seq<string>): seq<Resource>
    requires forall v :: v in order ==> v in g.served
  {
    Firsts(Sort(Flatten(g, order), Order(g.preferred, rank)))
  }

  method StampAll(g: Group, version: string, init: seq<Resource>) returns (all: seq<Resource>)
    requires version in g.served
    ensures all == init + Stamped(g, version)
  {
    var vr := g.served[version];
    all := init;
    for i := 0 to |vr|
      invariant all == init + Stamped(g, version)[..i]
    {
      all := all + [vr[i].(group := g.name, version := version)];
    }
  }

  /** The first resource of each name, with the names seen so far in a map. */
  method PickFirsts(sorted: seq<Resource>) returns (r: seq<Resource>)
    ensures r == Firsts(sorted)
  {
    var registered: set<string> := {};
    r := [];
    for i := 0 to |sorted|
      invariant r == Firsts(sorted[..i])
      invariant forall n :: n in registered <==> Named(sorted[..i], n)
    {
      assert sorted[..i + 1][..i] == sorted[..i];
      assert sorted[..i + 1] == sorted[..i] + [sorted[i]];
      if sorted[i].name !in registered {
        r := r + [sorted[i]];
        registered := registered + {sorted[i].name};
      }
    }
    assert sorted[..|sorted|] == sorted;
  }

  /** The code ranges over a map; `order` is the order that the runtime happens to pick. */
  method NormalizeAPIGroupResources(g: Group, rank: Ranking, order: seq<string>) returns (r: seq<Resource>)
    requires Ranges(g, order)
    ensures forall v :: v in order ==> v in g.served
    ensures r == Normalized(g, rank, order)
  {
    assert forall v :: v in order ==> v in ToSet(order);
    var all: seq<Resource> := [];
    for i := 0 to |order|
      invariant all == Flatten(g, order[..i])
    {
      assert order[..i + 1][..i] == order[..i];
      all := StampAll(g, order[i], all);
    }
    assert order[..|order|] == order;
    r := PickFirsts(Sort(all, Order(g.preferred, rank)));
  }

  // ---------------------------------------------------------------- what the sort does with ties

  lemma {:induction false} FlattenMembers(g: Group, order: seq<string>)
    requires forall v :: v in order ==> v in g.served
    ensures forall x :: x in Flatten(g, order) <==> x.version in order && x in Stamped(g, x.version)
  {
    if order != [] {
      FlattenMembers(g, order[..|order| - 1]);
      assert order == order[..|order| - 1] + [order[|order| - 1]];
    }
  }

  /** The place of a version in the range order. */
  function Place(order: seq<string>, v: string): (i: nat)
    ensures i <= |order| && (i < |order| ==> order[i] == v) && (v in order ==> i < |order|)
  {
    if order == [] || order[0] == v then 0 else Place(order[1..], v) + 1
  }

  function ByPlace(order: seq<string>): Tie {
    (v: string) => Place(order, v)
  }

  lemma PlaceOfDistinct(order: seq<string>, i: nat)
    requires NoDup(order) && i < |order|
    ensures Place(order, order[i]) == i
  {
  }

  /** Earlier elements of the flattened list come from versions that were ranged over earlier. */
  lemma {:induction false} FlattenPlaces(g: Group, order: seq<string>, n: nat, i: nat, j: nat)
    requires NoDup(order) && (forall v :: v in order ==> v in g.served) && n <= |order|
    requires i < j < |Flatten(g, order[..n])|
    ensures var s := Flatten(g, order[..n]); Place(order, s[i].version) <= Place(order, s[j].version) < n
  {
    var before, v := Flatten(g, order[..n - 1]), order[n - 1];
    assert order[..n][..n - 1] == order[..n - 1];
    PlaceOfDistinct(order, n - 1);
    if j < |before| {
      FlattenPlaces(g, order, n - 1, i, j);
    } else if i < |before| {
      FlattenMembers(g, order[..n - 1]);
      assert before[i] in before;
      var k :| 0 <= k < n - 1 && order[k] == before[i].version;
      PlaceOfDistinct(order, k);
    }
  }

  /** So a tie is settled by the range order. */
  lemma TiesFollowRange(g: Group, rank: Ranking, order: seq<string>)
    requires NoDup(order) && forall v :: v in order ==> v in g.served
    ensures Sort(Flatten(g, order), Order(g.preferred, rank))
         == Sort(Flatten(g, order), SettledOrder(g.preferred, rank, ByPlace(order)))
  {
    var s, leq, leq' := Flatten(g, order), Order(g.preferred, rank), SettledOrder(g.preferred, rank, ByPlace(order));
    assert order[..|order|] == order;
    FlattenMembers(g, order);
    forall i, j | 0 <= i < j < |s| ensures leq(s[i], s[j]) == leq'(s[i], s[j]) {
      FlattenPlaces(g, order, |order|, i, j);
      assert s[i] in s && s[j] in s;
    }
    SortAgrees(s, leq, leq');
  }

  /** The sorted list that the code works on. */
  function SortedResources(g: Group, rank: Ranking, order: seq<string>): seq<Resource>
    requires forall v :: v in order ==> v in g.served
  {
    Sort(Flatten(g, order), Order(g.preferred, rank))
  }

  lemma SortedByRange(g: Group, rank: Ranking, order: seq<string>)
    requires NoDup(order) && forall v :: v in order ==> v in g.served
    ensures Sorted(SortedResources(g, rank, order), SettledOrder(g.preferred, rank, ByPlace(order)))
    ensures forall x :: x in SortedResources(g, rank, order) <==> x.version in order && x in Stamped(g, x.version)
  {
    TiesFollowRange(g, rank, order);
    SettledIsTotal(g.preferred, rank, ByPlace(order));
    SortSorted(Flatten(g, order), SettledOrder(g.preferred, rank, ByPlace(order)));
    SortMembers(Flatten(g, order), Order(g.preferred, rank));
    FlattenMembers(g, order);
  }

  // ---------------------------------------------------------------- which version is picked

  predicate Serves(g: Group, v: string, name: string) {
    v in g.served && exists r :: r in g.served[v] && r.name == name
  }

  /** The preferred version if it serves the name, else the highest that does. */
  ghost predicate Best(g: Group, rank: Ranking, v: string, name: string) {
    && Serves(g, v, name)
    && if Serves(g, g.preferred, name) then v == g.preferred
       else forall w :: Serves(g, w, name) ==> rank(w) <= rank(v)
  }

  /** Position i is the first of its name. */
  ghost predicate FirstOfName(s: seq<Resource>, i: nat) {
    i < |s| && forall k :: 0 <= k < i ==> s[k].name != s[i].name
  }

  lemma {:induction false} FirstsMembers(s: seq<Resource>)
    ensures forall x :: x in Firsts(s) <==> exists i: nat :: FirstOfName(s, i) && s[i] == x
    ensures forall i, j :: 0 <= i < j < |Firsts(s)| ==> Firsts(s)[i].name != Firsts(s)[j].name
  {
    if s != [] {
      var n := |s| - 1;
      var front := s[..n];
      FirstsMembers(front);
      forall i: nat | i < n ensures FirstOfName(s, i) <==> FirstOfName(front, i) {
      }
      forall x ensures x in Firsts(s) <==> exists i: nat :: FirstOfName(s, i) && s[i] == x {
        if x in Firsts(front) {
          var i: nat :| FirstOfName(front, i) && front[i] == x;
          assert FirstOfName(s, i) && s[i] == x;
        }
        if i: nat :| FirstOfName(s, i) && s[i] == x && i < n {
          assert FirstOfName(front, i) && front[i] == x;
        }
        if FirstOfName(s, n) && s[n] == x {
          assert forall y :: y in front ==> y.name != x.name;
        }
        if x in Firsts(s) && x !in Firsts(front) {
          assert x == s[n] && forall y :: y in front ==> y.name != s[n].name;
          assert FirstOfName(s, n);
        }
      }
      forall x | x in Firsts(front) ensures x in front {
        var i: nat :| FirstOfName(front, i) && front[i] == x;
      }
    }
  }

  lemma {:induction false} EveryNameHasFirst(s: seq<Resource>, i: nat) returns (f: nat)
    requires i < |s|
    ensures f <= i && FirstOfName(s, f) && s[f].name == s[i].name
  {
    if k: nat :| k < i && s[k].name == s[i].name {
      f := EveryNameHasFirst(s, k);
    } else {
      f := i;
    }
  }

  lemma StampedServes(g: Group, v: string, name: string)
    requires v in g.served
    ensures Serves(g, v, name) <==> exists x :: x in Stamped(g, v) && x.name == name
  {
    if Serves(g, v, name) {
      var i :| 0 <= i < |g.served[v]| && g.served[v][i].name == name;
      assert Stamped(g, v)[i].name == name;
    }
  }

  /** A resource of each version that serves the name is in the sorted list. */
  lemma ServerIsListed(g: Group, rank: Ranking, order: seq<string>, w: string, name: string) returns (k: nat)
    requires Ranges(g, order) && (forall v :: v in order ==> v in g.served) && Serves(g, w, name)
    ensures var s := SortedResources(g, rank, order); k < |s| && s[k].version == w && s[k].name == name
  {
    var s := SortedResources(g, rank, order);
    SortedByRange(g, rank, order);
    assert forall v :: v in order <==> v in ToSet(order);
    StampedServes(g, w, name);
    var y :| y in Stamped(g, w) && y.name == name;
    assert y in s;
    k :| 0 <= k < |s| && s[k] == y;
  }

  /** The first of a name in the sorted list comes before all that serve the name. */
  lemma FirstIsLeast(g: Group, rank: Ranking, order: seq<string>, i: nat, w: string)
    requires Ranges(g, order) && forall v :: v in order ==> v in g.served
    requires var s := SortedResources(g, rank, order); FirstOfName(s, i) && Serves(g, w, s[i].name)
    ensures var x := SortedResources(g, rank, order)[i];
            x.version == w || (w != g.preferred && (x.version == g.preferred || rank(w) < rank(x.version)
              || (rank(w) == rank(x.version) && Place(order, x.version) <= Place(order, w))))
  {
    var s := SortedResources(g, rank, order);
    var k := ServerIsListed(g, rank, order, w, s[i].name);
    assert i <= k;
    if i < k {
      SortedByRange(g, rank, order);
      assert SettledOrder(g.preferred, rank, ByPlace(order))(s[i], s[k]);
    }
  }

  lemma FirstIsBest(g: Group, rank: Ranking, order: seq<string>, i: nat)
    requires Ranges(g, order) && forall v :: v in order ==> v in g.served
    requires FirstOfName(SortedResources(g, rank, order), i)
    ensures var x := SortedResources(g, rank, order)[i];
            Best(g, rank, x.version, x.name) && x in Stamped(g, x.version)
  {
    var s := SortedResources(g, rank, order);
    SortedByRange(g, rank, order);
    assert s[i] in s;
    StampedServes(g, s[i].version, s[i].name);
    forall w | Serves(g, w, s[i].name)
      ensures (w == g.preferred ==> s[i].version == w)
          && (s[i].version != g.preferred ==> rank(w) <= rank(s[i].version))
    {
      FirstIsLeast(g, rank, order, i, w);
    }
  }

  /** A resource that the version serves, with the group's name and that version written into it. */
  predicate EntryOf(g: Group, x: Resource) {
    && x.version in g.served && x.group == g.name
    && exists r :: r in g.served[x.version] && r.name == x.name && r.kind == x.kind
  }

  lemma StampedIsEntry(g: Group, x: Resource)
    requires x.version in g.served
    ensures x in Stamped(g, x.version) <==> EntryOf(g, x)
  {
    if EntryOf(g, x) {
      var r :| r in g.served[x.version] && r.name == x.name && r.kind == x.kind;
      var i :| 0 <= i < |g.served[x.version]| && g.served[x.version][i] == r;
      assert Stamped(g, x.version)[i] == x;
    }
  }

  /**
   * One entry for each served name, at the preferred version if it serves the name, else at a highest
   * that does; for every group and range order, ties or not.
   */
  lemma OneEntryPerName(g: Group, rank: Ranking, order: seq<string>)
    requires Ranges(g, order)
    ensures forall v :: v in order ==> v in g.served
    ensures var r := Normalized(g, rank, order);
            && (forall i, j :: 0 <= i < j < |r| ==> r[i].name != r[j].name)
            && (forall x :: x in r ==> Best(g, rank, x.version, x.name) && EntryOf(g, x))
            && (forall v, name :: Serves(g, v, name) ==> exists x :: x in r && x.name == name)
  {
    assert forall v :: v in order <==> v in ToSet(order);
    var s := SortedResources(g, rank, order);
    SortedByRange(g, rank, order);
    FirstsMembers(s);
    forall x | x in Firsts(s) ensures Best(g, rank, x.version, x.name) && EntryOf(g, x) {
      var i: nat :| FirstOfName(s, i) && s[i] == x;
      FirstIsBest(g, rank, order, i);
      StampedIsEntry(g, x);
    }
    forall v, name | Serves(g, v, name) ensures exists x :: x in Firsts(s) && x.name == name {
      StampedServes(g, v, name);
      var y :| y in Stamped(g, v) && y.name == name;
      assert y in s;
      var k :| 0 <= k < |s| && s[k] == y;
      var f := EveryNameHasFirst(s, k);
      assert s[f] in Firsts(s);
    }
  }

  // ---------------------------------------------------------------- when the range order does not matter

  /** The preferred version, or one of greater rank, serves the name as well. */
  predicate Shadowed(g: Group, rank: Ranking, v: string, name: string) {
    && v != g.preferred
    && (Serves(g, g.preferred, name) || exists w :: w in g.served && rank(v) < rank(w) && Serves(g, w, name))
  }

  function Unshadowed(g: Group, rank: Ranking): Resource -> bool {
    (x: Resource) => !Shadowed(g, rank, x.version, x.name)
  }

  /** A version other than the preferred one with a name that nothing shadows. */
  ghost predicate Contributes(g: Group, rank: Ranking, v: string) {
    v in g.served && v != g.preferred && exists r :: r in g.served[v] && !Shadowed(g, rank, v, r.name)
  }

  ghost predicate Contested(g: Group, rank: Ranking, v: string, w: string) {
    v != w && rank(v) == rank(w) && Contributes(g, rank, v) && Contributes(g, rank, w)
  }

  /** An element that fails p comes after one of its name that does not. */
  ghost predicate Covered(s: seq<Resource>, p: Resource -> bool, i: nat)
    requires i < |s|
  {
    exists k :: 0 <= k < i && s[k].name == s[i].name && p(s[k])
  }

  ghost predicate AllCovered(s: seq<Resource>, p: Resource -> bool) {
    forall i: nat :: i < |s| && !p(s[i]) ==> Covered(s, p, i)
  }

  lemma FirstsSnoc(front: seq<Resource>, last: Resource)
    ensures Firsts(front + [last])
       == Firsts(front) + (if Named(front, last.name) then [] else [last])
  {
  }

  /** The kept elements have the names of all. */
  lemma KeptNames(s: seq<Resource>, p: Resource -> bool, name: string)
    requires AllCovered(s, p)
    ensures Named(s, name) <==> Named(Selected(s, p), name)
  {
    SelectedMembers(s, p);
    if i: nat :| i < |s| && s[i].name == name && !p(s[i]) {
      assert Covered(s, p, i);
      var k :| 0 <= k < i && s[k].name == s[i].name && p(s[k]);
      assert s[k] in Selected(s, p);
    }
  }

  lemma FrontIsCovered(s: seq<Resource>, p: Resource -> bool)
    requires s != [] && AllCovered(s, p)
    ensures var front, last := s[..|s| - 1], s[|s| - 1];
            AllCovered(front, p) && (!p(last) ==> Named(front, last.name))
  {
    var n := |s| - 1;
    var front := s[..n];
    forall i: nat | i < |s| && !p(s[i]) ensures if i < n then Covered(front, p, i) else Named(front, s[n].name) {
      assert Covered(s, p, i);
      var k :| 0 <= k < i && s[k].name == s[i].name && p(s[k]);
      assert front[k] == s[k] && (i < n ==> front[i] == s[i]);
    }
  }

  lemma FirstsDropNext(s: seq<Resource>, p: Resource -> bool)
    requires s != []
    requires var front, last := s[..|s| - 1], s[|s| - 1];
             && Firsts(front) == Firsts(Selected(front, p))
             && (Named(front, last.name) <==> Named(Selected(front, p), last.name))
             && (!p(last) ==> Named(front, last.name))
    ensures Firsts(s) == Firsts(Selected(s, p))
  {
    var front, last := s[..|s| - 1], s[|s| - 1];
    var kept := Selected(front, p);
    if p(last) {
      FirstsSnoc(kept, last);
    } else {
      assert kept + [] == kept && Firsts(front) + [] == Firsts(front);
    }
  }

  lemma {:induction false} FirstsDropRepeated(s: seq<Resource>, p: Resource -> bool)
    requires AllCovered(s, p)
    ensures Firsts(s) == Firsts(Selected(s, p))
  {
    if s != [] {
      FrontIsCovered(s, p);
      FirstsDropRepeated(s[..|s| - 1], p);
      KeptNames(s[..|s| - 1], p, s[|s| - 1].name);
      FirstsDropNext(s, p);
    }
  }

  /** Shadowed resources never get into the output. */
  lemma OutputIsUnshadowed(g: Group, rank: Ranking, order: seq<string>)
    requires Ranges(g, order) && forall v :: v in order ==> v in g.served
    ensures Normalized(g, rank, order) == Firsts(Selected(SortedResources(g, rank, order), Unshadowed(g, rank)))
  {
    var s, p := SortedResources(g, rank, order), Unshadowed(g, rank);
    forall i: nat | i < |s| && !p(s[i]) ensures Covered(s, p, i) {
      var f := EveryNameHasFirst(s, i);
      FirstIsBest(g, rank, order, f);
      assert p(s[f]);
    }
    FirstsDropRepeated(s, p);
  }

  const UNTIED: Tie := (_: string) => 0

  /** Without a contest the unshadowed resources are sorted in a way that does not mention the range order. */
  lemma UnshadowedSorted(g: Group, rank: Ranking, order: seq<string>)
    requires Ranges(g, order) && forall v :: v in order ==> v in g.served
    requires forall v, w :: !Contested(g, rank, v, w)
    ensures Sorted(Selected(SortedResources(g, rank, order), Unshadowed(g, rank)),
                   SettledOrder(g.preferred, rank, UNTIED))
  {
    var s, p := SortedResources(g, rank, order), Unshadowed(g, rank);
    SortedByRange(g, rank, order);
    SelectedSorted(s, p, SettledOrder(g.preferred, rank, ByPlace(order)));
    SelectedMembers(s, p);
    var kept := Selected(s, p);
    forall i, j | 0 <= i < j < |kept| ensures Settled(g.preferred, rank, UNTIED, kept[i], kept[j]) {
      var x, y := kept[i], kept[j];
      assert SettledOrder(g.preferred, rank, ByPlace(order))(x, y);
      assert x in kept && y in kept;
      ContributesByMember(g, rank, x);
      ContributesByMember(g, rank, y);
      assert !Contested(g, rank, x.version, y.version);
    }
  }

  lemma ContributesByMember(g: Group, rank: Ranking, x: Resource)
    requires x.version in g.served && x in Stamped(g, x.version) && !Shadowed(g, rank, x.version, x.name)
    ensures x.version == g.preferred || Contributes(g, rank, x.version)
  {
  }

  lemma {:induction false} ForeignClass(s: seq<Resource>, t: Resource, preferred: string, rank: Ranking, tie: Tie)
    requires forall x :: x in s ==> x.version != t.version
    ensures Class(s, t, SettledOrder(preferred, rank, tie)) == []
  {
    if s != [] {
      assert s[|s| - 1] in s;
      ForeignClass(s[..|s| - 1], t, preferred, rank, tie);
      SettledSame(preferred, rank, tie, s[|s| - 1], t);
    }
  }

  lemma FlattenClassStep(g: Group, before: seq<Resource>, version: string, t: Resource, rank: Ranking, tie: Tie)
    requires version in g.served
    ensures var leq := SettledOrder(g.preferred, rank, tie);
            Class(before + Stamped(g, version), t, leq)
            == Class(before, t, leq) + (if version == t.version then Class(Stamped(g, version), t, leq) else [])
  {
    ClassConcat(before, Stamped(g, version), t, SettledOrder(g.preferred, rank, tie));
    if version != t.version {
      ForeignClass(Stamped(g, version), t, g.preferred, rank, tie);
    }
  }

  /** A version that was not ranged over has no resources in the list. */
  lemma UnrangedClass(g: Group, order: seq<string>, t: Resource, rank: Ranking, tie: Tie)
    requires t.version !in order && forall v :: v in order ==> v in g.served
    ensures Class(Flatten(g, order), t, SettledOrder(g.preferred, rank, tie)) == []
  {
    FlattenMembers(g, order);
    ForeignClass(Flatten(g, order), t, g.preferred, rank, tie);
  }

  /** Equivalent resources come from one version, in that version's order. */
  lemma {:induction false} FlattenClass(g: Group, order: seq<string>, t: Resource, rank: Ranking, tie: Tie)
    requires NoDup(order) && (forall v :: v in order ==> v in g.served) && t.version in order
    ensures var leq := SettledOrder(g.preferred, rank, tie);
            Class(Flatten(g, order), t, leq) == Class(Stamped(g, t.version), t, leq)
  {
    var front, last, leq := order[..|order| - 1], order[|order| - 1], SettledOrder(g.preferred, rank, tie);
    assert order == front + [last];
    FlattenClassStep(g, Flatten(g, front), last, t, rank, tie);
    if last == t.version {
      UnrangedClass(g, front, t, rank, tie);
      assert [] + Class(Stamped(g, last), t, leq) == Class(Stamped(g, last), t, leq);
    } else {
      FlattenClass(g, front, t, rank, tie);
    }
  }

  /** Whatever settles the ties, the same resources are equivalent. */
  lemma {:induction false} ClassIgnoresTies(s: seq<Resource>, t: Resource, preferred: string, rank: Ranking, a: Tie,
                                            b: Tie)
    ensures Class(s, t, SettledOrder(preferred, rank, a)) == Class(s, t, SettledOrder(preferred, rank, b))
  {
    if s != [] {
      ClassIgnoresTies(s[..|s| - 1], t, preferred, rank, a, b);
      SettledSame(preferred, rank, a, s[|s| - 1], t);
      SettledSame(preferred, rank, b, s[|s| - 1], t);
    }
  }

  /** The equivalent resources of the sorted list, in an order that does not mention the range order. */
  lemma SortedClass(g: Group, rank: Ranking, order: seq<string>, t: Resource)
    requires Ranges(g, order) && forall v :: v in order ==> v in g.served
    ensures Class(SortedResources(g, rank, order), t, SettledOrder(g.preferred, rank, UNTIED))
         == if t.version in g.served
            then Class(Stamped(g, t.version), t, SettledOrder(g.preferred, rank, UNTIED))
            else []
  {
    var tie := ByPlace(order);
    assert forall v :: v in order <==> v in ToSet(order);
    TiesFollowRange(g, rank, order);
    SettledIsTotal(g.preferred, rank, tie);
    SortStable(Flatten(g, order), t, SettledOrder(g.preferred, rank, tie));
    ClassIgnoresTies(SortedResources(g, rank, order), t, g.preferred, rank, tie, UNTIED);
    ClassIgnoresTies(Flatten(g, order), t, g.preferred, rank, tie, UNTIED);
    if t.version in g.served {
      FlattenClass(g, order, t, rank, UNTIED);
    } else {
      UnrangedClass(g, order, t, rank, UNTIED);
    }
  }

  lemma UncontestedAgree(g: Group, rank: Ranking, a: seq<string>, b: seq<string>)
    requires Ranges(g, a) && Ranges(g, b)
    requires (forall v :: v in a ==> v in g.served) && forall v :: v in b ==> v in g.served
    requires forall v, w :: !Contested(g, rank, v, w)
    ensures Normalized(g, rank, a) == Normalized(g, rank, b)
  {
    var p, leq := Unshadowed(g, rank), SettledOrder(g.preferred, rank, UNTIED);
    var x, y := Selected(SortedResources(g, rank, a), p), Selected(SortedResources(g, rank, b), p);
    OutputIsUnshadowed(g, rank, a);
    OutputIsUnshadowed(g, rank, b);
    UnshadowedSorted(g, rank, a);
    UnshadowedSorted(g, rank, b);
    SettledIsTotal(g.preferred, rank, UNTIED);
    forall t ensures Class(x, t, leq) == Class(y, t, leq) {
      ClassSelected(SortedResources(g, rank, a), t, leq, p);
      ClassSelected(SortedResources(g, rank, b), t, leq, p);
      SortedClass(g, rank, a, t);
      SortedClass(g, rank, b, t);
    }
    SortedUnique(x, y, leq);
  }

  // ---------------------------------------------------------------- and when it does

  lemma {:induction false} FirstsSorted(s: seq<Resource>, leq: (Resource, Resource) -> bool)
    requires Sorted(s, leq)
    ensures Sorted(Firsts(s), leq)
  {
    if s != [] {
      var front := s[..|s| - 1];
      FirstsSorted(front, leq);
      FirstsMembers(front);
      var kept := Firsts(front);
      forall j | 0 <= j < |kept| ensures leq(kept[j], s[|s| - 1]) {
        assert kept[j] in kept;
        var i: nat :| FirstOfName(front, i) && front[i] == kept[j];
        assert s[i] == kept[j];
      }
    }
  }

  /** The output lists the preferred version first, then others by falling rank, and each by name. */
  lemma OutputInOrder(g: Group, rank: Ranking, order: seq<string>, i: nat, j: nat)
    requires Ranges(g, order) && forall v :: v in order ==> v in g.served
    requires i < j < |Normalized(g, rank, order)|
    ensures var x, y := Normalized(g, rank, order)[i], Normalized(g, rank, order)[j];
            if x.version == y.version then Lex(x.name, y.name)
            else y.version != g.preferred && (x.version == g.preferred || rank(y.version) <= rank(x.version))
  {
    SortedByRange(g, rank, order);
    FirstsSorted(SortedResources(g, rank, order), SettledOrder(g.preferred, rank, ByPlace(order)));
  }

  lemma {:induction false} RangeOf(keys: set<string>) returns (order: seq<string>)
    ensures NoDup(order) && ToSet(order) == keys
  {
    if keys == {} {
      order := [];
    } else {
      var k :| k in keys;
      var rest := RangeOf(keys - {k});
      assert forall v :: v in rest <==> v in ToSet(rest);
      order := rest + [k];
    }
  }

  lemma RangeFrom(g: Group, v: string) returns (order: seq<string>)
    requires v in g.served
    ensures Ranges(g, order) && order != [] && order[0] == v && forall w :: w in order ==> w in g.served
  {
    var rest := RangeOf(g.served.Keys - {v});
    assert forall w :: w in rest <==> w in ToSet(rest);
    order := [v] + rest;
  }

  /** There is an entry of v, and none of w before one of v. */
  ghost predicate Leads(r: seq<Resource>, v: string, w: string) {
    && (exists i :: 0 <= i < |r| && r[i].version == v)
    && (forall i, j :: 0 <= i < j < |r| ==> !(r[i].version == w && r[j].version == v))
  }

  lemma OneLeads(r: seq<Resource>, v: string, w: string)
    requires v != w && Leads(r, v, w)
    ensures !Leads(r, w, v)
  {
  }

  /** Of an unshadowed name of the version ranged over first, the entry is that version's. */
  lemma FirstRangedShows(g: Group, rank: Ranking, order: seq<string>, v: string)
    requires Ranges(g, order) && order != [] && order[0] == v && forall u :: u in order ==> u in g.served
    requires Contributes(g, rank, v)
    ensures exists x :: x in Normalized(g, rank, order) && x.version == v
  {
    var s := SortedResources(g, rank, order);
    var n: Resource :| n in g.served[v] && !Shadowed(g, rank, v, n.name);
    OneEntryPerName(g, rank, order);
    assert Serves(g, v, n.name);
    var x :| x in Normalized(g, rank, order) && x.name == n.name;
    FirstsMembers(s);
    var f: nat :| FirstOfName(s, f) && s[f] == x;
    FirstIsLeast(g, rank, order, f, v);
  }

  /** The version that is ranged over first comes before all of its rank. */
  lemma FirstRangedLeads(g: Group, rank: Ranking, order: seq<string>, v: string, w: string)
    requires Ranges(g, order) && order != [] && order[0] == v && forall u :: u in order ==> u in g.served
    requires v != w && v != g.preferred && w != g.preferred && rank(v) == rank(w)
    requires exists x :: x in Normalized(g, rank, order) && x.version == v
    ensures Leads(Normalized(g, rank, order), v, w)
  {
    var r, leq := Normalized(g, rank, order), SettledOrder(g.preferred, rank, ByPlace(order));
    SortedByRange(g, rank, order);
    FirstsSorted(SortedResources(g, rank, order), leq);
    forall i, j | 0 <= i < j < |r| ensures !(r[i].version == w && r[j].version == v) {
      assert leq(r[i], r[j]);
      assert Place(order, v) == 0 && Place(order, w) > 0;
    }
  }

  lemma ContestShows(g: Group, rank: Ranking, v: string, w: string) returns (a: seq<string>, b: seq<string>)
    requires Contested(g, rank, v, w)
    ensures Ranges(g, a) && Ranges(g, b) && (forall u :: u in a ==> u in g.served)
        && (forall u :: u in b ==> u in g.served)
    ensures Normalized(g, rank, a) != Normalized(g, rank, b)
  {
    a := RangeFrom(g, v);
    b := RangeFrom(g, w);
    FirstRangedShows(g, rank, a, v);
    FirstRangedShows(g, rank, b, w);
    FirstRangedLeads(g, rank, a, v, w);
    FirstRangedLeads(g, rank, b, w, v);
    OneLeads(Normalized(g, rank, a), v, w);
  }

  ghost predicate SameOutput(g: Group, rank: Ranking, a: seq<string>, b: seq<string>) {
    (Ranges(g, a) && Ranges(g, b) && (forall v :: v in a ==> v in g.served)
     && (forall v :: v in b ==> v in g.served)) ==>
      Normalized(g, rank, a) == Normalized(g, rank, b)
  }

  /**
   * The output is the same for all range orders exactly when no two versions of equal rank, the
   * preferred one aside, each serve a name that neither the preferred version nor one of greater rank serves.
   */
  lemma MapOrderDoesNotMatterIff(g: Group, rank: Ranking)
    ensures (forall a, b :: SameOutput(g, rank, a, b)) <==> forall v, w :: !Contested(g, rank, v, w)
  {
    if v, w :| Contested(g, rank, v, w) {
      var a, b := ContestShows(g, rank, v, w);
      assert !SameOutput(g, rank, a, b);
    } else {
      forall a, b ensures SameOutput(g, rank, a, b) {
        if Ranges(g, a) && Ranges(g, b) && (forall v :: v in a ==> v in g.served)
            && (forall v :: v in b ==> v in g.served) {
          UncontestedAgree(g, rank, a, b);
        }
      }
    }
  }

  /** Versions that compare as equal are picked by map order: v1 and v01 parse to the same number. */
  lemma EqualRanksFollowMapOrder(rank: Ranking)
    requires rank("v1") == rank("v01")
    ensures var g := Group("g", "",
                           map["v1" := [Resource("", "", "pods", "A")], "v01" := [Resource("", "", "pods", "B")]]);
            Normalized(g, rank, ["v1", "v01"]) != Normalized(g, rank, ["v01", "v1"])
  {
    var x, y := Resource("g", "v1", "pods", "A"), Resource("g", "v01", "pods", "B");
    var g := Group("g", "", map["v1" := [Resource("", "", "pods", "A")], "v01" := [Resource("", "", "pods", "B")]]);
    assert Stamped(g, "v1") == [x] && Stamped(g, "v01") == [y];
    TwoVersions(g, rank, "v1", "v01", x, y);
    TwoVersions(g, rank, "v01", "v1", y, x);
  }

  lemma TwoVersions(g: Group, rank: Ranking, v: string, w: string, x: Resource, y: Resource)
    requires v in g.served && w in g.served && Stamped(g, v) == [x] && Stamped(g, w) == [y]
    requires x.name == y.name && NotAfter(g.preferred, rank, x, y)
    ensures Normalized(g, rank, [v, w]) == [x]
  {
    var leq := Order(g.preferred, rank);
    assert [v, w][..1] == [v] && [v][..0] == [];
    assert Flatten(g, []) == [];
    assert Flatten(g, [v]) == [x];
    assert Flatten(g, [v, w]) == [x] + [y] == [x, y];
    assert [x, y][..1] == [x] && [x][..0] == [];
    assert Sort([], leq) == [];
    assert Sort([x], leq) == Insert([], x, leq) == [x];
    assert Sort([x, y], leq) == Insert([x], y, leq) == [x, y];
    assert Firsts([]) == [];
    assert Firsts([x]) == [x];
    assert x in [x];
    assert Firsts([x, y]) == Firsts([x]) + [] == [x];
  }

  // ---------------------------------------------------------------- storage by group priority

  datatype Priority = Priority(groupVersion: string, minimum: int)

  /** A registration of a resource name; `found` is the APIService of its group and version. */
  datatype Registration = Registration(resource: string, found: Option<Priority>)

  /** The global resourcePriorityMap, and for each name the registration whose storage is installed. */
  class Storage {
    var priorities: map<string, Priority>
    var installed: map<string, nat>

    constructor ()
      ensures priorities == map[] && installed == map[]
    {
      priorities, installed := map[], map[];
    }

    method CanBeAdded(r: Registration) returns (ok: bool)
      modifies this`priorities
      ensures r.found.None? ==> ok && priorities == old(priorities)
      ensures r.found.Some? ==>
                var known := Get(old(priorities), r.resource);
                && (ok <==> known.None? || known.value.minimum <= r.found.value.minimum)
                && priorities == if ok then old(priorities)[r.resource := r.found.value] else old(priorities)
    {
      if r.found.None? {
        return true;
      }
      if r.resource in priorities && priorities[r.resource].minimum > r.found.value.minimum {
        return false;
      }
      priorities := priorities[r.resource := r.found.value];
      return true;
    }

    /** Registers the resources one after the other; each accepted one replaces the storage of its name. */
    method RegisterAll(regs: seq<Registration>)
      requires priorities == map[] && installed == map[]
      modifies this
      ensures priorities == Priorities(regs)
      ensures forall name :: Get(installed, name) == Kept(regs, name)
    {
      for i := 0 to |regs|
        invariant priorities == Priorities(regs[..i])
        invariant forall name :: Get(installed, name) == Kept(regs[..i], name)
      {
        assert regs[..i + 1][..i] == regs[..i];
        var ok := CanBeAdded(regs[i]);
        if ok {
          installed := installed[regs[i].resource := i];
        }
      }
      assert regs[..|regs|] == regs;
    }
  }

  predicate Accepted(priorities: map<string, Priority>, r: Registration) {
    r.found.None? || r.resource !in priorities || priorities[r.resource].minimum <= r.found.value.minimum
  }

  function Priorities(regs: seq<Registration>): map<string, Priority> {
    if regs == [] then map[]
    else
      var before, r := Priorities(regs[..|regs| - 1]), regs[|regs| - 1];
      if r.found.Some? && Accepted(before, r) then before[r.resource := r.found.value] else before
  }

  /** The last accepted registration of a name. */
  function Kept(regs: seq<Registration>, name: string): Option<nat> {
    if regs == [] then None
    else
      var front, r := regs[..|regs| - 1], regs[|regs| - 1];
      if r.resource == name && Accepted(Priorities(front), r) then Some(|front|) else Kept(front, name)
  }

  /** Registration i is of this name and, if its lookup succeeded, of maximal priority among those that did. */
  ghost predicate Takes(regs: seq<Registration>, name: string, i: nat) {
    && i < |regs| && regs[i].resource == name
    && (regs[i].found.Some? ==>
          forall j :: 0 <= j < |regs| && regs[j].resource == name && regs[j].found.Some? ==>
            regs[j].found.value.minimum <= regs[i].found.value.minimum)
  }

  lemma {:induction false} RecordedIsMaximal(regs: seq<Registration>, name: string)
    ensures name in Priorities(regs) ==>
              && (exists i: nat :: Takes(regs, name, i) && regs[i].found == Some(Priorities(regs)[name]))
              && (forall j :: 0 <= j < |regs| && regs[j].resource == name && regs[j].found.Some? ==>
                    regs[j].found.value.minimum <= Priorities(regs)[name].minimum)
    ensures name !in Priorities(regs) ==>
              forall j :: 0 <= j < |regs| && regs[j].resource == name ==> regs[j].found.None?
  {
    if regs != [] {
      var front, n := regs[..|regs| - 1], |regs| - 1;
      RecordedIsMaximal(front, name);
      assert regs == front + [regs[n]];
      var r := regs[n];
      if r.resource == name && r.found.Some? && Accepted(Priorities(front), r) {
        assert Takes(regs, name, n);
      } else if name in Priorities(front) {
        var i: nat :| Takes(front, name, i) && front[i].found == Some(Priorities(front)[name]);
        assert Takes(regs, name, i);
      }
    }
  }

  lemma {:induction false} KeptTakes(regs: seq<Registration>, name: string)
    ensures Kept(regs, name).Some? ==>
              var i := Kept(regs, name).value;
              Takes(regs, name, i) && forall j :: i < j < |regs| ==> !Takes(regs, name, j)
    ensures Kept(regs, name).None? ==> forall j: nat :: !Takes(regs, name, j)
  {
    if regs != [] {
      var front, n := regs[..|regs| - 1], |regs| - 1;
      KeptTakes(front, name);
      RecordedIsMaximal(front, name);
      assert regs == front + [regs[n]];
      forall j: nat | j < n && Takes(regs, name, j) ensures Takes(front, name, j) {
      }
    }
  }

  /**
   * The storage kept for a name is that of its last registrant whose priority is maximal among the
   * successful lookups, unless a registrant whose lookup failed came after it.
   */
  lemma StorageKept(regs: seq<Registration>, name: string, i: nat)
    ensures Kept(regs, name) == Some(i)
       <==> Takes(regs, name, i) && forall j :: i < j < |regs| ==> !Takes(regs, name, j)
  {
    KeptTakes(regs, name);
    if Takes(regs, name, i) && Kept(regs, name).Some? {
      assert Takes(regs, name, Kept(regs, name).value);
    }
  }

  /** A registrant whose lookup fails takes the storage over, whatever priority is recorded, and leaves no record. */
  lemma FailedLookupTakesOver(regs: seq<Registration>, name: string)
    ensures var more := regs + [Registration(name, None)];
            Kept(more, name) == Some(|regs|) && Priorities(more) == Priorities(regs)
  {
  }
}
