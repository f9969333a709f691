/** Rendering of overrides (pkg/hub/localizer) and the helm values read back from it (pkg/utils/deployer.go). */
module Localizer {
  import opened Collections
  import StableSort
  import opened Json
  import opened Feeds
  import opened Catalog

  const HELM_CHART: string := "HelmChart"
  const HELM_CHART_VERSION: string := "v1alpha1"
  const MAX_JSON_PATCH_OPERATIONS: nat := 10000

  // ---------------------------------------------------------------- applying overrides

  /** The tables that json.Unmarshal reads into a Go map. */
  function Table(j: Json): Option<map<string, Json>> {
    if j.Obj? then Some(j.fields) else if j.Null? then Some(map[]) else None
  }

  function DecodePatch(j: Json): Option<seq<Json>> {
    if j.Arr? && (forall op :: op in j.items ==> op.Obj?) then Some(j.items)
    else if j.Null? then Some([])
    else None
  }

  function ApplyJSONPatch(libs: Libraries, cur: Json, patch: Json): Option<Json> {
    var ops := DecodePatch(patch);
    if ops.None? || |ops.value| > MAX_JSON_PATCH_OPERATIONS then None else libs.jsonPatch(cur, ops.value)
  }

  function ApplyHelm(libs: Libraries, cur: Json, values: Json): Option<Json> {
    var c, v := Table(cur), Table(values);
    if c.None? || v.None? then None else Some(libs.coalesce(v.value, c.value))
  }

  function AsDoc(j: Option<Json>): Option<Raw> {
    if j.None? then None else Some(Doc(j.value))
  }

  /** One turn of the loop: blank values are skipped, and a blank result is replaced whatever the type. */
  function ApplyOne(libs: Libraries, result: Raw, o: Override): Option<Raw> {
    if o.value.Blank? then Some(result)
    else if o.value.Bad? then None
    else if result.Blank? then Some(o.value)
    else if result.Bad? then None
    else
      match o.kind
      case HelmType => AsDoc(ApplyHelm(libs, result.doc, o.value.doc))
      case JSONPatchType => AsDoc(ApplyJSONPatch(libs, result.doc, o.value.doc))
      case MergePatchType => Some(Doc(Merge(result.doc, o.value.doc)))
      case OtherType => None
  }

  function ApplyAll(libs: Libraries, original: Raw, overrides: seq<Override>): Option<Raw> {
    if overrides == [] then Some(original)
    else
      var before := ApplyAll(libs, original, overrides[..|overrides| - 1]);
      if before.None? then None else ApplyOne(libs, before.value, overrides[|overrides| - 1])
  }

  method ApplyOverrides(libs: Libraries, original: Raw, overrides: seq<Override>) returns (r: Option<Raw>)
    ensures r == ApplyAll(libs, original, overrides)
  {
    var result := original;
    for i := 0 to |overrides|
      invariant ApplyAll(libs, original, overrides[..i]) == Some(result)
    {
      assert overrides[..i + 1][..i] == overrides[..i];
      var next := ApplyOne(libs, result, overrides[i]);
      if next.None? {
        ApplyAllFails(libs, original, overrides, i + 1);
        return None;
      }
      result := next.value;
    }
    assert overrides[..|overrides|] == overrides;
    return Some(result);
  }

  lemma {:induction false} ApplyAllFails(libs: Libraries, original: Raw, overrides: seq<Override>, n: nat)
    requires n <= |overrides| && ApplyAll(libs, original, overrides[..n]).None?
    ensures ApplyAll(libs, original, overrides).None?
  {
    if n < |overrides| {
      assert overrides[..|overrides| - 1][..n] == overrides[..n];
      ApplyAllFails(libs, original, overrides[..|overrides| - 1], n);
    } else {
      assert overrides[..n] == overrides;
    }
  }

  /** The helm or JSON Patch library leaves what is at the path, or its absence, as it was. */
  ghost predicate LibraryKeeps(libs: Libraries, o: Override, p: Path) {
    forall cur: Json ::
      var r := ApplyOne(libs, Doc(cur), o);
      r.Some? && r.value.Doc? ==> Lookup(r.value.doc, p) == Lookup(cur, p)
  }

  /** A blank override, a merge patch that does not touch the path, or one of another type that keeps it. */
  ghost predicate Spares(libs: Libraries, o: Override, p: Path) {
    || o.value.Blank?
    || (o.value.Doc? && if o.kind.MergePatchType? then !Touches(o.value.doc, p) else LibraryKeeps(libs, o, p))
  }

  /** CoalesceTables(dst, src): the scalars of the first table stay. */
  ghost predicate CoalescePrefersFirst(libs: Libraries) {
    forall v, c, p: Path :: Lookup(Obj(v), p).Some? && Scalar(Lookup(Obj(v), p).value) ==>
      Lookup(libs.coalesce(v, c), p) == Lookup(Obj(v), p)
  }

  /** And what the first table does not touch is taken from the second. */
  ghost predicate CoalesceFillsIn(libs: Libraries) {
    forall v, c, p: Path :: !Touches(Obj(v), p) ==> Lookup(libs.coalesce(v, c), p) == Lookup(Obj(c), p)
  }

  /** With such a library a helm override spares the paths that it does not touch, like a merge patch. */
  lemma HelmSparesUntouched(libs: Libraries, o: Override, p: Path)
    requires CoalesceFillsIn(libs) && o.kind.HelmType? && o.value.Doc? && !Touches(o.value.doc, p)
    ensures Spares(libs, o, p)
  {
    forall cur: Json | ApplyOne(libs, Doc(cur), o).Some?
      ensures Lookup(ApplyOne(libs, Doc(cur), o).value.doc, p) == Lookup(cur, p)
    {
      var v, c := o.value.doc.fields, Table(cur).value;
      assert !Touches(Obj(v), p);
      assert Lookup(libs.coalesce(v, c), p) == Lookup(Obj(c), p);
    }
  }

  /** A merge patch with a scalar at the path, or such values of the helm type. */
  ghost predicate SetsLeaf(libs: Libraries, o: Override, p: Path) {
    && (o.kind.MergePatchType? || (o.kind.HelmType? && CoalescePrefersFirst(libs)))
    && o.value.Doc? && Lookup(o.value.doc, p).Some? && Scalar(Lookup(o.value.doc, p).value)
  }

  /** Override i is the last of the list to touch the path. */
  ghost predicate LastWriter(libs: Libraries, overrides: seq<Override>, i: nat, p: Path) {
    i < |overrides| && SetsLeaf(libs, overrides[i], p)
    && forall k :: i < k < |overrides| ==> Spares(libs, overrides[k], p)
  }

  /** What is an object stays one. */
  lemma {:induction false} NeverBlank(libs: Libraries, original: Raw, overrides: seq<Override>)
    requires original.Doc? && ApplyAll(libs, original, overrides).Some?
    ensures ApplyAll(libs, original, overrides).value.Doc?
  {
    if overrides != [] {
      NeverBlank(libs, original, overrides[..|overrides| - 1]);
    }
  }

  /**
   * Last writer wins: a scalar leaf set by one merge patch, or by helm values, is in the final object unless a later
   * override contains its path, gives one of its ancestors a value that is not an object, or is of
   * another type whose library changes it.
   */
  lemma {:induction false} LastWriterWins(libs: Libraries, original: Raw, overrides: seq<Override>, i: nat, p: Path)
    requires LastWriter(libs, overrides, i, p) && ApplyAll(libs, original, overrides).Some?
    ensures var r := ApplyAll(libs, original, overrides).value;
            r.Doc? && Lookup(r.doc, p) == Lookup(overrides[i].value.doc, p)
    decreases |overrides|
  {
    var n := |overrides| - 1;
    var before := ApplyAll(libs, original, overrides[..n]).value;
    if i == n {
      var o := overrides[i];
      if before.Doc? && o.kind.MergePatchType? {
        MergeSetsLeaf(before.doc, o.value.doc, p);
      } else if before.Doc? {
        assert o.value.doc == Obj(o.value.doc.fields);
        assert Lookup(libs.coalesce(o.value.doc.fields, Table(before.doc).value), p) == Lookup(o.value.doc, p);
      }
    } else {
      LastWriterWins(libs, original, overrides[..n], i, p);
      if overrides[n].value.Doc? && overrides[n].kind.MergePatchType? {
        MergeKeepsUntouched(before.doc, overrides[n].value.doc, p);
      }
    }
  }

  /**
   * The same for removals: where there is an object to change, a null set by one merge patch takes the path
   * out of the final object if all later overrides spare it.
   */
  lemma {:induction false} LastRemovalWins(libs: Libraries, original: Json, overrides: seq<Override>, i: nat, p: Path)
    requires i < |overrides| && overrides[i].kind.MergePatchType? && overrides[i].value.Doc?
    requires Lookup(overrides[i].value.doc, p) == Some(Null)
    requires forall k :: i < k < |overrides| ==> Spares(libs, overrides[k], p)
    requires ApplyAll(libs, Doc(original), overrides).Some?
    ensures var r := ApplyAll(libs, Doc(original), overrides).value; r.Doc? && Lookup(r.doc, p) == None
    decreases |overrides|
  {
    var n := |overrides| - 1;
    var before := ApplyAll(libs, Doc(original), overrides[..n]).value;
    NeverBlank(libs, Doc(original), overrides[..n]);
    if i == n {
      MergeRemovesNull(before.doc, overrides[i].value.doc, p);
    } else {
      LastRemovalWins(libs, original, overrides[..n], i, p);
      if overrides[n].value.Doc? && overrides[n].kind.MergePatchType? {
        MergeKeepsUntouched(before.doc, overrides[n].value.doc, p);
      }
    }
  }

  // ---------------------------------------------------------------- collecting overrides in order

  /** CreationTimestamp.Second() is the second within the minute. */
  function Second(p: Policy): nat {
    p.created % 60
  }

  /** Not greater under the comparison of getOverrides: priority first, then the second within the minute. */
  predicate Before(a: Policy, b: Policy) {
    a.priority < b.priority || (a.priority == b.priority && Second(a) <= Second(b))
  }

  const BEFORE: (Policy, Policy) -> bool := (a: Policy, b: Policy) => Before(a, b)

  lemma BeforeIsTotal()
    ensures StableSort.TotalPreorder(BEFORE)
  {
  }

  const LIVE: Policy -> bool := (p: Policy) => !p.deleting

  function InNamespace(ns: string): Policy -> bool {
    (p: Policy) => p.ns == ns
  }

  function LabelledFor(uid: string, kind: string): Policy -> bool {
    (p: Policy) => uid in p.labels && p.labels[uid] == kind
  }

  /** The live policies in the order in which they are applied. */
  function InOrder(policies: seq<Policy>): seq<Policy> {
    Selected(StableSort.Sort(policies, BEFORE), LIVE)
  }

  function Overrides(policies: seq<Policy>): seq<Override> {
    if policies == [] then [] else Overrides(policies[..|policies| - 1]) + policies[|policies| - 1].overrides
  }

  /** The UID whose label selects the policies of a feed; None when the feed does not exist. */
  function FeedUid(cat: Catalog, feed: Feed): Option<string> {
    if feed.kind == HELM_CHART then
      var k := Key(feed.ns, feed.name);
      if k in cat.charts then Some(cat.charts[k].uid) else None
    else
      var ms := ListManifests(cat, feed);
      if ms.None? || ms.value == [] then None else Some(ms.value[0].uid)
  }

  function PoliciesFor(policies: seq<Policy>, uid: string, kind: string): seq<Policy> {
    Selected(policies, LabelledFor(uid, kind))
  }

  function GlobsFor(cat: Catalog, uid: string, kind: string): seq<Policy> {
    InOrder(PoliciesFor(cat.globs, uid, kind))
  }

  function LocsFor(cat: Catalog, ns: string, uid: string, kind: string): seq<Policy> {
    InOrder(PoliciesFor(Selected(cat.locs, InNamespace(ns)), uid, kind))
  }

  /** The policies for a feed in a namespace: Globalizations first, then Localizations. */
  function Stages(cat: Catalog, ns: string, uid: string, kind: string): seq<Policy> {
    GlobsFor(cat, uid, kind) + LocsFor(cat, ns, uid, kind)
  }

  function AllOverrides(cat: Catalog, ns: string, feed: Feed): Option<seq<Override>> {
    var uid := FeedUid(cat, feed);
    if uid.None? then None else Some(Overrides(Stages(cat, ns, uid.value, feed.kind)))
  }

  method AppendLive(sorted: seq<Policy>, init: seq<Override>) returns (all: seq<Override>)
    ensures all == init + Overrides(Selected(sorted, LIVE))
  {
    all := init;
    ghost var added: seq<Override> := [];
    for i := 0 to |sorted|
      invariant added == Overrides(Selected(sorted[..i], LIVE))
      invariant all == init + added
    {
      LiveSnoc(sorted, i);
      if !sorted[i].deleting {
        all := all + sorted[i].overrides;
        added := added + sorted[i].overrides;
      }
    }
    assert sorted[..|sorted|] == sorted;
  }

  lemma LiveSnoc(sorted: seq<Policy>, i: nat)
    requires i < |sorted|
    ensures Overrides(Selected(sorted[..i + 1], LIVE))
         == Overrides(Selected(sorted[..i], LIVE)) + (if sorted[i].deleting then [] else sorted[i].overrides)
  {
    var front := Selected(sorted[..i], LIVE);
    assert sorted[..i + 1][..i] == sorted[..i];
    if sorted[i].deleting {
      assert Selected(sorted[..i + 1], LIVE) == front;
    } else {
      OverridesSnoc(front, sorted[i]);
    }
  }

  lemma OverridesSnoc(policies: seq<Policy>, p: Policy)
    ensures Overrides(policies + [p]) == Overrides(policies) + p.overrides
  {
  }

  lemma {:induction false} OverridesConcat(a: seq<Policy>, b: seq<Policy>)
    ensures Overrides(a + b) == Overrides(a) + Overrides(b)
  {
    if b == [] {
      assert a + b == a;
    } else {
      var front, last := b[..|b| - 1], b[|b| - 1];
      assert a + b == (a + front) + [last];
      assert b == front + [last];
      OverridesConcat(a, front);
      OverridesSnoc(a + front, last);
      OverridesSnoc(front, last);
      assert (Overrides(a) + Overrides(front)) + last.overrides == Overrides(a) + (Overrides(front) + last.overrides);
    }
  }

  method GetOverrides(cat: Catalog, ns: string, feed: Feed) returns (r: Option<seq<Override>>)
    ensures r == AllOverrides(cat, ns, feed)
  {
    var uid := FeedUid(cat, feed);
    if uid.None? {
      return None;
    }
    var globs := StableSort.Sort(PoliciesFor(cat.globs, uid.value, feed.kind), BEFORE);
    var inNs := Selected(cat.locs, InNamespace(ns));
    var locs := StableSort.Sort(PoliciesFor(inNs, uid.value, feed.kind), BEFORE);
    var all := AppendLive(globs, []);
    assert all == Overrides(GlobsFor(cat, uid.value, feed.kind));
    all := AppendLive(locs, all);
    OverridesConcat(GlobsFor(cat, uid.value, feed.kind), LocsFor(cat, ns, uid.value, feed.kind));
    return Some(all);
  }

  lemma InOrderIsSorted(policies: seq<Policy>)
    ensures StableSort.Sorted(InOrder(policies), BEFORE)
    ensures forall p :: p in InOrder(policies) <==> p in policies && !p.deleting
  {
    var s := StableSort.Sort(policies, BEFORE);
    BeforeIsTotal();
    StableSort.SortSorted(policies, BEFORE);
    StableSort.SortMembers(policies, BEFORE);
    StableSort.SelectedSorted(s, LIVE, BEFORE);
    SelectedMembers(s, LIVE);
  }

  lemma LocsMembers(cat: Catalog, ns: string, uid: string, kind: string)
    ensures StableSort.Sorted(LocsFor(cat, ns, uid, kind), BEFORE)
    ensures forall p :: p in LocsFor(cat, ns, uid, kind) <==>
                        p in PoliciesFor(cat.locs, uid, kind) && p.ns == ns && !p.deleting
  {
    var local := Selected(cat.locs, InNamespace(ns));
    InOrderIsSorted(PoliciesFor(local, uid, kind));
    SelectedMembers(cat.locs, InNamespace(ns));
    SelectedMembers(local, LabelledFor(uid, kind));
    SelectedMembers(cat.locs, LabelledFor(uid, kind));
  }

  ghost predicate NonDecreasing(s: seq<Policy>) {
    forall i, j :: 0 <= i < j < |s| ==> s[i].priority <= s[j].priority
  }

  lemma SortedByPriority(s: seq<Policy>)
    requires StableSort.Sorted(s, BEFORE)
    ensures NonDecreasing(s)
  {
  }

  /**
   * Exactly the live policies for the feed are applied, Globalizations before Localizations,
   * each in non-decreasing priority.
   */
  lemma StagesAreOrdered(cat: Catalog, ns: string, uid: string, kind: string)
    ensures var n, all := |GlobsFor(cat, uid, kind)|, Stages(cat, ns, uid, kind);
            && NonDecreasing(all[..n]) && NonDecreasing(all[n..])
            && (forall p :: p in all[..n] <==> p in PoliciesFor(cat.globs, uid, kind) && !p.deleting)
            && (forall p :: p in all[n..] <==> p in PoliciesFor(cat.locs, uid, kind) && p.ns == ns && !p.deleting)
  {
    var g, l, all := GlobsFor(cat, uid, kind), LocsFor(cat, ns, uid, kind), Stages(cat, ns, uid, kind);
    InOrderIsSorted(PoliciesFor(cat.globs, uid, kind));
    LocsMembers(cat, ns, uid, kind);
    SortedByPriority(g);
    SortedByPriority(l);
    assert all[..|g|] == g && all[|g|..] == l;
  }

  /** Every override of the policy spares the path. */
  ghost predicate PolicySpares(libs: Libraries, p: Policy, path: Path) {
    forall o :: o in p.overrides ==> Spares(libs, o, path)
  }

  lemma {:induction false} OverridesSpare(libs: Libraries, policies: seq<Policy>, path: Path)
    requires forall p :: p in policies ==> PolicySpares(libs, p, path)
    ensures forall o :: o in Overrides(policies) ==> Spares(libs, o, path)
  {
    if policies != [] {
      OverridesSpare(libs, policies[..|policies| - 1], path);
      assert PolicySpares(libs, policies[|policies| - 1], path);
    }
  }

  lemma LastInConcat(libs: Libraries, a: seq<Override>, w: seq<Override>, b: seq<Override>, k: nat, path: Path)
    requires LastWriter(libs, w, k, path) && forall o :: o in b ==> Spares(libs, o, path)
    ensures (a + w + b)[|a| + k] == w[k] && LastWriter(libs, a + w + b, |a| + k, path)
  {
  }

  lemma OverridesSplit(a: seq<Policy>, w: Policy, b: seq<Policy>)
    ensures Overrides(a + [w] + b) == Overrides(a) + w.overrides + Overrides(b)
  {
    OverridesConcat(a + [w], b);
    OverridesSnoc(a, w);
  }

  /**
   * The two stages: a scalar leaf set by override k of the n-th policy is in the rendered object
   * if the policy's later overrides and all policies behind it spare the path.
   */
  lemma LaterPolicyWins(libs: Libraries, original: Raw, policies: seq<Policy>, n: nat, k: nat, path: Path)
    requires n < |policies| && LastWriter(libs, policies[n].overrides, k, path)
    requires forall m :: n < m < |policies| ==> PolicySpares(libs, policies[m], path)
    requires ApplyAll(libs, original, Overrides(policies)).Some?
    ensures var r := ApplyAll(libs, original, Overrides(policies)).value;
            r.Doc? && Lookup(r.doc, path) == Lookup(policies[n].overrides[k].value.doc, path)
  {
    var a, w, b := Overrides(policies[..n]), policies[n].overrides, Overrides(policies[n + 1..]);
    assert policies == policies[..n] + [policies[n]] + policies[n + 1..];
    OverridesSplit(policies[..n], policies[n], policies[n + 1..]);
    OverridesSpare(libs, policies[n + 1..], path);
    LastInConcat(libs, a, w, b, k, path);
    LastWriterWins(libs, original, a + w + b, |a| + k, path);
  }

  /**
   * A Localization's leaf beats every Globalization whatever its priority, and every other
   * Localization of lower priority: only the others of at least its priority must spare the path.
   */
  lemma LocalizationWins(cat: Catalog, ns: string, uid: string, kind: string, original: Raw, n: nat, k: nat, path: Path)
    requires var all, g := Stages(cat, ns, uid, kind), GlobsFor(cat, uid, kind);
             && |g| <= n < |all| && LastWriter(cat.libs, all[n].overrides, k, path)
             && (forall m :: |g| <= m < |all| && m != n && all[m].priority >= all[n].priority ==>
                 PolicySpares(cat.libs, all[m], path))
             && ApplyAll(cat.libs, original, Overrides(all)).Some?
    ensures var all := Stages(cat, ns, uid, kind);
            var r := ApplyAll(cat.libs, original, Overrides(all)).value;
            r.Doc? && Lookup(r.doc, path) == Lookup(all[n].overrides[k].value.doc, path)
  {
    StagesAreOrdered(cat, ns, uid, kind);
    var all, g := Stages(cat, ns, uid, kind), GlobsFor(cat, uid, kind);
    forall m | n < m < |all| ensures PolicySpares(cat.libs, all[m], path) {
      assert all[|g|..][n - |g|].priority <= all[|g|..][m - |g|].priority;
    }
    LaterPolicyWins(cat.libs, original, Stages(cat, ns, uid, kind), n, k, path);
  }

  lemma {:induction false} SelectedPrecedes(s: seq<Policy>, p: Policy -> bool, x: Policy, y: Policy)
    ensures StableSort.Precedes(Selected(s, p), x, y) <==> p(x) && p(y) && StableSort.Precedes(s, x, y)
  {
    if s != [] {
      var front, last := s[..|s| - 1], s[|s| - 1];
      assert s == front + [last];
      SelectedPrecedes(front, p, x, y);
      SelectedMembers(front, p);
      StableSort.PrecedesSnoc(front, last, x, y);
      StableSort.PrecedesSnoc(Selected(front, p), last, x, y);
      assert Selected(front, p) + [] == Selected(front, p);
    }
  }

  /** Of two policies of one priority the smaller second comes first, then the place in the list. */
  ghost predicate TiedFirst(policies: seq<Policy>, x: Policy, y: Policy) {
    Second(x) < Second(y) || (Second(x) == Second(y) && StableSort.Precedes(policies, x, y))
  }

  /** When a policy is applied before another, for lists of any length. */
  lemma AppliedBefore(policies: seq<Policy>, x: Policy, y: Policy)
    ensures StableSort.Precedes(InOrder(policies), x, y)
       <==> && x in policies && y in policies && !x.deleting && !y.deleting
            && (x.priority < y.priority || (x.priority == y.priority && TiedFirst(policies, x, y)))
  {
    BeforeIsTotal();
    StableSort.SortOrder(policies, BEFORE, x, y);
    SelectedPrecedes(StableSort.Sort(policies, BEFORE), LIVE, x, y);
  }

  /** Policies of one priority come in the order in which they were created. */
  ghost predicate CreationOrdered(s: seq<Policy>) {
    forall x, y :: StableSort.Precedes(s, x, y) && x.priority == y.priority ==> x.created <= y.created
  }

  /** Among live policies of one priority the seconds, and for equal seconds the list, agree with creation. */
  ghost predicate SecondsTell(policies: seq<Policy>) {
    forall x, y ::
      (x in policies && y in policies && !x.deleting && !y.deleting && x.priority == y.priority
       && TiedFirst(policies, x, y)) ==>
        x.created <= y.created
  }

  /** Creation order is kept exactly when the seconds tell it. */
  lemma CreationOrderIff(policies: seq<Policy>)
    ensures CreationOrdered(InOrder(policies)) <==> SecondsTell(policies)
  {
    forall x, y
      ensures StableSort.Precedes(InOrder(policies), x, y)
         <==> && x in policies && y in policies && !x.deleting && !y.deleting
              && (x.priority < y.priority || (x.priority == y.priority && TiedFirst(policies, x, y)))
    {
      AppliedBefore(policies, x, y);
    }
  }

  /** Within one minute they do. */
  lemma OneMinuteTells(policies: seq<Policy>)
    requires forall x, y :: x in policies && y in policies && x.priority == y.priority ==>
        x.created / 60 == y.created / 60
    ensures SecondsTell(policies)
  {
  }

  /** Of two policies made at 59 and 60 seconds the newer is applied first, in any list. */
  lemma NewerAppliedFirst(policies: seq<Policy>, x: Policy, y: Policy)
    requires x in policies && y in policies && !x.deleting && !y.deleting && x.priority == y.priority
    requires x.created == 59 && y.created == 60
    ensures StableSort.Precedes(InOrder(policies), y, x) && !CreationOrdered(InOrder(policies))
  {
    AppliedBefore(policies, y, x);
    CreationOrderIff(policies);
  }

  // ---------------------------------------------------------------- rendering a Description

  function RenderWith(cat: Catalog, ns: string, feed: Feed, original: Raw): Option<Raw> {
    var overrides := AllOverrides(cat, ns, feed);
    if overrides.None? then None else ApplyAll(cat.libs, original, overrides.value)
  }

  function ChartFeed(chart: Key): Feed {
    Feed(HELM_CHART, HELM_CHART_VERSION, chart.ns, chart.name)
  }

  /** The overrides of a chart, on top of white space. */
  function RenderChart(cat: Catalog, ns: string, chart: Key): Option<Raw> {
    RenderWith(cat, ns, ChartFeed(chart), Blank)
  }

  /** A manifest with the overrides of the feed it names. */
  function RenderObject(cat: Catalog, ns: string, raw: Raw): Option<Raw> {
    if Parse(raw).None? then None else RenderWith(cat, ns, FeedOf(raw.doc), raw)
  }

  /** All values, or None when one is missing. */
  function Collect<T>(items: seq<Option<T>>): (r: Option<seq<T>>)
    ensures r.Some? <==> forall i :: 0 <= i < |items| ==> items[i].Some?
    ensures r.Some? ==> |r.value| == |items| && forall i :: 0 <= i < |items| ==> items[i] == Some(r.value[i])
  {
    if forall i :: 0 <= i < |items| ==> items[i].Some?
    then Some(seq(|items|, i requires 0 <= i < |items| => items[i].value))
    else None
  }

  function RenderedCharts(cat: Catalog, ns: string, charts: seq<Key>): seq<Option<Raw>> {
    seq(|charts|, i requires 0 <= i < |charts| => RenderChart(cat, ns, charts[i]))
  }

  function RenderedObjects(cat: Catalog, ns: string, objects: seq<Raw>): seq<Option<Raw>> {
    seq(|objects|, i requires 0 <= i < |objects| => RenderObject(cat, ns, objects[i]))
  }

  /** The Description with every entry of Raw rendered in its place, or None when one of them fails. */
  function Render(cat: Catalog, ns: string, d: DescSpec): Option<DescSpec> {
    var raws := match d.deployer
      case Helm => Collect(RenderedCharts(cat, ns, d.charts))
      case Generic => Collect(RenderedObjects(cat, ns, d.raw))
      case Other => None;
    if raws.None? then None else Some(d.(raw := raws.value))
  }

  method RenderEntry(cat: Catalog, ns: string, feed: Feed, original: Raw) returns (r: Option<Raw>)
    ensures r == RenderWith(cat, ns, feed, original)
  {
    var overrides := GetOverrides(cat, ns, feed);
    if overrides.None? {
      return None;
    }
    r := ApplyOverrides(cat.libs, original, overrides.value);
  }

  /** Entry by entry in place; a failed entry is left empty. */
  method OverrideCharts(cat: Catalog, ns: string, charts: seq<Key>) returns (r: Option<seq<Raw>>)
    ensures r == Collect(RenderedCharts(cat, ns, charts))
  {
    var raw := new Option<Raw>[|charts|](_ => None);
    for idx := 0 to |charts|
      invariant raw[..idx] == RenderedCharts(cat, ns, charts)[..idx]
    {
      raw[idx] := RenderEntry(cat, ns, ChartFeed(charts[idx]), Blank);
    }
    assert raw[..] == RenderedCharts(cat, ns, charts);
    return Collect(raw[..]);
  }

  method OverrideObject(cat: Catalog, ns: string, raw: Raw) returns (r: Option<Raw>)
    ensures r == RenderObject(cat, ns, raw)
  {
    if Parse(raw).None? {
      return None;
    }
    r := RenderEntry(cat, ns, FeedOf(raw.doc), raw);
  }

  method OverrideObjects(cat: Catalog, ns: string, objects: seq<Raw>) returns (r: Option<seq<Raw>>)
    ensures r == Collect(RenderedObjects(cat, ns, objects))
  {
    var raw := new Option<Raw>[|objects|](_ => None);
    for idx := 0 to |objects|
      invariant raw[..idx] == RenderedObjects(cat, ns, objects)[..idx]
    {
      raw[idx] := OverrideObject(cat, ns, objects[idx]);
    }
    assert raw[..] == RenderedObjects(cat, ns, objects);
    return Collect(raw[..]);
  }

  /** Works on all entries and collects the failures; a failed Description is not used. */
  method ApplyOverridesToDescription(cat: Catalog, ns: string, d: DescSpec) returns (r: Option<DescSpec>)
    ensures r == Render(cat, ns, d)
  {
    var raw: Option<seq<Raw>>;
    match d.deployer {
      case Helm => raw := OverrideCharts(cat, ns, d.charts);
      case Generic => raw := OverrideObjects(cat, ns, d.raw);
      case Other => raw := None;
    }
    return if raw.None? then None else Some(d.(raw := raw.value));
  }
}
