/**
 * What a rendered Description shows, in terms of the policies, charts and manifests alone: which
 * Globalization or Localization decides a leaf, and when rendering fails.
 */
module Precedence {
  import opened Collections
  import opened Json
  import opened Feeds
  import opened Catalog
  import opened Localizer

  // ---------------------------------------------------------------- what an entry is rendered for

  /** The first manifest whose labels the feed selects. */
  ghost predicate FirstManifest(cat: Catalog, feed: Feed, i: int) {
    && 0 <= i < |cat.manifests| && SelectorFromFeed(feed).Some?
    && Matches(SelectorFromFeed(feed).value, cat.manifests[i].labels)
    && forall j :: 0 <= j < i ==> !Matches(SelectorFromFeed(feed).value, cat.manifests[j].labels)
  }

  /** The chart, or the first manifest, that the feed names has this UID. */
  ghost predicate Names(cat: Catalog, feed: Feed, uid: string) {
    if feed.kind == "HelmChart" then
      var k := Key(feed.ns, feed.name);
      k in cat.charts && cat.charts[k].uid == uid
    else exists i :: FirstManifest(cat, feed, i) && cat.manifests[i].uid == uid
  }

  /** Entry i of the Description is rendered for this UID and kind: a chart's for helm, else the object's own. */
  ghost predicate EntryFor(cat: Catalog, d: DescSpec, i: int, uid: string, kind: string) {
    match d.deployer
    case Helm =>
      0 <= i < |d.charts| && kind == "HelmChart" && d.charts[i] in cat.charts && cat.charts[d.charts[i]].uid == uid
    case Generic =>
      && 0 <= i < |d.raw| && Parse(d.raw[i]).Some? && kind == Parse(d.raw[i]).value.kind
      && Names(cat, FeedOf(d.raw[i].doc), uid)
    case Other => false
  }

  ghost predicate Named(cat: Catalog, d: DescSpec, i: int) {
    exists uid, kind :: EntryFor(cat, d, i, uid, kind)
  }

  function Entries(d: DescSpec): nat {
    if d.deployer.Helm? then |d.charts| else |d.raw|
  }

  /** A live policy that is labelled for the UID and kind. */
  predicate Applies(p: Policy, uid: string, kind: string) {
    !p.deleting && uid in p.labels && p.labels[uid] == kind
  }

  /** The UID by which policies are looked up. */
  lemma FeedUidIff(cat: Catalog, feed: Feed, uid: string)
    ensures FeedUid(cat, feed) == Some(uid) <==> Names(cat, feed, uid)
  {
    if feed.kind != HELM_CHART && SelectorFromFeed(feed).Some? {
      var p := Selects(SelectorFromFeed(feed).value);
      SelectedFirst(cat.manifests, p);
      forall i ensures FirstManifest(cat, feed, i) <==> IsFirst(cat.manifests, p, i) {
        assert forall j :: 0 <= j < i < |cat.manifests| ==>
            (p(cat.manifests[j]) <==> Matches(SelectorFromFeed(feed).value, cat.manifests[j].labels));
      }
    }
  }

  /** The object or white space that the overrides of an entry are applied to. */
  function Original(d: DescSpec, i: int): Raw {
    if d.deployer.Generic? && 0 <= i < |d.raw| then d.raw[i] else Blank
  }

  /** The overrides of an entry: the Globalizations' and then the Localizations'. */
  lemma EntryRendered(cat: Catalog, ns: string, d: DescSpec, i: int, uid: string, kind: string)
    requires EntryFor(cat, d, i, uid, kind) && Render(cat, ns, d).Some?
    ensures 0 <= i < |Render(cat, ns, d).value.raw|
    ensures ApplyAll(cat.libs, Original(d, i), Overrides(Stages(cat, ns, uid, kind)))
         == Some(Render(cat, ns, d).value.raw[i])
  {
    var feed := if d.deployer.Helm? then ChartFeed(d.charts[i]) else FeedOf(d.raw[i].doc);
    FeedUidIff(cat, feed, uid);
    assert RenderWith(cat, ns, feed, Original(d, i)) == Some(Render(cat, ns, d).value.raw[i]);
  }

  // ---------------------------------------------------------------- who decides a leaf

  lemma {:induction false} LastOf(s: seq<Policy>, p: Policy) returns (n: nat)
    requires p in s
    ensures n < |s| && s[n] == p && forall m :: n < m < |s| ==> s[m] != p
  {
    n := |s| - 1;
    if s[n] != p {
      assert s == s[..n] + [s[n]];
      n := LastOf(s[..n], p);
    }
  }

  lemma GlobMembers(cat: Catalog, uid: string, kind: string)
    ensures forall p :: p in GlobsFor(cat, uid, kind) <==> p in cat.globs && Applies(p, uid, kind)
    ensures NonDecreasing(GlobsFor(cat, uid, kind))
  {
    InOrderIsSorted(PoliciesFor(cat.globs, uid, kind));
    SortedByPriority(GlobsFor(cat, uid, kind));
    SelectedMembers(cat.globs, LabelledFor(uid, kind));
  }

  lemma LocMembers(cat: Catalog, ns: string, uid: string, kind: string)
    ensures forall p :: p in LocsFor(cat, ns, uid, kind) <==> p in cat.locs && p.ns == ns && Applies(p, uid, kind)
    ensures NonDecreasing(LocsFor(cat, ns, uid, kind))
  {
    LocsMembers(cat, ns, uid, kind);
    SortedByPriority(LocsFor(cat, ns, uid, kind));
    SelectedMembers(cat.locs, LabelledFor(uid, kind));
  }

  /** All other policies of the list that have at least the priority of p spare the path. */
  ghost predicate OthersSpare(libs: Libraries, s: seq<Policy>, p: Policy, path: Path) {
    forall q :: q in s && q != p && q.priority >= p.priority ==> PolicySpares(libs, q, path)
  }

  /** A stage of policies by non-decreasing priority, with only such behind it that spare the path. */
  lemma StageWins(libs: Libraries, original: Raw, all: seq<Policy>, from: nat, to: nat, p: Policy, k: nat, path: Path)
    requires from <= to <= |all| && p in all[from..to] && NonDecreasing(all[from..to])
    requires LastWriter(libs, p.overrides, k, path) && OthersSpare(libs, all[from..to], p, path)
    requires forall m :: to <= m < |all| ==> PolicySpares(libs, all[m], path)
    requires ApplyAll(libs, original, Overrides(all)).Some?
    ensures var r := ApplyAll(libs, original, Overrides(all)).value;
            r.Doc? && Lookup(r.doc, path) == Lookup(p.overrides[k].value.doc, path)
  {
    var s := all[from..to];
    var n := LastOf(s, p);
    forall m | from + n < m < |all| ensures PolicySpares(libs, all[m], path) {
      if m < to {
        assert all[m] == s[m - from] && s[n].priority <= s[m - from].priority;
      }
    }
    LaterPolicyWins(libs, original, all, from + n, k, path);
  }

  /** Every other live Localization of the namespace, of at least the priority of p, spares the path. */
  ghost predicate OtherLocsSpare(cat: Catalog, ns: string, uid: string, kind: string, p: Policy, path: Path) {
    forall q :: q in cat.locs && q.ns == ns && Applies(q, uid, kind) && q != p && q.priority >= p.priority ==>
      PolicySpares(cat.libs, q, path)
  }

  /** Every other live Globalization of at least the priority of p spares the path. */
  ghost predicate OtherGlobsSpare(cat: Catalog, uid: string, kind: string, p: Policy, path: Path) {
    forall q :: q in cat.globs && Applies(q, uid, kind) && q != p && q.priority >= p.priority ==>
      PolicySpares(cat.libs, q, path)
  }

  /** Every live Localization of the namespace spares the path. */
  ghost predicate LocsSpare(cat: Catalog, ns: string, uid: string, kind: string, path: Path) {
    forall q :: q in cat.locs && q.ns == ns && Applies(q, uid, kind) ==> PolicySpares(cat.libs, q, path)
  }

  lemma LocStage(cat: Catalog, ns: string, uid: string, kind: string, original: Raw, p: Policy, k: nat, path: Path)
    requires p in cat.locs && p.ns == ns && Applies(p, uid, kind) && LastWriter(cat.libs, p.overrides, k, path)
    requires OtherLocsSpare(cat, ns, uid, kind, p, path)
    requires ApplyAll(cat.libs, original, Overrides(Stages(cat, ns, uid, kind))).Some?
    ensures var r := ApplyAll(cat.libs, original, Overrides(Stages(cat, ns, uid, kind))).value;
            r.Doc? && Lookup(r.doc, path) == Lookup(p.overrides[k].value.doc, path)
  {
    var g, l := GlobsFor(cat, uid, kind), LocsFor(cat, ns, uid, kind);
    LocMembers(cat, ns, uid, kind);
    assert OthersSpare(cat.libs, l, p, path);
    var all := Stages(cat, ns, uid, kind);
    assert all[|g|..|all|] == l;
    StageWins(cat.libs, original, all, |g|, |all|, p, k, path);
  }

  lemma GlobsInPlay(cat: Catalog, uid: string, kind: string, p: Policy, path: Path)
    requires p in cat.globs && Applies(p, uid, kind) && OtherGlobsSpare(cat, uid, kind, p, path)
    ensures var g := GlobsFor(cat, uid, kind); p in g && NonDecreasing(g) && OthersSpare(cat.libs, g, p, path)
  {
    GlobMembers(cat, uid, kind);
  }

  lemma LocsInPlay(cat: Catalog, ns: string, uid: string, kind: string, path: Path)
    requires LocsSpare(cat, ns, uid, kind, path)
    ensures forall q :: q in LocsFor(cat, ns, uid, kind) ==> PolicySpares(cat.libs, q, path)
  {
    LocMembers(cat, ns, uid, kind);
  }

  lemma GlobStage(cat: Catalog, ns: string, uid: string, kind: string, original: Raw, p: Policy, k: nat, path: Path)
    requires p in cat.globs && Applies(p, uid, kind) && LastWriter(cat.libs, p.overrides, k, path)
    requires OtherGlobsSpare(cat, uid, kind, p, path) && LocsSpare(cat, ns, uid, kind, path)
    requires ApplyAll(cat.libs, original, Overrides(Stages(cat, ns, uid, kind))).Some?
    ensures var r := ApplyAll(cat.libs, original, Overrides(Stages(cat, ns, uid, kind))).value;
            r.Doc? && Lookup(r.doc, path) == Lookup(p.overrides[k].value.doc, path)
  {
    var g, l := GlobsFor(cat, uid, kind), LocsFor(cat, ns, uid, kind);
    GlobsInPlay(cat, uid, kind, p, path);
    LocsInPlay(cat, ns, uid, kind, path);
    var all := Stages(cat, ns, uid, kind);
    assert all[0..|g|] == g && all[|g|..] == l;
    StageWins(cat.libs, original, all, 0, |g|, p, k, path);
  }

  /**
   * A scalar leaf that a live Localization sets, by the last of its overrides to touch it, is in the
   * rendered entry when every other live Localization of the namespace for it, of at least its priority,
   * spares the path, whatever the Globalizations do.
   */
  lemma LocalizationDecides(cat: Catalog, ns: string, d: DescSpec, i: int, uid: string, kind: string, p: Policy,
                            k: nat, path: Path)
    requires Render(cat, ns, d).Some? && EntryFor(cat, d, i, uid, kind)
    requires p in cat.locs && p.ns == ns && Applies(p, uid, kind) && LastWriter(cat.libs, p.overrides, k, path)
    requires OtherLocsSpare(cat, ns, uid, kind, p, path)
    ensures var raw := Render(cat, ns, d).value.raw;
            0 <= i < |raw| && raw[i].Doc? && Lookup(raw[i].doc, path) == Lookup(p.overrides[k].value.doc, path)
  {
    EntryRendered(cat, ns, d, i, uid, kind);
    LocStage(cat, ns, uid, kind, Original(d, i), p, k, path);
  }

  /** The same for a Globalization, when every live Localization of the namespace for the entry spares the path too. */
  lemma GlobalizationDecides(cat: Catalog, ns: string, d: DescSpec, i: int, uid: string, kind: string, p: Policy,
                             k: nat, path: Path)
    requires Render(cat, ns, d).Some? && EntryFor(cat, d, i, uid, kind)
    requires p in cat.globs && Applies(p, uid, kind) && LastWriter(cat.libs, p.overrides, k, path)
    requires OtherGlobsSpare(cat, uid, kind, p, path) && LocsSpare(cat, ns, uid, kind, path)
    ensures var raw := Render(cat, ns, d).value.raw;
            0 <= i < |raw| && raw[i].Doc? && Lookup(raw[i].doc, path) == Lookup(p.overrides[k].value.doc, path)
  {
    EntryRendered(cat, ns, d, i, uid, kind);
    GlobStage(cat, ns, uid, kind, Original(d, i), p, k, path);
  }

  lemma {:induction false} AllSpared(libs: Libraries, original: Json, overrides: seq<Override>, path: Path)
    requires ApplyAll(libs, Doc(original), overrides).Some?
    requires forall o :: o in overrides ==> Spares(libs, o, path)
    ensures var r := ApplyAll(libs, Doc(original), overrides).value;
            r.Doc? && Lookup(r.doc, path) == Lookup(original, path)
  {
    if overrides != [] {
      var n := |overrides| - 1;
      AllSpared(libs, original, overrides[..n], path);
      var before := ApplyAll(libs, Doc(original), overrides[..n]).value;
      var o := overrides[n];
      assert Spares(libs, o, path);
      if o.value.Doc? && o.kind.MergePatchType? {
        MergeKeepsUntouched(before.doc, o.value.doc, path);
      }
    }
  }

  /** What every live policy for an object spares is rendered as the manifest has it. */
  lemma ManifestDecides(cat: Catalog, ns: string, d: DescSpec, i: int, uid: string, kind: string, path: Path)
    requires d.deployer.Generic? && Render(cat, ns, d).Some? && EntryFor(cat, d, i, uid, kind)
    requires forall q :: q in cat.globs && Applies(q, uid, kind) ==> PolicySpares(cat.libs, q, path)
    requires LocsSpare(cat, ns, uid, kind, path)
    ensures var raw := Render(cat, ns, d).value.raw;
            0 <= i < |raw| && raw[i].Doc? && Lookup(raw[i].doc, path) == Lookup(d.raw[i].doc, path)
  {
    EntryRendered(cat, ns, d, i, uid, kind);
    GlobMembers(cat, uid, kind);
    LocMembers(cat, ns, uid, kind);
    OverridesSpare(cat.libs, Stages(cat, ns, uid, kind), path);
    AllSpared(cat.libs, d.raw[i].doc, Overrides(Stages(cat, ns, uid, kind)), path);
  }

  /** The policy applies to entries of the UID and kind in the namespace. */
  ghost predicate InForce(cat: Catalog, ns: string, uid: string, kind: string, p: Policy) {
    Applies(p, uid, kind) && (p in cat.globs || (p in cat.locs && p.ns == ns))
  }

  /** Without a live policy for it an object stays as it is, and a chart has no values. */
  lemma NoPolicyNoChange(cat: Catalog, ns: string, d: DescSpec, i: int, uid: string, kind: string)
    requires Render(cat, ns, d).Some? && EntryFor(cat, d, i, uid, kind)
    requires forall p :: !InForce(cat, ns, uid, kind, p)
    ensures var raw := Render(cat, ns, d).value.raw;
            0 <= i < |raw| && raw[i] == if d.deployer.Helm? then Blank else d.raw[i]
  {
    EntryRendered(cat, ns, d, i, uid, kind);
    GlobMembers(cat, uid, kind);
    LocMembers(cat, ns, uid, kind);
    var all := Stages(cat, ns, uid, kind);
    if all != [] {
      assert all[0] in all && InForce(cat, ns, uid, kind, all[0]);
      assert false;
    }
  }

  // ---------------------------------------------------------------- when rendering fails

  /**
   * No later override rescues a list from one that is malformed or, where there is something to change,
   * of no known type or a JSON Patch of more than 10000 operations.
   */
  predicate Breaks(o: Override, original: Raw) {
    || o.value.Bad?
    || (o.value.Doc? && original.Doc?
        && (o.kind.OtherType? || (o.kind.JSONPatchType? && o.value.doc.Arr? && |o.value.doc.items| > 10000)))
  }

  lemma BrokenFails(libs: Libraries, original: Raw, overrides: seq<Override>, n: nat)
    requires n < |overrides| && Breaks(overrides[n], original)
    ensures ApplyAll(libs, original, overrides).None?
  {
    assert overrides[..n + 1][..n] == overrides[..n];
    if original.Doc? && ApplyAll(libs, original, overrides[..n]).Some? {
      NeverBlank(libs, original, overrides[..n]);
    }
    ApplyAllFails(libs, original, overrides, n + 1);
  }

  lemma {:induction false} OverrideListed(policies: seq<Policy>, p: Policy, o: Override)
    requires p in policies && o in p.overrides
    ensures o in Overrides(policies)
  {
    var n := |policies| - 1;
    if policies[n] != p {
      assert policies == policies[..n] + [policies[n]];
      OverrideListed(policies[..n], p, o);
    }
  }

  lemma {:induction false} OverrideOrigin(policies: seq<Policy>, o: Override) returns (p: Policy)
    requires o in Overrides(policies)
    ensures p in policies && o in p.overrides
  {
    var n := |policies| - 1;
    if o in policies[n].overrides {
      p := policies[n];
    } else {
      p := OverrideOrigin(policies[..n], o);
    }
  }

  /** One malformed override of a policy in force fails the whole Description. */
  lemma BrokenOverrideFails(cat: Catalog, ns: string, d: DescSpec, i: int, uid: string, kind: string, p: Policy,
                            o: Override)
    requires EntryFor(cat, d, i, uid, kind) && InForce(cat, ns, uid, kind, p)
    requires o in p.overrides && Breaks(o, Original(d, i))
    ensures Render(cat, ns, d).None?
  {
    if Render(cat, ns, d).Some? {
      var all := Overrides(Stages(cat, ns, uid, kind));
      EntryRendered(cat, ns, d, i, uid, kind);
      GlobMembers(cat, uid, kind);
      LocMembers(cat, ns, uid, kind);
      OverrideListed(Stages(cat, ns, uid, kind), p, o);
      var n: nat :| n < |all| && all[n] == o;
      BrokenFails(cat.libs, Original(d, i), all, n);
      assert false;
    }
  }

  /** A feed that names no chart and no manifest fails it as well, and so does an object that does not parse. */
  lemma UnnamedEntryFails(cat: Catalog, ns: string, d: DescSpec, i: int)
    requires 0 <= i < Entries(d) && !d.deployer.Other? && !Named(cat, d, i)
    ensures Render(cat, ns, d).None?
  {
    if d.deployer.Helm? {
      assert d.charts[i] in cat.charts ==> EntryFor(cat, d, i, cat.charts[d.charts[i]].uid, "HelmChart");
      assert RenderedCharts(cat, ns, d.charts)[i].None?;
    } else {
      if Parse(d.raw[i]).Some? && FeedUid(cat, FeedOf(d.raw[i].doc)).Some? {
        var uid := FeedUid(cat, FeedOf(d.raw[i].doc)).value;
        FeedUidIff(cat, FeedOf(d.raw[i].doc), uid);
        assert EntryFor(cat, d, i, uid, Parse(d.raw[i]).value.kind);
      }
      assert RenderedObjects(cat, ns, d.raw)[i].None?;
    }
  }

  /** White space or a well-formed merge patch. */
  predicate Plain(o: Override) {
    o.value.Blank? || (o.value.Doc? && o.kind.MergePatchType?)
  }

  lemma {:induction false} PlainApply(libs: Libraries, original: Raw, overrides: seq<Override>)
    requires !original.Bad? && forall o :: o in overrides ==> Plain(o)
    ensures ApplyAll(libs, original, overrides).Some? && !ApplyAll(libs, original, overrides).value.Bad?
  {
    if overrides != [] {
      var n := |overrides| - 1;
      PlainApply(libs, original, overrides[..n]);
      assert overrides[n] in overrides;
    }
  }

  lemma PlainEntry(cat: Catalog, ns: string, d: DescSpec, i: int, uid: string, kind: string)
    requires EntryFor(cat, d, i, uid, kind)
    requires forall p, o :: InForce(cat, ns, uid, kind, p) && o in p.overrides ==> Plain(o)
    ensures d.deployer.Helm? ==> RenderedCharts(cat, ns, d.charts)[i].Some?
    ensures d.deployer.Generic? ==> RenderedObjects(cat, ns, d.raw)[i].Some?
  {
    var feed := if d.deployer.Helm? then ChartFeed(d.charts[i]) else FeedOf(d.raw[i].doc);
    FeedUidIff(cat, feed, uid);
    GlobMembers(cat, uid, kind);
    LocMembers(cat, ns, uid, kind);
    forall o | o in Overrides(Stages(cat, ns, uid, kind)) ensures Plain(o) {
      var p := OverrideOrigin(Stages(cat, ns, uid, kind), o);
      assert InForce(cat, ns, uid, kind, p);
    }
    PlainApply(cat.libs, Original(d, i), Overrides(Stages(cat, ns, uid, kind)));
  }

  /** Where all entries are named and only well-formed merge patches are in force, rendering succeeds. */
  lemma MergePatchesRender(cat: Catalog, ns: string, d: DescSpec)
    requires !d.deployer.Other?
    requires forall i :: 0 <= i < Entries(d) ==> Named(cat, d, i)
    requires forall uid, kind, p, o :: InForce(cat, ns, uid, kind, p) && o in p.overrides ==> Plain(o)
    ensures Render(cat, ns, d).Some?
  {
    forall i | 0 <= i < Entries(d)
      ensures d.deployer.Helm? ==> RenderedCharts(cat, ns, d.charts)[i].Some?
      ensures d.deployer.Generic? ==> RenderedObjects(cat, ns, d.raw)[i].Some?
    {
      assert Named(cat, d, i);
      var uid, kind :| EntryFor(cat, d, i, uid, kind);
      PlainEntry(cat, ns, d, i, uid, kind);
    }
  }
}
