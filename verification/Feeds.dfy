/** Feed bookkeeping: pkg/utils/feed.go and the two pruneLabels. */
module Feeds {
  import opened Collections

  datatype Feed = Feed(kind: string, apiVersion: string, ns: string, name: string)

  const CONFIG_GROUP: string := "apps.clusternet.io/config.group"
  const CONFIG_VERSION: string := "apps.clusternet.io/config.version"
  const CONFIG_KIND: string := "apps.clusternet.io/config.kind"
  const CONFIG_NAME: string := "apps.clusternet.io/config.name"
  const CONFIG_NAMESPACE: string := "apps.clusternet.io/config.namespace"
  const CONFIG_UID: string := "apps.clusternet.io/config.uid"

  /** A missing key of a Go string map reads as the empty string. */
  function Label(labels: Labels, key: string): string {
    if key in labels then labels[key] else ""
  }

  // ---------------------------------------------------------------- printed names

  function FormatFeed(f: Feed): string {
    f.kind + [' '] + PathOf(f)
  }

  predicate SameFeed(f: Feed, g: Feed) {
    f.kind == g.kind && f.ns == g.ns && f.name == g.name
  }

  predicate HasFeed(f: Feed, feeds: seq<Feed>) {
    exists g :: g in feeds && SameFeed(f, g)
  }

  // ---------------------------------------------------------------- joins that read the same

  /** a c x and b c y are one string, cut at c twice: the second cut is inside x and makes b. */
  predicate Recut(c: char, a: string, x: string, b: string, y: string) {
    |a| < |b| && b[..|a| + 1] == a + [c] && x == b[|a| + 1..] + [c] + y
  }

  lemma LongerCut(c: char, a: string, x: string, b: string, y: string)
    requires a + [c] + x == b + [c] + y && |a| < |b|
    ensures Recut(c, a, x, b, y)
  {
    var l := a + [c] + x;
    assert l[..|b|] == b && l[..|a| + 1] == a + [c];
    assert x == l[|a| + 1..] == b[|a| + 1..] + [c] + y;
  }

  lemma RecutJoins(c: char, a: string, x: string, b: string, y: string)
    requires Recut(c, a, x, b, y)
    ensures a + [c] + x == b + [c] + y
  {
  }

  /** Two joins read the same exactly when their parts are the same or one is a recut of the other. */
  lemma JoinEqual(c: char, a: string, x: string, b: string, y: string)
    ensures a + [c] + x == b + [c] + y <==> (a == b && x == y) || Recut(c, a, x, b, y) || Recut(c, b, y, a, x)
  {
    var l, r := a + [c] + x, b + [c] + y;
    if l == r {
      if |a| < |b| {
        LongerCut(c, a, x, b, y);
      } else if |b| < |a| {
        LongerCut(c, b, y, a, x);
      } else {
        assert a == l[..|a|] == b && x == l[|a| + 1..] == y;
      }
    }
    if Recut(c, a, x, b, y) {
      RecutJoins(c, a, x, b, y);
    }
    if Recut(c, b, y, a, x) {
      RecutJoins(c, b, y, a, x);
    }
  }

  lemma RecutSeparates(c: char, a: string, x: string, b: string, y: string)
    ensures Recut(c, a, x, b, y) ==> c in b && c in x
  {
    if Recut(c, a, x, b, y) {
      assert b[|a|] == b[..|a| + 1][|a|];
      assert x[|b| - |a| - 1] == c;
    }
  }

  /** Without the separator in the first parts there is one way to cut. */
  lemma SplitFirst(c: char, a: string, x: string, b: string, y: string)
    requires c !in a && c !in b && a + [c] + x == b + [c] + y
    ensures a == b && x == y
  {
    JoinEqual(c, a, x, b, y);
    RecutSeparates(c, a, x, b, y);
    RecutSeparates(c, b, y, a, x);
  }

  /** klog.KObj: the name alone without a namespace. */
  function PathOf(f: Feed): string {
    if |f.ns| > 0 then f.ns + ['/'] + f.name else f.name
  }

  /** g's namespace and name are f's, cut at a later slash of f's name. */
  predicate PathRecut(f: Feed, g: Feed) {
    if f.ns == "" then g.ns != "" && f.name == g.ns + ['/'] + g.name
    else Recut('/', f.ns, f.name, g.ns, g.name)
  }

  lemma PathsEqual(f: Feed, g: Feed)
    ensures PathOf(f) == PathOf(g) <==> (f.ns == g.ns && f.name == g.name) || PathRecut(f, g) || PathRecut(g, f)
  {
    if f.ns != "" && g.ns != "" {
      JoinEqual('/', f.ns, f.name, g.ns, g.name);
    }
  }

  /** Feeds of different kind, namespace or name with one printed name. */
  predicate Confusable(f: Feed, g: Feed) {
    || (f.kind == g.kind && (PathRecut(f, g) || PathRecut(g, f)))
    || Recut(' ', f.kind, PathOf(f), g.kind, PathOf(g))
    || Recut(' ', g.kind, PathOf(g), f.kind, PathOf(f))
  }

  /** When two feeds print alike, for all names: with kinds without spaces only a slash in a name can do it. */
  lemma FormatFeedsEqual(f: Feed, g: Feed)
    ensures FormatFeed(f) == FormatFeed(g) <==> SameFeed(f, g) || Confusable(f, g)
    ensures SameFeed(f, g) ==> !Confusable(f, g)
  {
    JoinEqual(' ', f.kind, PathOf(f), g.kind, PathOf(g));
    PathsEqual(f, g);
  }

  predicate Printable(f: Feed) {
    ' ' !in f.kind && '/' !in f.name
  }

  /** Kinds without spaces and names without slashes are told apart. */
  lemma PrintableNotConfused(f: Feed, g: Feed)
    requires Printable(f) && Printable(g)
    ensures !Confusable(f, g)
  {
    RecutSeparates(' ', f.kind, PathOf(f), g.kind, PathOf(g));
    RecutSeparates(' ', g.kind, PathOf(g), f.kind, PathOf(f));
    RecutSeparates('/', f.ns, f.name, g.ns, g.name);
    RecutSeparates('/', g.ns, g.name, f.ns, f.name);
    assert (g.ns + ['/'] + g.name)[|g.ns|] == '/' && (f.ns + ['/'] + f.name)[|f.ns|] == '/';
  }

  /** The old feeds whose printed name no new feed has, in their order. */
  function Obsoleted(oldFeeds: seq<Feed>, newFeeds: seq<Feed>): seq<Feed> {
    if oldFeeds == [] then []
    else
      var last := oldFeeds[|oldFeeds| - 1];
      Obsoleted(oldFeeds[..|oldFeeds| - 1], newFeeds)
      + (if exists g :: g in newFeeds && FormatFeed(g) == FormatFeed(last) then [] else [last])
  }

  method FindObsoletedFeeds(oldFeeds: seq<Feed>, newFeeds: seq<Feed>) returns (obsolete: seq<Feed>)
    ensures obsolete == Obsoleted(oldFeeds, newFeeds)
  {
    var desired: map<string, bool> := map[];
    for i := 0 to |newFeeds|
      invariant forall s :: s in desired <==> exists g :: g in newFeeds[..i] && FormatFeed(g) == s
      invariant forall s :: s in desired ==> desired[s]
    {
      assert newFeeds[..i + 1] == newFeeds[..i] + [newFeeds[i]];
      desired := desired[FormatFeed(newFeeds[i]) := true];
    }
    assert newFeeds[..|newFeeds|] == newFeeds;
    obsolete := [];
    for i := 0 to |oldFeeds|
      invariant obsolete == Obsoleted(oldFeeds[..i], newFeeds)
    {
      assert oldFeeds[..i + 1][..i] == oldFeeds[..i];
      var wanted := FormatFeed(oldFeeds[i]) in desired && desired[FormatFeed(oldFeeds[i])];
      if !wanted {
        obsolete := obsolete + [oldFeeds[i]];
      }
    }
    assert oldFeeds[..|oldFeeds|] == oldFeeds;
  }

  method FindFeed(feed: Feed, feeds: seq<Feed>) returns (found: bool)
    ensures found == HasFeed(feed, feeds)
  {
    for i := 0 to |feeds|
      invariant !HasFeed(feed, feeds[..i])
    {
      if SameFeed(feed, feeds[i]) {
        return true;
      }
      assert feeds[..i + 1] == feeds[..i] + [feeds[i]];
    }
    assert feeds[..|feeds|] == feeds;
    return false;
  }

  lemma {:induction false} ObsoletedMembers(oldFeeds: seq<Feed>, newFeeds: seq<Feed>, f: Feed)
    ensures f in Obsoleted(oldFeeds, newFeeds)
       <==> f in oldFeeds && forall g :: g in newFeeds ==> FormatFeed(g) != FormatFeed(f)
  {
    if oldFeeds != [] {
      ObsoletedMembers(oldFeeds[..|oldFeeds| - 1], newFeeds, f);
      assert oldFeeds == oldFeeds[..|oldFeeds| - 1] + [oldFeeds[|oldFeeds| - 1]];
    }
  }

  /** The new list has no such feed, but one that prints like it. */
  predicate Hidden(f: Feed, feeds: seq<Feed>) {
    !HasFeed(f, feeds) && exists g :: g in feeds && Confusable(f, g)
  }

  /** An old feed is reported exactly when the new list does not have it and nothing there hides it. */
  lemma ObsoletedIffNotHeld(oldFeeds: seq<Feed>, newFeeds: seq<Feed>, f: Feed)
    ensures f in Obsoleted(oldFeeds, newFeeds) <==> f in oldFeeds && !HasFeed(f, newFeeds) && !Hidden(f, newFeeds)
  {
    ObsoletedMembers(oldFeeds, newFeeds, f);
    forall g | g in newFeeds ensures FormatFeed(g) == FormatFeed(f) <==> SameFeed(f, g) || Confusable(f, g) {
      FormatFeedsEqual(f, g);
    }
  }

  /** Printable feeds do not hide one another. */
  lemma PrintableNotHidden(f: Feed, feeds: seq<Feed>)
    requires Printable(f) && forall g :: g in feeds ==> Printable(g)
    ensures !Hidden(f, feeds)
  {
    forall g | g in feeds ensures !Confusable(f, g) {
      PrintableNotConfused(f, g);
    }
  }

  /** A slash in a name can read as a namespace. */
  lemma SlashedNameIsHidden()
    ensures var f, g := Feed("K", "v1", "", "a/b"), Feed("K", "v1", "a", "b");
            Hidden(f, [g]) && f !in Obsoleted([f], [g])
  {
    var f, g := Feed("K", "v1", "", "a/b"), Feed("K", "v1", "a", "b");
    ObsoletedIffNotHeld([f], [g], f);
    assert "a/b" == "a" + ['/'] + "b";
    assert g in [g] && Confusable(f, g);
  }

  // ---------------------------------------------------------------- label pruning

  /** What pruneLabels reads of a Base. */
  datatype BaseView = BaseView(uid: string, labels: Labels, feeds: seq<Feed>)

  /** Label keys of the length of a UID and without a slash. */
  predicate UidShaped(key: string) {
    |key| == 36 && '/' !in key
  }

  /** FindBasesFromUIDs returns this Base for the UIDs found among the feed's labels. */
  predicate Found(labels: Labels, b: BaseView) {
    exists uid :: uid in labels && UidShaped(uid) && labels[uid] == "Base" && Label(b.labels, uid) == "Base"
  }

  predicate Obsolete(labels: Labels, source: Feed, b: BaseView) {
    Found(labels, b) && !HasFeed(source, b.feeds)
  }

  function Dropped(b: BaseView): set<string> {
    {b.uid, Label(b.labels, CONFIG_UID)}
  }

  /** The labels left: all but those of found Bases that no longer list the feed. */
  function Pruned(labels: Labels, source: Feed, bases: seq<BaseView>): Labels {
    map k | k in labels && !(exists b :: b in bases && Obsolete(labels, source, b) && k in Dropped(b)) :: labels[k]
  }

  function SourceOf(labels: Labels): Feed {
    Feed(Label(labels, CONFIG_KIND), "", Label(labels, CONFIG_NAMESPACE), Label(labels, CONFIG_NAME))
  }

  /** A Manifest or HelmChart whose label map pruneLabels edits in place. */
  class FeedObject {
    var labels: Labels

    constructor (l: Labels)
      ensures labels == l
    {
      labels := l;
    }

    /** The UIDs labelled "Base" are collected first, in any order, then every Base that carries one is looked at. */
    method ReferringBases(bases: seq<BaseView>) returns (found: seq<BaseView>)
      ensures forall b :: b in found <==> b in bases && Found(labels, b)
    {
      var keys := set k | k in labels && UidShaped(k) && labels[k] == "Base";
      var todo := keys;
      found := [];
      while todo != {}
        invariant todo <= keys
        invariant forall b :: b in found <==> b in bases && exists k :: k in keys - todo && Label(b.labels, k) == "Base"
        decreases |todo|
      {
        var uid :| uid in todo;
        for i := 0 to |bases|
          invariant forall b :: b in found <==>
                      (b in bases && exists k :: k in keys - todo && Label(b.labels, k) == "Base")
                      || (b in bases[..i] && Label(b.labels, uid) == "Base")
        {
          assert bases[..i + 1] == bases[..i] + [bases[i]];
          if Label(bases[i].labels, uid) == "Base" {
            found := found + [bases[i]];
          }
        }
        assert bases[..|bases|] == bases;
        assert keys - (todo - {uid}) == (keys - todo) + {uid};
        todo := todo - {uid};
      }
    }

    /** pruneLabels of a HelmChart, which knows its own kind, namespace and name. */
    method PruneChartLabels(source: Feed, bases: seq<BaseView>)
      modifies this
      ensures labels == Pruned(old(labels), source, bases)
    {
      var found := ReferringBases(bases);
      for i := 0 to |found|
        invariant forall k :: k in labels <==>
                    k in old(labels) && !(exists b :: b in found[..i] && !HasFeed(source, b.feeds) && k in Dropped(b))
        invariant forall k :: k in labels ==> labels[k] == old(labels)[k]
      {
        assert found[..i + 1] == found[..i] + [found[i]];
        var listed := FindFeed(source, found[i].feeds);
        if !listed {
          labels := labels - {found[i].uid};
          labels := labels - {Label(found[i].labels, CONFIG_UID)};
        }
      }
      assert found[..|found|] == found;
      assert labels == Pruned(old(labels), source, bases);
    }

    /**
     * pruneLabels of a Manifest, which reads its source from the labels it is editing; while UIDs are
     * not label keys of that source this makes no difference.
     */
    method PruneManifestLabels(bases: seq<BaseView>)
      modifies this
      ensures exists found :: FoundAmong(old(labels), bases, found) && labels == PruneEach(old(labels), found)
      ensures SparesSource(bases) ==> labels == Pruned(old(labels), SourceOf(old(labels)), bases)
    {
      var found := ReferringBases(bases);
      for i := 0 to |found|
        invariant labels == PruneEach(old(labels), found[..i])
      {
        assert found[..i + 1][..i] == found[..i];
        var listed := FindFeed(SourceOf(labels), found[i].feeds);
        if !listed {
          labels := labels - {found[i].uid};
          labels := labels - {Label(found[i].labels, CONFIG_UID)};
        }
      }
      assert found[..|found|] == found;
      assert FoundAmong(old(labels), bases, found);
      if SparesSource(bases) {
        PruneEachIsPruned(old(labels), bases, found);
      }
    }
  }

  /** No Base's labels to drop are those that name the source. */
  ghost predicate SparesSource(bases: seq<BaseView>) {
    forall b :: b in bases ==> Dropped(b) !! {CONFIG_KIND, CONFIG_NAMESPACE, CONFIG_NAME}
  }

  /** The found Bases, in any order. */
  ghost predicate FoundAmong(labels: Labels, bases: seq<BaseView>, found: seq<BaseView>) {
    forall b :: b in found <==> b in bases && Found(labels, b)
  }

  /** Each found Base is checked against the source that the labels name by then. */
  function PruneEach(labels: Labels, found: seq<BaseView>): Labels {
    if found == [] then labels
    else
      var before, b := PruneEach(labels, found[..|found| - 1]), found[|found| - 1];
      if HasFeed(SourceOf(before), b.feeds) then before else before - Dropped(b)
  }

  lemma {:induction false} PruneEachLeaves(labels: Labels, found: seq<BaseView>)
    requires SparesSource(found)
    ensures SourceOf(PruneEach(labels, found)) == SourceOf(labels)
    ensures forall k :: k in PruneEach(labels, found) <==>
              k in labels && !exists b :: b in found && !HasFeed(SourceOf(labels), b.feeds) && k in Dropped(b)
    ensures forall k :: k in PruneEach(labels, found) ==> PruneEach(labels, found)[k] == labels[k]
  {
    if found != [] {
      assert found == found[..|found| - 1] + [found[|found| - 1]];
      PruneEachLeaves(labels, found[..|found| - 1]);
    }
  }

  lemma PruneEachIsPruned(labels: Labels, bases: seq<BaseView>, found: seq<BaseView>)
    requires SparesSource(bases) && FoundAmong(labels, bases, found)
    ensures PruneEach(labels, found) == Pruned(labels, SourceOf(labels), bases)
  {
    PruneEachLeaves(labels, found);
  }

  /** Base b carries its own UID label, no other Base carries it, and no Base names it as its Subscription. */
  ghost predicate SelfLabelled(b: BaseView, bases: seq<BaseView>) {
    && b in bases && UidShaped(b.uid) && Label(b.labels, b.uid) == "Base"
    && (forall c :: c in bases && c != b ==> c.uid != b.uid)
    && (forall c :: c in bases ==> Label(c.labels, CONFIG_UID) != b.uid)
  }

  /** Pruning keeps the label of a self-labelled Base exactly when that Base still lists the feed. */
  lemma PrunedKeepsReferring(labels: Labels, source: Feed, bases: seq<BaseView>, b: BaseView)
    requires SelfLabelled(b, bases)
    requires b.uid in labels && labels[b.uid] == "Base"
    ensures b.uid in Pruned(labels, source, bases) <==> HasFeed(source, b.feeds)
  {
  }

  /**
   * Obsolete-feed detection and label pruning agree on the feeds a Base gave up, unless the new
   * list hides the feed.
   */
  lemma PruningFollowsObsoletion(labels: Labels, bases: seq<BaseView>, b: BaseView, oldFeeds: seq<Feed>, f: Feed)
    requires SelfLabelled(b, bases)
    requires b.uid in labels && labels[b.uid] == "Base"
    requires f in oldFeeds
    ensures (f in Obsoleted(oldFeeds, b.feeds) <==> b.uid !in Pruned(labels, f, bases)) <==> !Hidden(f, b.feeds)
  {
    PrunedKeepsReferring(labels, f, bases, b);
    ObsoletedIffNotHeld(oldFeeds, b.feeds, f);
  }

  /** A lost label belonged to a Base that gave the feed up, or to its Subscription; nothing else changes. */
  lemma PrunedFrame(labels: Labels, source: Feed, bases: seq<BaseView>, k: string)
    requires k in labels
    ensures k in Pruned(labels, source, bases) ==> Pruned(labels, source, bases)[k] == labels[k]
    ensures k !in Pruned(labels, source, bases) ==>
              exists b :: b in bases && Found(labels, b) && !HasFeed(source, b.feeds)
                          && (k == b.uid || k == Label(b.labels, CONFIG_UID))
  {
  }

  predicate OfSubscription(b: BaseView, sub: string) {
    Label(b.labels, CONFIG_UID) == sub
  }

  /** The label of a Subscription stays exactly when all its found Bases still list the feed. */
  lemma SubscriptionLabelIff(labels: Labels, source: Feed, bases: seq<BaseView>, sub: string)
    requires sub in labels && forall b :: b in bases ==> b.uid != sub
    ensures sub in Pruned(labels, source, bases)
       <==> forall b :: b in bases && OfSubscription(b, sub) && Found(labels, b) ==> HasFeed(source, b.feeds)
  {
  }

  /** What the label is for: it stays while a Base of the Subscription lists the feed. */
  ghost predicate StaysWhileListed(labels: Labels, source: Feed, bases: seq<BaseView>, sub: string) {
    (exists b :: b in bases && OfSubscription(b, sub) && HasFeed(source, b.feeds)) ==>
        sub in Pruned(labels, source, bases)
  }

  /** That holds exactly when no found Base of the Subscription has given up a feed that another one lists. */
  lemma StaysWhileListedIff(labels: Labels, source: Feed, bases: seq<BaseView>, sub: string)
    requires sub in labels && forall b :: b in bases ==> b.uid != sub
    ensures StaysWhileListed(labels, source, bases, sub)
       <==> forall kept, gone ::
              (kept in bases && OfSubscription(kept, sub) && HasFeed(source, kept.feeds)
               && gone in bases && OfSubscription(gone, sub) && Found(labels, gone)) ==>
                HasFeed(source, gone.feeds)
  {
  }

  /** So the label that protects a feed goes when one of two Bases of a Subscription gives the feed up. */
  lemma SharedSubscriptionLosesLabel(source: Feed, one: string, two: string, sub: string)
    requires UidShaped(one) && UidShaped(two) && UidShaped(sub) && one != two && one != sub && two != sub
    ensures var labels := map[one := "Base", two := "Base", sub := "Subscription"];
            var gone := BaseView(one, map[one := "Base", CONFIG_UID := sub], []);
            var kept := BaseView(two, map[two := "Base", CONFIG_UID := sub], [source]);
            HasFeed(source, kept.feeds) && !StaysWhileListed(labels, source, [gone, kept], sub)
  {
    var labels := map[one := "Base", two := "Base", sub := "Subscription"];
    var gone := BaseView(one, map[one := "Base", CONFIG_UID := sub], []);
    var kept := BaseView(two, map[two := "Base", CONFIG_UID := sub], [source]);
    assert CONFIG_UID[18] == '/';
    assert Found(labels, gone);
    assert source in kept.feeds;
    StaysWhileListedIff(labels, source, [gone, kept], sub);
    assert gone in [gone, kept] && kept in [gone, kept];
  }

  /** Only labels of UIDs with the value "Base" lead to Bases; without one nothing is pruned. */
  lemma NoBaseLabelNoPruning(labels: Labels, source: Feed, bases: seq<BaseView>)
    requires forall k :: k in labels && UidShaped(k) ==> labels[k] != "Base"
    ensures Pruned(labels, source, bases) == labels
  {
  }

  // ---------------------------------------------------------------- selectors

  function Count(s: string, c: char): nat {
    if s == "" then 0 else (if s[0] == c then 1 else 0) + Count(s[1..], c)
  }

  function Before(s: string, c: char): string {
    if s == "" || s[0] == c then "" else [s[0]] + Before(s[1..], c)
  }

  function After(s: string, c: char): string {
    if s == "" then "" else if s[0] == c then s[1..] else After(s[1..], c)
  }

  /** schema.ParseGroupVersion: nothing, "version" or "group/version". */
  function ParseGroupVersion(v: string): Option<(string, string)> {
    if v == "" || v == "/" then Some(("", ""))
    else if Count(v, '/') == 0 then Some(("", v))
    else if Count(v, '/') == 1 then Some((Before(v, '/'), After(v, '/')))
    else None
  }

  lemma {:induction false} CountNone(a: string, c: char)
    ensures Count(a, c) == 0 <==> c !in a
  {
    if a != "" {
      CountNone(a[1..], c);
      assert a == [a[0]] + a[1..];
    }
  }

  lemma {:induction false} CutAtFirst(a: string, b: string, c: char)
    requires c !in a
    ensures Before(a + [c] + b, c) == a && After(a + [c] + b, c) == b
    ensures Count(a + [c] + b, c) == 1 + Count(b, c)
  {
    if a == "" {
      assert a + [c] + b == [c] + b;
    } else {
      assert (a + [c] + b)[1..] == a[1..] + [c] + b;
      CutAtFirst(a[1..], b, c);
    }
  }

  /** "version" and "group/version" are read back as they were written. */
  lemma ParsesApiVersion(group: string, version: string)
    requires '/' !in group && '/' !in version
    ensures ParseGroupVersion(if group == "" then version else group + ['/'] + version) == Some((group, version))
  {
    CountNone(version, '/');
    if group != "" {
      CutAtFirst(group, version, '/');
      assert (group + ['/'] + version)[0] == group[0];
    }
  }

  function SelectorFromFeed(f: Feed): Option<Labels> {
    var gv := ParseGroupVersion(f.apiVersion);
    if gv.None? then None
    else
      var s := map[CONFIG_GROUP := gv.value.0, CONFIG_VERSION := gv.value.1, CONFIG_KIND := f.kind,
                   CONFIG_NAME := f.name];
      Some(if |f.ns| > 0 then s[CONFIG_NAMESPACE := f.ns] else s)
  }

  predicate Matches(selector: Labels, labels: Labels) {
    forall k :: k in selector ==> k in labels && labels[k] == selector[k]
  }

  /** A feed selects by group, version, kind and name, and by its namespace if it has one. */
  lemma SelectorMatchesIff(f: Feed, group: string, version: string, labels: Labels)
    requires '/' !in group && '/' !in version
    requires f.apiVersion == if group == "" then version else group + ['/'] + version
    ensures SelectorFromFeed(f).Some?
    ensures Matches(SelectorFromFeed(f).value, labels)
       <==> && Get(labels, CONFIG_GROUP) == Some(group) && Get(labels, CONFIG_VERSION) == Some(version)
            && Get(labels, CONFIG_KIND) == Some(f.kind) && Get(labels, CONFIG_NAME) == Some(f.name)
            && (f.ns != "" ==> Get(labels, CONFIG_NAMESPACE) == Some(f.ns))
  {
    ParsesApiVersion(group, version);
    ConfigKeysDiffer();
    var s := SelectorFromFeed(f).value;
    assert s.Keys == {CONFIG_GROUP, CONFIG_VERSION, CONFIG_KIND, CONFIG_NAME}
        + if f.ns != "" then {CONFIG_NAMESPACE} else {};
  }

  lemma ConfigKeysDiffer()
    ensures NoDup([CONFIG_GROUP, CONFIG_VERSION, CONFIG_KIND, CONFIG_NAME, CONFIG_NAMESPACE])
  {
    var keys := [CONFIG_GROUP, CONFIG_VERSION, CONFIG_KIND, CONFIG_NAME, CONFIG_NAMESPACE];
    assert |keys[0]| == 31 && |keys[1]| == 33 && |keys[2]| == 30 && |keys[3]| == 30 && |keys[4]| == 35;
    assert keys[2][26] == 'k' && keys[3][26] == 'n';
  }

  // ---------------------------------------------------------------- removal by JSON Patch

  function RemoveAt<T>(s: seq<T>, i: nat): seq<T>
    requires i < |s|
  {
    s[..i] + s[i + 1..]
  }

  /**
   * A JSON Patch of "remove" operations on one array, by sections 3 and 4.2 of RFC 6902:
   * one after the other, and a missing target fails the whole patch.
   */
  function ApplyRemovals<T>(s: seq<T>, ops: seq<nat>): Option<seq<T>> {
    if ops == [] then Some(s)
    else
      var before := ApplyRemovals(s, ops[..|ops| - 1]);
      var i := ops[|ops| - 1];
      if before.Some? && i < |before.value| then Some(RemoveAt(before.value, i)) else None
  }

  /** The first n elements of s without those at dead positions. */
  function Live<T>(s: seq<T>, dead: set<nat>, n: nat): seq<T>
    requires n <= |s|
  {
    if n == 0 then [] else Live(s, dead, n - 1) + (if n - 1 in dead then [] else [s[n - 1]])
  }

  function Without<T>(s: seq<T>, dead: set<nat>): seq<T> {
    Live(s, dead, |s|)
  }

  ghost predicate Ascending(ops: seq<nat>) {
    forall i, j :: 0 <= i < j < |ops| ==> ops[i] < ops[j]
  }

  /** The original positions that ascending operations hit: the j-th (from 0) is off by j. */
  function Hit(ops: seq<nat>): set<nat> {
    set j: nat | j < |ops| :: ops[j] + j
  }

  lemma {:induction false} LiveMore<T>(s: seq<T>, dead: set<nat>, c: nat, n: nat)
    requires c !in dead && n <= |s|
    ensures n <= c ==> Live(s, dead + {c}, n) == Live(s, dead, n)
    ensures c < n ==>
              && |Live(s, dead, c)| < |Live(s, dead, n)|
              && Live(s, dead + {c}, n) == RemoveAt(Live(s, dead, n), |Live(s, dead, c)|)
  {
    if n > 0 {
      LiveMore(s, dead, c, n - 1);
      if c + 1 == n {
        LiveMore(s, dead, c, c);
      }
    }
  }

  lemma {:induction false} LiveAll<T>(s: seq<T>, n: nat)
    requires n <= |s|
    ensures Live(s, {}, n) == s[..n]
  {
    if n > 0 {
      LiveAll(s, n - 1);
    }
  }

  /** The first n positions lose exactly one element for each hit below n. */
  lemma {:induction false} LiveLength<T>(s: seq<T>, ops: seq<nat>, n: nat)
    requires Ascending(ops) && n <= |s|
    requires forall j :: 0 <= j < |ops| ==> ops[j] + j < n
    ensures |Live(s, Hit(ops), n)| == n - |ops|
  {
    if ops == [] {
      LiveAll(s, n);
      assert Hit(ops) == {};
    } else {
      var front := ops[..|ops| - 1];
      HitSnoc(ops);
      LiveLength(s, front, n);
      LiveMore(s, Hit(front), ops[|ops| - 1] + |front|, n);
    }
  }

  lemma HitSnoc(ops: seq<nat>)
    requires Ascending(ops) && ops != []
    ensures var front, c := ops[..|ops| - 1], ops[|ops| - 1] + |ops| - 1;
            Hit(ops) == Hit(front) + {c} && c !in Hit(front) && Ascending(front)
  {
  }

  /**
   * Ascending removals succeed exactly when every shifted position exists, and then remove
   * those positions: the j-th operation hits original position ops[j] + j.
   */
  lemma {:induction false} RemovalsHit<T>(s: seq<T>, ops: seq<nat>)
    requires Ascending(ops)
    ensures ApplyRemovals(s, ops).Some? <==> forall j :: 0 <= j < |ops| ==> ops[j] + j < |s|
    ensures ApplyRemovals(s, ops).Some? ==> ApplyRemovals(s, ops).value == Without(s, Hit(ops))
  {
    if ops == [] {
      LiveAll(s, |s|);
      assert Hit(ops) == {};
    } else {
      var front, c := ops[..|ops| - 1], ops[|ops| - 1] + |ops| - 1;
      HitSnoc(ops);
      RemovalsHit(s, front);
      var before := ApplyRemovals(s, front);
      if before.Some? {
        LiveLength(s, front, |s|);
        if c < |s| {
          LiveLength(s, front, c);
          LiveMore(s, Hit(front), c, |s|);
        }
      }
    }
  }

  // ---------------------------------------------------------------- RemoveFeedFromSubscription

  /** The feed's selector matches the labels of the feed source; None when its API version does not parse. */
  function FeedMatches(f: Feed, source: Labels): Option<bool> {
    var sel := SelectorFromFeed(f);
    if sel.None? then None else Some(Matches(sel.value, source))
  }

  /** The operations, one per matching feed, or None when a selector cannot be built. */
  function RemovalOps(feeds: seq<Feed>, source: Labels): Option<seq<nat>> {
    if feeds == [] then Some([])
    else
      var n := |feeds| - 1;
      var before, m := RemovalOps(feeds[..n], source), FeedMatches(feeds[n], source);
      if before.None? || m.None? then None
      else Some(before.value + (if m.value then [n] else []))
  }

  method BuildRemovalOps(feeds: seq<Feed>, source: Labels) returns (ops: Option<seq<nat>>)
    ensures ops == RemovalOps(feeds, source)
  {
    var list: seq<nat> := [];
    for idx := 0 to |feeds|
      invariant RemovalOps(feeds[..idx], source) == Some(list)
    {
      assert feeds[..idx + 1][..idx] == feeds[..idx];
      var selector := SelectorFromFeed(feeds[idx]);
      if selector.None? {
        RemovalOpsPrefix(feeds, source, idx + 1);
        return None;
      }
      assert list + [] == list;
      if Matches(selector.value, source) {
        list := list + [idx];
      }
    }
    assert feeds[..|feeds|] == feeds;
    return Some(list);
  }

  lemma {:induction false} RemovalOpsPrefix(feeds: seq<Feed>, source: Labels, n: nat)
    requires n <= |feeds| && RemovalOps(feeds[..n], source).None?
    ensures RemovalOps(feeds, source).None?
  {
    if n == |feeds| {
      assert feeds[..n] == feeds;
    } else {
      assert feeds[..|feeds| - 1][..n] == feeds[..n];
      RemovalOpsPrefix(feeds[..|feeds| - 1], source, n);
    }
  }

  lemma {:induction false} RemovalOpsAscend(feeds: seq<Feed>, source: Labels)
    requires RemovalOps(feeds, source).Some?
    ensures var ops := RemovalOps(feeds, source).value;
            Ascending(ops) && forall j :: 0 <= j < |ops| ==> ops[j] < |feeds|
  {
    if feeds != [] {
      RemovalOpsAscend(feeds[..|feeds| - 1], source);
    }
  }

  lemma {:induction false} RemovalOpAt(feeds: seq<Feed>, source: Labels, i: nat)
    requires RemovalOps(feeds, source).Some? && i < |feeds|
    ensures FeedMatches(feeds[i], source).Some?
    ensures i in RemovalOps(feeds, source).value <==> FeedMatches(feeds[i], source) == Some(true)
  {
    var n := |feeds| - 1;
    RemovalOpsAscend(feeds[..n], source);
    if i < n {
      RemovalOpAt(feeds[..n], source, i);
    }
  }

  /** The operations are the matching positions in ascending order. */
  lemma RemovalOpsMatch(feeds: seq<Feed>, source: Labels)
    requires RemovalOps(feeds, source).Some?
    ensures var ops := RemovalOps(feeds, source).value;
            && Ascending(ops)
            && (forall i :: 0 <= i < |feeds| ==> FeedMatches(feeds[i], source).Some?)
            && (forall j :: 0 <= j < |ops| ==> ops[j] < |feeds|)
            && (forall i: nat :: i < |feeds| ==> (i in ops <==> FeedMatches(feeds[i], source) == Some(true)))
  {
    RemovalOpsAscend(feeds, source);
    forall i: nat | i < |feeds|
      ensures FeedMatches(feeds[i], source).Some?
      ensures i in RemovalOps(feeds, source).value <==> FeedMatches(feeds[i], source) == Some(true)
    {
      RemovalOpAt(feeds, source, i);
    }
  }

  predicate Clean(feeds: seq<Feed>, source: Labels) {
    forall f :: f in feeds ==> FeedMatches(f, source) == Some(false)
  }

  lemma {:induction false} LiveMembers<T>(s: seq<T>, dead: set<nat>, n: nat)
    requires n <= |s|
    ensures forall i: nat :: i < n && i !in dead ==> s[i] in Live(s, dead, n)
    ensures forall x :: x in Live(s, dead, n) ==> exists i: nat :: i < n && i !in dead && s[i] == x
  {
    if n > 0 {
      LiveMembers(s, dead, n - 1);
    }
  }

  /** What "remove all matching feeds" should leave. */
  function Remaining(feeds: seq<Feed>, source: Labels): seq<Feed>
    requires RemovalOps(feeds, source).Some?
  {
    Without(feeds, ToSet(RemovalOps(feeds, source).value))
  }

  /** Remaining holds every feed that does not match, and none that does. */
  lemma RemainingIsClean(feeds: seq<Feed>, source: Labels)
    requires RemovalOps(feeds, source).Some?
    ensures Clean(Remaining(feeds, source), source)
    ensures forall f :: f in feeds && FeedMatches(f, source) == Some(false) ==> f in Remaining(feeds, source)
  {
    var ops := RemovalOps(feeds, source).value;
    RemovalOpsMatch(feeds, source);
    LiveMembers(feeds, ToSet(ops), |feeds|);
  }

  /** Of two matches the second stays: its position is shifted by the first removal. */
  lemma SecondMatchStays(feeds: seq<Feed>, source: Labels)
    requires RemovalOps(feeds, source).Some?
    requires var ops := RemovalOps(feeds, source).value; |ops| > 1 && ApplyRemovals(feeds, ops).Some?
    ensures !Clean(ApplyRemovals(feeds, RemovalOps(feeds, source).value).value, source)
  {
    var ops := RemovalOps(feeds, source).value;
    RemovalOpsMatch(feeds, source);
    RemovalsHit(feeds, ops);
    var i := ops[1];
    forall j: nat | j < |ops| ensures ops[j] + j != i {
    }
    assert i !in Hit(ops);
    LiveMembers(feeds, Hit(ops), |feeds|);
    assert feeds[i] in Without(feeds, Hit(ops));
    assert i in ops;
  }

  /** The patch leaves exactly the non-matching feeds if and only if at most one feed matches. */
  lemma PatchRemovesAllIffAtMostOne(feeds: seq<Feed>, source: Labels)
    requires RemovalOps(feeds, source).Some?
    ensures var ops := RemovalOps(feeds, source).value;
            ApplyRemovals(feeds, ops) == Some(Remaining(feeds, source)) <==> |ops| <= 1
  {
    var ops := RemovalOps(feeds, source).value;
    RemovalOpsMatch(feeds, source);
    RemovalsHit(feeds, ops);
    RemainingIsClean(feeds, source);
    if |ops| <= 1 {
      forall x ensures x in Hit(ops) <==> x in ToSet(ops) {
        if x in ops {
          assert x == ops[0] + 0;
        }
      }
      assert Hit(ops) == ToSet(ops);
    } else if ApplyRemovals(feeds, ops).Some? {
      SecondMatchStays(feeds, source);
    }
  }
}
