/** Deletion of feeds and their protection while Subscriptions still list them (pkg/hub/deployer). */
module Protection {
  import opened Collections
  import opened Feeds
  import opened Catalog

  const PROTECTION: string := "apps.clusternet.io/feed-protection"
  const SUBSCRIPTION: string := "Subscription"

  /** A Manifest or HelmChart. */
  datatype Source = Source(labels: Labels, deleting: bool, finalizers: set<string>)

  datatype Subscription = Subscription(uid: string, deleting: bool, feeds: seq<Feed>)

  datatype World = World(sources: map<Key, Source>, subs: map<Key, Subscription>)

  /** Which calls succeed: updating the feed, and patching each Subscription. */
  datatype Calls = Calls(update: bool, patch: Key -> bool)

  // ---------------------------------------------------------------- which Subscriptions still need a feed

  /** Live, its UID labels the feed, and it lists the feed by kind, namespace and name. */
  predicate Refers(sub: Subscription, labels: Labels) {
    && !sub.deleting && UidShaped(sub.uid) && sub.uid in labels && labels[sub.uid] == SUBSCRIPTION
    && HasFeed(SourceOf(labels), sub.feeds)
  }

  function Referring(subs: map<Key, Subscription>, labels: Labels): set<Key> {
    set k | k in subs && Refers(subs[k], labels)
  }

  /** The UIDs are collected from the labels first; then the Subscriptions are listed and checked strictly. */
  method FindAllMatchingSubscriptions(subs: map<Key, Subscription>, labels: Labels) returns (related: set<Key>)
    ensures related == Referring(subs, labels)
  {
    var uids: set<string>, keys := {}, labels.Keys;
    while keys != {}
      invariant keys <= labels.Keys
      invariant forall u :: u in uids <==> u in labels && u !in keys && UidShaped(u) && labels[u] == SUBSCRIPTION
      decreases |keys|
    {
      var key :| key in keys;
      if UidShaped(key) && labels[key] == SUBSCRIPTION {
        uids := uids + {key};
      }
      keys := keys - {key};
    }
    var todo := subs.Keys;
    related := {};
    while todo != {}
      invariant todo <= subs.Keys
      invariant forall k :: k in related <==> k in subs && k !in todo && Refers(subs[k], labels)
      decreases |todo|
    {
      var k :| k in todo;
      var sub := subs[k];
      if sub.uid in uids && !sub.deleting {
        var i := 0;
        while i < |sub.feeds| && !SameFeed(SourceOf(labels), sub.feeds[i])
          invariant i <= |sub.feeds|
          invariant forall j :: 0 <= j < i ==> !SameFeed(SourceOf(labels), sub.feeds[j])
        {
          i := i + 1;
        }
        if i < |sub.feeds| {
          assert sub.feeds[i] in sub.feeds;
          related := related + {k};
        }
      }
      todo := todo - {k};
    }
  }

  // ---------------------------------------------------------------- deletion

  /** RemoveFeedFromSubscription; None when a selector, the patch or the call fails. */
  function Unlisted(feeds: seq<Feed>, labels: Labels, patched: bool): Option<seq<Feed>> {
    var ops := RemovalOps(feeds, labels);
    if ops.None? then None
    else if ops.value == [] then Some(feeds)
    else if patched then ApplyRemovals(feeds, ops.value)
    else None
  }

  function SubAfter(sub: Subscription, labels: Labels, patched: bool): Subscription {
    var feeds := Unlisted(sub.feeds, labels, patched);
    if Refers(sub, labels) && feeds.Some? then sub.(feeds := feeds.value) else sub
  }

  /** The feed leaves every referring Subscription, as far as the patches go. */
  function RemovedFromAll(w: World, calls: Calls, labels: Labels): World {
    w.(subs := map k | k in w.subs :: SubAfter(w.subs[k], labels, calls.patch(k)))
  }

  /** The hub's finalizers go, and with the last finalizer the feed. */
  function Released(w: World, key: Key): World
    requires key in w.sources
  {
    var left := w.sources[key].finalizers - {APP_FINALIZER, PROTECTION};
    w.(sources := if left == {} then w.sources - {key} else w.sources[key := w.sources[key].(finalizers := left)])
  }

  /**
   * A deleting feed: blocked while it is protected and referred to; otherwise it is removed from
   * the referring Subscriptions and released.
   */
  function HandleDeleted(w: World, calls: Calls, key: Key): (World, bool)
    requires key in w.sources
  {
    var src := w.sources[key];
    var related := Referring(w.subs, src.labels);
    if PROTECTION in src.finalizers && related != {} then (w, false)
    else
      var w' := RemovedFromAll(w, calls, src.labels);
      if exists k :: k in related && Unlisted(w.subs[k].feeds, src.labels, calls.patch(k)).None? then (w', false)
      else if !calls.update then (w', false)
      else (Released(w', key), true)
  }

  class FeedKeeper {
    var sources: map<Key, Source>
    var subs: map<Key, Subscription>

    function State(): World
      reads this
    {
      World(sources, subs)
    }

    constructor ()
      ensures State() == World(map[], map[])
    {
      sources, subs := map[], map[];
    }

    method Unlist(feeds: seq<Feed>, labels: Labels, patched: bool) returns (r: Option<seq<Feed>>)
      ensures r == Unlisted(feeds, labels, patched)
    {
      var ops := BuildRemovalOps(feeds, labels);
      if ops.None? {
        return None;
      }
      if |ops.value| == 0 {
        return Some(feeds);
      }
      return if patched then ApplyRemovals(feeds, ops.value) else None;
    }

    method UnlistOne(sub: Subscription, labels: Labels, patched: bool) returns (r: Subscription, done: bool)
      requires Refers(sub, labels)
      ensures r == SubAfter(sub, labels, patched)
      ensures done <==> Unlisted(sub.feeds, labels, patched).Some?
    {
      var feeds := Unlist(sub.feeds, labels, patched);
      if feeds.None? {
        return sub, false;
      }
      return sub.(feeds := feeds.value), true;
    }

    method UnlistAll(calls: Calls, labels: Labels, was: map<Key, Subscription>, related: set<Key>)
      returns (now: map<Key, Subscription>, failed: bool)
      requires related == Referring(was, labels)
      ensures now == map k | k in was :: SubAfter(was[k], labels, calls.patch(k))
      ensures !failed <==>
                forall k :: k in related ==> Unlisted(was[k].feeds, labels, calls.patch(k)).Some?
    {
      var todo := related;
      now, failed := was, false;
      while todo != {}
        invariant todo <= related && now.Keys == was.Keys
        invariant forall k :: k in was ==>
            now[k] == if k in todo then was[k] else SubAfter(was[k], labels, calls.patch(k))
        invariant !failed <==>
                    forall k :: k in related && k !in todo ==>
                      Unlisted(was[k].feeds, labels, calls.patch(k)).Some?
        decreases |todo|
      {
        var k :| k in todo;
        assert now[k] == was[k];
        var sub, done := UnlistOne(was[k], labels, calls.patch(k));
        now := now[k := sub];
        if !done {
          failed := true;
        }
        todo := todo - {k};
      }
    }

    method OnDeleted(calls: Calls, key: Key) returns (done: bool)
      requires key in sources
      modifies this
      ensures (State(), done) == HandleDeleted(old(State()), calls, key)
    {
      var src := sources[key];
      var related := FindAllMatchingSubscriptions(subs, src.labels);
      if PROTECTION in src.finalizers && related != {} {
        return false;
      }
      var failed;
      subs, failed := UnlistAll(calls, src.labels, subs, related);
      if failed || !calls.update {
        return false;
      }
      var left := src.finalizers - {APP_FINALIZER};
      left := left - {PROTECTION};
      assert left == src.finalizers - {APP_FINALIZER, PROTECTION};
      if left == {} {
        sources := sources - {key};
      } else {
        sources := sources[key := src.(finalizers := left)];
      }
      return true;
    }
  }

  // ---------------------------------------------------------------- runs

  /**
   * The hub handles a feed, labels it for a Base or Subscription or takes a label off; users write
   * and delete feeds and Subscriptions, and other controllers hold feeds. The hub alone skips
   * deleting feeds when it labels them, and alone handles the protection.
   */
  datatype Event =
    | OnSource(key: Key, calls: Calls, gate: bool, bases: seq<BaseView>)
    | AddLabel(key: Key, uid: string, kind: string)
    | DropLabel(key: Key, uid: string)
    | WriteSource(key: Key, labels: Labels)
    | DeleteSource(key: Key)
    | HoldSource(key: Key, finalizer: string)
    | FreeSource(key: Key, finalizer: string)
    | WriteSubscription(key: Key, sub: Subscription)
    | DropSubscription(key: Key)

  function Change(w: World, key: Key, change: Source -> Source): World {
    if key in w.sources then w.(sources := w.sources[key := change(w.sources[key])]) else w
  }

  /** A live feed gets the finalizers, and loses the labels of Bases that no longer list it. */
  function Refreshed(src: Source, gate: bool, bases: seq<BaseView>): Source {
    src.(finalizers := src.finalizers + {APP_FINALIZER} + (if gate then {PROTECTION} else {}),
         labels := Pruned(src.labels, SourceOf(src.labels), bases))
  }

  function Gone(w: World, key: Key): World {
    if key in w.sources && w.sources[key].deleting && w.sources[key].finalizers == {}
        then w.(sources := w.sources - {key})
    else w
  }

  function Next(w: World, e: Event): World {
    match e
    case OnSource(k, calls, gate, bases) =>
      if k !in w.sources then w
      else if w.sources[k].deleting then HandleDeleted(w, calls, k).0
      else if calls.update then Change(w, k, (s: Source) => Refreshed(s, gate, bases))
      else w
    case AddLabel(k, uid, kind) =>
      Change(w, k, (s: Source) => if s.deleting then s else s.(labels := s.labels[uid := kind]))
    case DropLabel(k, uid) => Change(w, k, (s: Source) => if s.deleting then s else s.(labels := s.labels - {uid}))
    case WriteSource(k, labels) =>
      if k !in w.sources then w.(sources := w.sources[k := Source(labels, false, {})])
      else Change(w, k, (s: Source) => s.(labels := labels))
    case DeleteSource(k) => Gone(Change(w, k, (s: Source) => s.(deleting := true)), k)
    case HoldSource(k, f) =>
      Change(w, k, (s: Source) => if s.deleting || f == PROTECTION then s else s.(finalizers := s.finalizers + {f}))
    case FreeSource(k, f) =>
      Gone(Change(w, k, (s: Source) => if f == PROTECTION then s else s.(finalizers := s.finalizers - {f})), k)
    case WriteSubscription(k, sub) => w.(subs := w.subs[k := sub])
    case DropSubscription(k) => w.(subs := w.subs - {k})
  }

  function Run(w: World, events: seq<Event>): World {
    if events == [] then w else Next(Run(w, events[..|events| - 1]), events[|events| - 1])
  }

  predicate Guarded(w: World, key: Key) {
    key in w.sources && w.sources[key].deleting && PROTECTION in w.sources[key].finalizers
  }

  /** A protected deleting feed loses its protection only in a state where no live Subscription refers to it. */
  lemma ProtectionHolds(w: World, e: Event, key: Key)
    requires Guarded(w, key) && !Guarded(Next(w, e), key)
    ensures e.OnSource? && e.key == key && Referring(w.subs, w.sources[key].labels) == {}
  {
    if !(e.OnSource? && e.key == key && Referring(w.subs, w.sources[key].labels) == {}) {
      GuardedStays(w, e, key);
    }
  }

  /** Anything else leaves it guarded, and only a user changes the labels that name the Subscriptions. */
  lemma GuardedStays(w: World, e: Event, key: Key)
    requires Guarded(w, key)
    requires e.OnSource? && e.key == key ==> Referring(w.subs, w.sources[key].labels) != {}
    ensures Guarded(Next(w, e), key)
    ensures Next(w, e).sources[key].labels == w.sources[key].labels || (e.WriteSource? && e.key == key)
  {
  }

  /** If the feed is there, some live Subscription refers to it by its labels of that moment. */
  ghost predicate Referred(w: World, key: Key) {
    key in w.sources ==> Referring(w.subs, w.sources[key].labels) != {}
  }

  /** Over a whole run, edits of its labels included: a guarded feed stays for as long as it is referred to. */
  lemma {:induction false} GuardedWhileReferred(w: World, events: seq<Event>, key: Key)
    requires Guarded(w, key)
    requires forall i :: 0 <= i < |events| ==> Referred(Run(w, events[..i]), key)
    ensures Guarded(Run(w, events), key)
  {
    if events != [] {
      var front := events[..|events| - 1];
      forall i | 0 <= i < |front| ensures Referred(Run(w, front[..i]), key) {
        assert front[..i] == events[..i];
      }
      GuardedWhileReferred(w, front, key);
      assert Referred(Run(w, front), key);
      GuardedStays(Run(w, front), events[|events| - 1], key);
    }
  }

  // ---------------------------------------------------------------- what pruning does to the protection

  function AllGoWell(): Calls {
    Calls(true, _ => true)
  }

  /** A live feed is handled with these Bases around, deleted by a user and handled again. */
  function DeletionRun(key: Key, bases: seq<BaseView>): seq<Event> {
    [OnSource(key, AllGoWell(), true, bases), DeleteSource(key), OnSource(key, AllGoWell(), true, bases)]
  }

  lemma RunOfThree(w: World, events: seq<Event>)
    requires |events| == 3
    ensures Run(w, events) == Next(Next(Next(w, events[0]), events[1]), events[2])
  {
    assert events[..2][..1] == events[..1] && events[..1][..0] == [];
    assert Run(w, events[..1]) == Next(w, events[0]);
    assert Run(w, events[..2]) == Next(Run(w, events[..1]), events[1]);
  }

  /**
   * The protection counts by the labels that pruning left: the feed is released if and only if no
   * Subscription refers by them.
   */
  lemma ReleasedIffUnreferred(w: World, key: Key, bases: seq<BaseView>)
    requires key in w.sources && !w.sources[key].deleting && w.sources[key].finalizers <= {APP_FINALIZER, PROTECTION}
    ensures var labels := w.sources[key].labels;
            && (key !in Run(w, DeletionRun(key, bases)).sources <==>
                  Referring(w.subs, Pruned(labels, SourceOf(labels), bases)) == {})
            && (key !in Run(w, DeletionRun(key, bases)).sources ==> Run(w, DeletionRun(key, bases)).subs == w.subs)
  {
    var events := DeletionRun(key, bases);
    RunOfThree(w, events);
    var src := w.sources[key];
    var kept := Refreshed(src, true, bases);
    assert kept.finalizers == {APP_FINALIZER, PROTECTION};
    var w2 := Next(Next(w, events[0]), events[1]);
    assert w2.sources[key] == kept.(deleting := true) && w2.subs == w.subs;
    if Referring(w.subs, kept.labels) == {} {
      NoneRemoved(w2, AllGoWell(), kept.labels);
      assert kept.finalizers - {APP_FINALIZER, PROTECTION} == {};
    }
  }

  lemma NoneRemoved(w: World, calls: Calls, labels: Labels)
    requires Referring(w.subs, labels) == {}
    ensures RemovedFromAll(w, calls, labels) == w
  {
    forall k | k in w.subs ensures SubAfter(w.subs[k], labels, calls.patch(k)) == w.subs[k] {
      assert k !in Referring(w.subs, labels);
    }
  }

  /** Labels of a feed with two Bases of one Subscription. */
  function SharedLabels(source: Feed, one: string, two: string, sub: string): Labels {
    map[CONFIG_KIND := source.kind, CONFIG_NAMESPACE := source.ns, CONFIG_NAME := source.name,
        one := "Base", two := "Base", sub := SUBSCRIPTION]
  }

  function SharedBases(source: Feed, one: string, two: string, sub: string): seq<BaseView> {
    [BaseView(one, map[one := "Base", CONFIG_UID := sub], []),
     BaseView(two, map[two := "Base", CONFIG_UID := sub], [source])]
  }

  /** A live feed and a live Subscription that lists it. */
  function SharedWorld(key: Key, source: Feed, one: string, two: string, sub: string): World {
    World(map[key := Source(SharedLabels(source, one, two, sub), false, {})],
          map[Key("ns", "sub") := Subscription(sub, false, [source])])
  }

  lemma SharedLabelGoes(source: Feed, one: string, two: string, sub: string)
    requires UidShaped(one) && UidShaped(two) && UidShaped(sub) && one != two && one != sub && two != sub
    ensures var labels := SharedLabels(source, one, two, sub);
            && SameFeed(SourceOf(labels), source)
            && sub in labels && sub !in Pruned(labels, SourceOf(labels), SharedBases(source, one, two, sub))
  {
    var labels, bases := SharedLabels(source, one, two, sub), SharedBases(source, one, two, sub);
    assert '/' in CONFIG_KIND && '/' in CONFIG_NAMESPACE && '/' in CONFIG_NAME && '/' in CONFIG_UID by {
      assert CONFIG_KIND[18] == '/' && CONFIG_NAMESPACE[18] == '/' && CONFIG_NAME[18] == '/' && CONFIG_UID[18] == '/';
    }
    assert |CONFIG_KIND| == 30 && |CONFIG_NAMESPACE| == 35 && CONFIG_KIND[26] == 'k' && CONFIG_NAME[26] == 'n';
    assert labels[CONFIG_KIND] == source.kind && labels[CONFIG_NAMESPACE] == source.ns
        && labels[CONFIG_NAME] == source.name;
    assert Found(labels, bases[0]) && bases[0] in bases;
    SubscriptionLabelIff(labels, SourceOf(labels), bases, sub);
  }

  /** So a protected feed is released although a live Subscription and a Base of it list the feed. */
  lemma SharedSubscriptionReleases(key: Key, source: Feed, one: string, two: string, sub: string)
    requires UidShaped(one) && UidShaped(two) && UidShaped(sub) && one != two && one != sub && two != sub
    ensures var w, bases := SharedWorld(key, source, one, two, sub), SharedBases(source, one, two, sub);
            var after := Run(w, DeletionRun(key, bases));
            && key !in after.sources && after.subs == w.subs
            && Referring(w.subs, w.sources[key].labels) == {Key("ns", "sub")}
            && HasFeed(source, after.subs[Key("ns", "sub")].feeds) && !after.subs[Key("ns", "sub")].deleting
            && HasFeed(source, bases[1].feeds)
  {
    var w, bases := SharedWorld(key, source, one, two, sub), SharedBases(source, one, two, sub);
    SharedLabelGoes(source, one, two, sub);
    assert source in [source];
    ReleasedIffUnreferred(w, key, bases);
  }

  // ---------------------------------------------------------------- unprotected feeds

  lemma UnlistedIsCleanIff(feeds: seq<Feed>, labels: Labels, patched: bool)
    requires Unlisted(feeds, labels, patched).Some?
    ensures Clean(Unlisted(feeds, labels, patched).value, labels) <==> |RemovalOps(feeds, labels).value| <= 1
  {
    RemainingIsClean(feeds, labels);
    PatchRemovesAllIffAtMostOne(feeds, labels);
    var ops := RemovalOps(feeds, labels).value;
    if ops == [] {
      RemovalsHit(feeds, ops);
      assert ApplyRemovals(feeds, ops) == Some(feeds);
    } else if |ops| > 1 {
      SecondMatchStays(feeds, labels);
    }
  }

  /** It is protected, and some live Subscription refers to it. */
  ghost predicate Blocked(w: World, key: Key)
    requires key in w.sources
  {
    PROTECTION in w.sources[key].finalizers && exists k :: k in w.subs && Refers(w.subs[k], w.sources[key].labels)
  }

  /** The Subscription is live, its UID labels the feed, and it lists a feed of that kind, namespace and name. */
  ghost predicate LiveLister(sub: Subscription, labels: Labels) {
    && !sub.deleting && |sub.uid| == 36 && '/' !in sub.uid && Get(labels, sub.uid) == Some("Subscription")
    && exists f :: f in sub.feeds && f.kind == Label(labels, CONFIG_KIND) && f.ns == Label(labels, CONFIG_NAMESPACE)
                   && f.name == Label(labels, CONFIG_NAME)
  }

  /** What blocks the deletion of a protected feed. */
  lemma BlockedIff(w: World, key: Key)
    requires key in w.sources
    ensures Blocked(w, key) <==>
              PROTECTION in w.sources[key].finalizers
              && exists k :: k in w.subs && LiveLister(w.subs[k], w.sources[key].labels)
  {
    var labels := w.sources[key].labels;
    forall k | k in w.subs ensures Refers(w.subs[k], labels) <==> LiveLister(w.subs[k], labels) {
    }
  }

  /** The list has no feed to remove, or the patch is sent and each of its positions exists when its turn comes. */
  ghost predicate Unlistable(feeds: seq<Feed>, labels: Labels, patched: bool) {
    var ops := RemovalOps(feeds, labels);
    ops.Some? && (ops.value == [] || (patched && forall j :: 0 <= j < |ops.value| ==> ops.value[j] + j < |feeds|))
  }

  lemma UnlistableIff(feeds: seq<Feed>, labels: Labels, patched: bool)
    ensures Unlisted(feeds, labels, patched).Some? <==> Unlistable(feeds, labels, patched)
  {
    if RemovalOps(feeds, labels).Some? {
      RemovalOpsMatch(feeds, labels);
      RemovalsHit(feeds, RemovalOps(feeds, labels).value);
    }
  }

  /**
   * Exactly when a deleting feed is released: nothing blocks it, it could be removed from every Subscription
   * that refers to it, and its update succeeds. Then the hub's two finalizers go, and with the last finalizer
   * the feed; otherwise it stays as it is.
   */
  lemma ReleasedIff(w: World, calls: Calls, key: Key)
    requires key in w.sources && w.sources[key].deleting
    ensures var src, (after, done) := w.sources[key], HandleDeleted(w, calls, key);
            var left := src.finalizers - {APP_FINALIZER, PROTECTION};
            && (done <==>
                  && !Blocked(w, key) && calls.update
                  && forall k :: k in w.subs && Refers(w.subs[k], src.labels) ==>
                       Unlistable(w.subs[k].feeds, src.labels, calls.patch(k)))
            && (forall j :: j != key ==> Get(after.sources, j) == Get(w.sources, j))
            && Get(after.sources, key) ==
                 if !done then Some(src) else if left == {} then None else Some(src.(finalizers := left))
  {
    var src := w.sources[key];
    var related := Referring(w.subs, src.labels);
    forall k | k in w.subs
      ensures Unlisted(w.subs[k].feeds, src.labels, calls.patch(k)).Some?
         <==> Unlistable(w.subs[k].feeds, src.labels, calls.patch(k))
    {
      UnlistableIff(w.subs[k].feeds, src.labels, calls.patch(k));
    }
    assert forall k :: k in related <==> k in w.subs && Refers(w.subs[k], src.labels);
  }

  lemma {:induction false} LiveButOne<T>(s: seq<T>, i: nat, n: nat)
    requires i < |s| && n <= |s|
    ensures Live(s, {i}, n) == if n <= i then s[..n] else s[..i] + s[i + 1..n]
  {
    if n > 0 {
      LiveButOne(s, i, n - 1);
    }
  }

  lemma UnlistedOnce(feeds: seq<Feed>, labels: Labels, patched: bool, i: nat)
    requires i < |feeds| && RemovalOps(feeds, labels) == Some([i])
    ensures Unlisted(feeds, labels, patched) == if patched then Some(feeds[..i] + feeds[i + 1..]) else None
  {
    RemovalsHit(feeds, [i]);
    assert Hit([i]) == {i} by {
      assert [i][0] + 0 == i;
    }
    LiveButOne(feeds, i, |feeds|);
  }

  lemma SubAfterOne(sub: Subscription, labels: Labels, patched: bool)
    ensures var ops, after := RemovalOps(sub.feeds, labels), SubAfter(sub, labels, patched);
            && (!Refers(sub, labels) || !patched || ops.None? || ops.value == [] ==> after == sub)
            && (Refers(sub, labels) && patched && ops.Some? && |ops.value| == 1 ==>
                  && ops.value[0] < |sub.feeds|
                  && after == sub.(feeds := sub.feeds[..ops.value[0]] + sub.feeds[ops.value[0] + 1..]))
  {
    var ops := RemovalOps(sub.feeds, labels);
    if ops.Some? && |ops.value| == 1 {
      RemovalOpsMatch(sub.feeds, labels);
      assert ops.value == [ops.value[0]];
      UnlistedOnce(sub.feeds, labels, patched, ops.value[0]);
    }
  }

  lemma HandledSubs(w: World, calls: Calls, key: Key, k: Key)
    requires key in w.sources && k in w.subs
    ensures var labels, after := w.sources[key].labels, HandleDeleted(w, calls, key).0.subs;
            && after.Keys == w.subs.Keys
            && after[k] == if Blocked(w, key) then w.subs[k] else SubAfter(w.subs[k], labels, calls.patch(k))
  {
    if j :| j in w.subs && Refers(w.subs[j], w.sources[key].labels) {
      assert j in Referring(w.subs, w.sources[key].labels);
    }
  }

  /**
   * What handling a deleting feed does to a Subscription: nothing while the feed is blocked, to one that does
   * not refer to it, when its patch fails, or when no entry matches; and one matching entry is cut out.
   */
  lemma SubscriptionAfterDeletion(w: World, calls: Calls, key: Key, k: Key)
    requires key in w.sources && k in w.subs
    ensures var src, sub, after := w.sources[key], w.subs[k], HandleDeleted(w, calls, key).0.subs;
            var ops := RemovalOps(sub.feeds, src.labels);
            && after.Keys == w.subs.Keys
            && (Blocked(w, key) || !Refers(sub, src.labels) || !calls.patch(k) || ops.None? || ops.value == [] ==>
                  after[k] == sub)
            && (!Blocked(w, key) && Refers(sub, src.labels) && calls.patch(k) && ops.Some? && |ops.value| == 1 ==>
                  && ops.value[0] < |sub.feeds|
                  && after[k] == sub.(feeds := sub.feeds[..ops.value[0]] + sub.feeds[ops.value[0] + 1..]))
  {
    HandledSubs(w, calls, key, k);
    SubAfterOne(w.subs[k], w.sources[key].labels, calls.patch(k));
  }

  /**
   * A deleting feed that is released has left a Subscription that referred to it if and only if
   * that one listed it under at most one entry.
   */
  lemma ReleasedIsUnlistedIff(w: World, calls: Calls, key: Key, k: Key)
    requires key in w.sources && w.sources[key].deleting && HandleDeleted(w, calls, key).1
    requires k in Referring(w.subs, w.sources[key].labels)
    ensures k in HandleDeleted(w, calls, key).0.subs && RemovalOps(w.subs[k].feeds, w.sources[key].labels).Some?
    ensures Clean(HandleDeleted(w, calls, key).0.subs[k].feeds, w.sources[key].labels)
       <==> |RemovalOps(w.subs[k].feeds, w.sources[key].labels).value| <= 1
  {
    var labels := w.sources[key].labels;
    assert Unlisted(w.subs[k].feeds, labels, calls.patch(k)).Some?;
    UnlistedIsCleanIff(w.subs[k].feeds, labels, calls.patch(k));
  }
}
