# Verification models of the Clusternet hub

This project models the parts of Clusternet whose correctness rests on state that changes step by
step, and proves what they promise:

- the generic scheduler: gathering clusters, the parallel filter search over a shared counter and a
  slot array, the rotating start index, scoring and selection;
- the propagation pipeline of the hub, from Subscription over Base and Description to HelmRelease or
  to objects in child clusters, with finalizers, relabelling, retried prunes and failing calls;
- rendering of overrides, the values that a HelmRelease reads back, and the bookkeeping of feeds;
- deletion protection of feeds, approval of cluster registrations, and the choice of versions and
  storage in the shadow API.

`dafny verify dfyconfig.toml` checks everything.

## How it is built

Handlers of the hub are methods of classes (`HubDeployer.Hub`, `Scheduler.GenericScheduler`,
`Feeds.FeedObject`, `Protection.FeedKeeper`, `Approver.CRRApprover`, `Shadow.Storage`) with the loops
of the code. Each is proved equal to a specification function; runs are sequences of such functions
and of steps by users, other controllers and child clusters, and the claims over all runs are lemmas
about them.

| file | content |
|---|---|
| `Collections.dfy` | lists, options, and a stable sort that determines its result |
| `Json.dfy` | documents as JSON trees, merge patch of RFC 7396 (section 2) |
| `Feeds.dfy` | `pkg/utils/feed.go` and `pruneLabels`; JSON Patch removal by RFC 6902 (sections 3 and 4.2) |
| `Catalog.dfy` | what the listers of charts, manifests, override policies, namespaces and clusters show |
| `Localizer.dfy` | `pkg/hub/localizer` |
| `Precedence.dfy` | which policy decides what a rendered object shows, and when rendering fails |
| `Releases.dfy` | names of HelmReleases and the values they read back |
| `FilterMachine.dfy` | the parallel search as an interleaving machine |
| `Feasible.dfy` | how many clusters to look for, and fairness of the rotation |
| `Scheduler.dfy` | `pkg/scheduler/algorithm/generic.go` |
| `ObjectStore.dfy`, `Propagation.dfy`, `Hub.dfy` | the store, the handlers as functions, the handlers as methods |
| `Runs.dfy` | runs of the hub with its environment |
| `NoOrphans.dfy`, `NoLeaks.dfy`, `RawLengths.dfy` | what holds in all runs, and exactly when |
| `GroupSwitch.dfy` | a run that leaks |
| `Effects.dfy` | exactly when the hub puts an object into a child, takes it away or abandons it, in steps and runs |
| `Lifecycle.dfy`, `Descendants.dfy` | exactly when Subscriptions and Bases, and Descriptions and HelmReleases, come, are deleted and lose the hub's finalizer |
| `Teardown.dfy`, `Rounds.dfy`, `Tight.dfy` | removal of a deleting Subscription in four rounds, and why three are too few |
| `Convergence.dfy` | what one successful pass achieves |
| `Protection.dfy`, `Approver.dfy`, `Shadow.dfy` | the smaller state machines |

API calls that may fail are a predicate on calls (`ObjectStore.Api`): in one run of a handler a given
call either always succeeds or always fails, with the calls for different charts or bindings told
apart. A handler is one atomic step over the current store, so listers are fresh. A UID is a key with
the time of creation, so it is never reused.

## Where the code falls short

These are properties that the code does not have in general. Each has the exact condition under which
it holds, and an input or a run on which it fails.

- A run of the hub stays free of orphans exactly when it has no resync of a Base that has lost the
  hub's finalizer, which takes another controller's finalizer on a deleting Base, and that writes a
  Description (`NoOrphans.NoOrphansInAnyRun`, `NoOrphans.ResyncOrphansIff`; a run in
  `NoOrphans.HeldBaseOrphans`). It has none while no other controller holds Bases
  (`NoOrphans.NoOrphansWhileUnheld`).
- What the hub applied in a child cluster stays tracked all along a run exactly when no rendering of the
  run drops an object that is still in the child, and tracked nowhere else, for one of another API
  group with the same kind, namespace and name (`NoLeaks.NoLeaksInAnyRun`): objects are applied and
  deleted by group, but pruned by a name without it (`NoLeaks.DroppedIsPrunedIff`). A Subscription that
  goes over from the core Service to a Service of another group leaves the core one behind
  (`GroupSwitch.GroupSwitchLeaks`).
- `populateBases` leaves a Base with another origin alone if it lists the same feeds, because labels
  are only written when the spec differs (`Convergence.BasesConvergeIff`). So of two Subscriptions in
  different namespaces with one name, the same feeds and the same clusters, the second is handled
  without error and never gets a Base (`Convergence.SecondGetsNoBase`).
- The JSON Patch of `RemoveFeedFromSubscription` removes all matching feeds exactly when at most one
  matches (`Feeds.PatchRemovesAllIffAtMostOne`), and so a feed that is released has left a
  Subscription exactly when that listed it at most once (`Protection.ReleasedIsUnlistedIff`).
- Ties in override priority follow the second within the minute (`Localizer.AppliedBefore`); creation
  order is kept exactly when these seconds tell it (`Localizer.CreationOrderIff`), which they do not
  for policies made at 59 and 60 seconds (`Localizer.NewerAppliedFirst`).
- Feeds with the same printed name are cut at different slashes of it (`Feeds.FormatFeedsEqual`). An
  obsolete feed is missed exactly when the new list has such a partner of it and not the feed itself
  (`Feeds.ObsoletedIffNotHeld`, `Feeds.PruningFollowsObsoletion`; `Feeds.SlashedNameIsHidden`).
- The label of a Subscription stays on a feed exactly when all Bases of it that were found still list
  the feed (`Feeds.SubscriptionLabelIff`); so it stays while one of them does exactly when no other has
  given the feed up (`Feeds.StaysWhileListedIff`, `Feeds.SharedSubscriptionLosesLabel`). A protected feed
  that is deleted is released exactly when no Subscription refers to it by the labels that are left
  (`Protection.ReleasedIffUnreferred`), so one that a live Subscription lists can go
  (`Protection.SharedSubscriptionReleases`).
- Two charts of one Description share a HelmRelease exactly when they are the same or one splits the
  other at a dash (`Releases.ReleaseNamesEqual`, `Releases.ReleaseNamesCollide`). Each chart has its
  own release, and reads its own overrides, exactly when no two charts of the list are like that
  (`Releases.DistinctReleasesIff`, `Releases.OwnEntryIff`, `Convergence.OwnReleaseIff`).
- The output of `normalizeAPIGroupResources` does not depend on the order of a map exactly when no two
  versions of equal rank each serve a name that neither the preferred version nor one of greater rank
  serves (`Shadow.MapOrderDoesNotMatterIff`, `Shadow.EqualRanksFollowMapOrder`).
- A registrant whose APIService is not found takes over the storage of a resource without being
  recorded (`Shadow.FailedLookupTakesOver`); which registrant is kept is `Shadow.StorageKept`.
- A ManagedCluster is found again by its ID exactly when the user's labels do not redefine the two
  labels of the lookup (`Approver.MadeIsFoundIff`); a retried request under another name ends with two
  ManagedClusters for its ID exactly when they do (`Approver.RetryDuplicatesIff`). All along a run each ID
  has at most one exactly when no step makes one while another of the ID does not carry its labels
  (`Approver.OnePerIdInAnyRun`, `Approver.DoublesIff`). A request is approved with the ManagedCluster of
  another ID exactly when that one's labels name its ID (`Approver.LentClusterIff`).
- The guard in `GetOverrides` admits the index one past the end (`Releases.ReadValues`); no run reaches
  it (`RawLengths.RawInRangeInAnyRun`).

## Model

| member | source | states |
|---|---|---|
| FilterMachine.SlotsFormPrefix | pkg/scheduler/algorithm/generic.go:205-234 | in every interleaving claimed slots are distinct and form a prefix, an increment overshoots only when all slots are claimed, and at join the counter is the number of claimed slots |
| FilterMachine.JoinIsSound | pkg/scheduler/algorithm/generic.go:236-255 | the returned prefix has no unset entry and holds distinct passing clusters; without a cancel it holds all of them |
| FilterMachine.JoinFindsEnough | pkg/scheduler/algorithm/generic.go:188-256 | without filter error or outside cancel exactly min(wanted, passing) clusters are returned |
| FilterMachine.WantingAllFindsAll | pkg/scheduler/algorithm/generic.go:188-256 | when no more pass than are wanted, as under Replication, all that pass are found and all that fail recorded |
| FilterMachine.NoErrorNoReport | pkg/scheduler/algorithm/generic.go:210-219 | no error is reported when no filter fails internally |
| FilterMachine.ErrorIsReal | pkg/scheduler/algorithm/generic.go:210-219 | a reported error stems from a filter that failed internally |
| FilterMachine.ErrorIsReported | pkg/scheduler/algorithm/generic.go:210-255 | at join an error is held iff a cluster whose filters failed was examined, and then the search was cancelled |
| FilterMachine.WantingAllReportsErrors | pkg/scheduler/algorithm/generic.go:205-255 | when no more pass than are wanted an uninterrupted search reports an error iff the filters of some cluster fail |
| FilterMachine.OneWorkerIsRun | pkg/scheduler/parallelize/parallelism.go:56-59 | the single-worker execution is one of the interleavings |
| FilterMachine.OneWorkerStopsInOrder | pkg/scheduler/algorithm/generic.go:205-252 | with one worker the recorded clusters are a prefix of the rotation, so the next cycle starts at the first one not recorded |
| Feasible.NumFeasibleBounds | pkg/scheduler/algorithm/generic.go:121-141 | the number to find lies between min(100, n) and n for every percentage and strategy, through the wrap-around of the int32 product |
| Feasible.NumFeasibleIs | pkg/scheduler/algorithm/generic.go:126-140 | for 100 clusters and more the number is the percentage of them, rounded down, but at least 100; the percentage is the configured one, or 50 less a 125th of the clusters and at least 5; for the product as an int32 whatever it lost |
| Feasible.AllWantedIff | pkg/scheduler/algorithm/generic.go:121-140 | all clusters are wanted iff under Replication, for up to 100 clusters, or for 100 percent |
| Feasible.RotatePermutes | pkg/scheduler/algorithm/generic.go:191-204 | the rotation visits every cluster exactly once |
| Feasible.TakenAreSelections | pkg/scheduler/algorithm/generic.go:195-204 | how often a cluster is among those that a cycle takes is the count that the fairness results are about |
| Feasible.CyclesWalk | pkg/scheduler/algorithm/generic.go:195-204 | cycles that continue where the last one ended select like one long walk |
| Feasible.RoundRobin | pkg/scheduler/algorithm/generic.go:195-204 | closed form of how often each position is selected |
| Feasible.RoundRobinIsFair | pkg/scheduler/algorithm/generic.go:195-204 | over any cycles without filter plugins two selection counts differ by at most one |
| Scheduler.GatherClusters | pkg/scheduler/algorithm/generic.go:150-157 | the gathered clusters are those that some affinity selects; one bad selector fails all |
| Scheduler.ListClusters | pkg/scheduler/cache/cache.go:56-63 | the listed clusters are the cached ones that the selector matches |
| Scheduler.NormalizedClusters | pkg/scheduler/algorithm/generic.go:324-337 | drops deleting clusters and keeps the first of each name, and every live name stays |
| Scheduler.PrioritizeClusters | pkg/scheduler/algorithm/generic.go:263-313 | each cluster gets the sum of its scores as an int64, wrapped where it does not fit, or one without score plugins |
| Scheduler.SelectClusters | pkg/scheduler/algorithm/generic.go:106-117 | every scored cluster is suggested, in order; an empty list is an error |
| Scheduler.RunFilters | pkg/scheduler/algorithm/generic.go:205-255 | the search over real clusters returns what the machine promises, with the clusters that failed; it returns an error iff it examined a cluster whose filters fail internally |
| Scheduler.GenericScheduler.TakeInTurn | pkg/scheduler/algorithm/generic.go:195-204 | without filter plugins the next clusters in turn are taken and the start index moves on by their number |
| Scheduler.GenericScheduler.SearchClusters | pkg/scheduler/algorithm/generic.go:205-255 | with filter plugins the start index moves on by the clusters found and recorded, also when a filter failed; these are distinct passing and failing ones, and an examined cluster whose filters fail makes an error |
| Scheduler.GenericScheduler.FindClustersThatPassFilters | pkg/scheduler/algorithm/generic.go:188-256 | both branches, with the number to find in range |
| Scheduler.GenericScheduler.FilterUnique | pkg/scheduler/algorithm/generic.go:160-184 | an empty list, a broken prefilter and an unschedulable one end the search before any filter and leave the start index; else it moves on by the clusters found and recorded |
| Scheduler.GenericScheduler.FilterEligible | pkg/scheduler/algorithm/generic.go:160-184 | the same read as a property of the cache and the affinities |
| Scheduler.EligibleClusters | pkg/scheduler/algorithm/generic.go:144-160 | the live clusters that some affinity selects, each once |
| Scheduler.GenericScheduler.FindClustersThatFitSubscription | pkg/scheduler/algorithm/generic.go:144-185 | feasible clusters are distinct, eligible and passing: as many as are wanted, and all when no more pass; an internal failure of a filter is returned whenever all that pass are wanted; each way of stopping early gives its own result and leaves the start index |
| Scheduler.FitOfUnique | pkg/scheduler/algorithm/generic.go:144-185 | what the search over distinct clusters returns, read as a property of the cache and the affinities |
| Scheduler.ReplicationWantsAll | pkg/scheduler/algorithm/generic.go:121-124 | under Replication, for fewer than 100 clusters and for 100 percent no more pass than are wanted |
| Scheduler.Conclude | pkg/scheduler/algorithm/generic.go:75-102 | from what a cycle found to its result: the failure, no fit with the statuses, or all feasible clusters as suggestion |
| Scheduler.GenericScheduler.Schedule | pkg/scheduler/algorithm/generic.go:67-102 | when no more pass than are wanted, without failure or cancel, the suggestion is exactly the set of eligible passing clusters, each once, and the statuses are exactly the failing ones; otherwise as many are suggested as are wanted; an internal failure of some filter is then the result; the next cycle starts behind the evaluated clusters |
| Json.MergeSetsLeaf | pkg/hub/localizer/patch.go:36-75 | a scalar that a merge patch puts at a path is there afterwards |
| Json.MergeKeepsUntouched | pkg/hub/localizer/patch.go:36-75 | a merge patch leaves paths alone that it does not contain and whose ancestors it does not replace |
| Json.MergeRemovesNull | pkg/hub/localizer/patch.go:36-75 | a null in a merge patch removes what is at its path |
| Localizer.ApplyOverrides | pkg/hub/localizer/patch.go:36-75 | the loop is a left fold that stops at the first override that fails |
| Localizer.LastWriterWins | pkg/hub/localizer/patch.go:36-75 | a scalar leaf set by one merge patch, or by helm values when coalescing prefers its first table, survives unless a later merge patch contains its path or replaces an ancestor by a non-object, or a later one of the helm or JSON Patch type changes it |
| Localizer.LastRemovalWins | pkg/hub/localizer/patch.go:36-75 | the same for a null, which removes the path from an object |
| Localizer.HelmSparesUntouched | pkg/hub/localizer/patch.go:93-104 | helm values spare the paths they do not touch when coalescing fills in from its second table |
| Localizer.GetOverrides | pkg/hub/localizer/localizer.go:314-377 | collects the overrides of the sorted live Globalizations and then Localizations |
| Localizer.StagesAreOrdered | pkg/hub/localizer/localizer.go:333-377 | exactly the live policies of the feed, Globalizations first, each stage in non-decreasing priority |
| Localizer.LaterPolicyWins | pkg/hub/localizer/localizer.go:363-377 | a leaf set by one policy survives when all policies behind it spare the path |
| Localizer.LocalizationWins | pkg/hub/localizer/localizer.go:347-377 | a Localization beats every Globalization, and every Localization of lower priority |
| Localizer.AppliedBefore | pkg/hub/localizer/localizer.go:334-346 | in any list a live policy is applied before another iff its priority is lower, or equal and its second within the minute is smaller, or both are equal and it is listed first |
| Localizer.CreationOrderIff | pkg/hub/localizer/localizer.go:339-346 | policies of one priority are applied in creation order iff, for each pair of them, seconds and then the list agree with creation |
| Localizer.OneMinuteTells | pkg/hub/localizer/localizer.go:339-346 | the condition holds for policies made within one minute |
| Localizer.NewerAppliedFirst | pkg/hub/localizer/localizer.go:339-346 | it fails in any list with two of one priority made at 59 and 60 seconds, of which the newer is applied first |
| Localizer.ApplyOverridesToDescription | pkg/hub/localizer/localizer.go:255-312 | Raw is rendered entry by entry in place, from white space for charts; one failure fails the Description |
| Precedence.LocalizationDecides | pkg/hub/localizer/localizer.go:363-377 | in the rendered entry of a chart or manifest, a leaf set by a live Localization of the namespace is found when every other one of at least its priority spares the path, whatever the Globalizations |
| Precedence.GlobalizationDecides | pkg/hub/localizer/localizer.go:363-377 | so is one set by a live Globalization when every other one of at least its priority, and every live Localization of the namespace, spares the path |
| Precedence.ManifestDecides | pkg/hub/localizer/localizer.go:283-306 | a path that all live policies for an object spare shows what the manifest has |
| Precedence.NoPolicyNoChange | pkg/hub/localizer/localizer.go:255-312 | without a live policy an object stays as it is, and a chart has no values |
| Precedence.FeedUidIff | pkg/hub/localizer/localizer.go:314-331 | policies are looked up by the UID of the chart, or of the first manifest that the feed selects |
| Precedence.BrokenOverrideFails | pkg/hub/localizer/patch.go:39-71 | one malformed override in force, or one of an unknown type or with too many operations on an object, fails the whole Description |
| Precedence.UnnamedEntryFails | pkg/hub/localizer/localizer.go:255-312 | so does an object that does not parse, or that names no manifest, and a chart that does not exist |
| Precedence.MergePatchesRender | pkg/hub/localizer/localizer.go:255-312 | with all entries named and only well-formed merge patches in force rendering succeeds |
| Releases.ReadValues | pkg/utils/deployer.go:211-253 | the values come from the entry of the first chart of the release's name; the guard lets one index past the end through |
| Releases.RenderedInRange | pkg/utils/deployer.go:225-249 | after rendering the index is in range and its entry is the rendering of its chart |
| Releases.ReleaseGetsOwnChart | pkg/utils/deployer.go:225-249 | among charts free of collisions each release reads exactly its own chart's overrides |
| Releases.ReleaseNamesEqual | pkg/utils/deployer.go:255-257 | two charts share a name iff they are equal or one's namespace and name are the other's, cut at another dash |
| Releases.DistinctReleasesIff | pkg/utils/deployer.go:255-257 | the charts of a Description have distinct releases iff no two of them are equal or split one another |
| Releases.OwnEntryIff | pkg/utils/deployer.go:225-249 | each chart is the first of its release's name, whose entry is read, iff the same holds |
| Releases.DashlessDoNotSplit | pkg/utils/deployer.go:255-257 | namespaces without dashes split no chart |
| Releases.ReleaseNamesCollide | pkg/utils/deployer.go:255-257 | web of namespace a-b and b-web of namespace a share a name in every Description |
| RawLengths.RawInRangeInAnyRun | pkg/utils/deployer.go:225-249 | in every run a stored helm Description has one Raw entry per chart, so the index is in range |
| Feeds.FormatFeedsEqual | pkg/utils/feed.go:80-87 | for all feeds: two print alike iff they agree in kind, namespace and name or are the same text cut at other places |
| Feeds.PrintableNotConfused | pkg/utils/feed.go:80-87 | without spaces in kinds and slashes in names only the former |
| Feeds.PrintableNotHidden | pkg/utils/feed.go:80-87 | such feeds do not hide one another, so that an old one is reported iff the new list does not have it |
| Feeds.FindObsoletedFeeds | pkg/utils/feed.go:124-137 | returns the old feeds whose printed name is not in the new list, in order |
| Feeds.FindFeed | pkg/utils/feed.go:155-163 | HasFeed compares kind, namespace and name |
| Feeds.ObsoletedIffNotHeld | pkg/utils/feed.go:124-163 | an old feed is reported iff the new list does not have it and has no other feed that prints like it |
| Feeds.SlashedNameIsHidden | pkg/utils/feed.go:80-87 | a feed with a slash in its name that is given up and not reported |
| Feeds.FeedObject.ReferringBases | pkg/utils/feed.go:139-153 | finds the Bases that carry one of the UIDs labelled Base |
| Feeds.FeedObject.PruneManifestLabels | pkg/controllers/apps/manifest/manifest.go:356-381 | checks each found Base against the source that the labels name by then and removes its labels and its Subscription's; while no UID is a label key of that source, exactly those of found Bases that no longer list the feed |
| Feeds.FeedObject.PruneChartLabels | pkg/controllers/apps/helmchart/helmchart.go:374-399 | the same for a HelmChart |
| Feeds.PrunedKeepsReferring | pkg/controllers/apps/manifest/manifest.go:356-381 | a self-labelled Base keeps its label iff it still lists the feed |
| Feeds.PruningFollowsObsoletion | pkg/controllers/apps/helmchart/helmchart.go:374-399 | for an old feed of a self-labelled Base detection and pruning of its label agree iff the new list does not hide the feed |
| Feeds.PrunedFrame | pkg/controllers/apps/manifest/manifest.go:356-381 | no other label changes |
| Feeds.NoBaseLabelNoPruning | pkg/utils/feed.go:139-153 | without a UID labelled Base nothing is pruned |
| Feeds.SubscriptionLabelIff | pkg/controllers/apps/manifest/manifest.go:356-381 | a Subscription's label stays iff all its found Bases still list the feed |
| Feeds.StaysWhileListedIff | pkg/controllers/apps/manifest/manifest.go:356-381 | it stays while some Base of it lists the feed iff no other found Base of it has given the feed up |
| Feeds.SharedSubscriptionLosesLabel | pkg/controllers/apps/manifest/manifest.go:376-379 | labels and Bases, for any UIDs, with which it goes although a Base still lists the feed |
| Feeds.BuildRemovalOps | pkg/utils/feed.go:89-108 | one remove operation for each matching feed, by index |
| Feeds.SelectorMatchesIff | pkg/utils/feed.go:44-66 | a feed selects by group, version, kind and name, and by its namespace if it has one |
| Feeds.ParsesApiVersion | pkg/utils/feed.go:44-52 | an API version is read back as the group and version it was written from |
| Feeds.RemovalOpsMatch | pkg/utils/feed.go:92-108 | the operations are exactly the matching positions, ascending |
| Feeds.RemovalsHit | pkg/utils/feed.go:89-122 | applied one by one, the j-th operation hits original position i_j + j; all apply iff these exist |
| Feeds.RemainingIsClean | pkg/utils/feed.go:89-122 | what removing all matches would leave: every feed that does not match and none that does |
| Feeds.PatchRemovesAllIffAtMostOne | pkg/utils/feed.go:89-122 | the patch leaves exactly that iff at most one feed matches |
| HubDeployer.Hub.OnSubscription | pkg/controllers/apps/subscription/subscription.go:289-348 | finalizer, self label, then the handler, each call of which may fail |
| HubDeployer.Hub.ProcessOneSubscription | pkg/hub/deployer/deployer.go:229-279 | populates the Bases, or deletes them and waits before the finalizer goes |
| HubDeployer.Hub.SyncBases | pkg/hub/deployer/deployer.go:281-351 | syncs the Base of each binding cluster and spares it from deletion even when that fails |
| HubDeployer.Hub.SyncAllBases | pkg/hub/deployer/deployer.go:281-361 | the whole of populateBases, key by key |
| HubDeployer.Hub.SyncOneBase | pkg/hub/deployer/deployer.go:363-408 | creates, relabels and updates on a different spec, or leaves the Base as it is |
| HubDeployer.Hub.DeleteOneBase | pkg/hub/deployer/deployer.go:410-433 | deletes after the feeds were unlabelled |
| HubDeployer.Hub.OnBase | pkg/controllers/apps/base/base.go:284-344 | finalizer, self label, handler |
| HubDeployer.Hub.ProcessOneBase | pkg/hub/deployer/deployer.go:435-486 | renders the Base, or deletes its Descriptions and waits |
| HubDeployer.Hub.OnFeed | pkg/hub/deployer/deployer.go:835-869 | renders a Base again without looking at its deletion mark |
| HubDeployer.Hub.GatherFeeds | pkg/hub/deployer/deployer.go:488-556 | resolves the feeds in order up to the first that does not resolve |
| HubDeployer.Hub.SyncAllDescriptions | pkg/hub/deployer/deployer.go:488-642 | the whole of populateDescriptions, key by key, with the prunes it starts |
| HubDeployer.NoFeedsNoTemplates | pkg/hub/deployer/deployer.go:599-657 | resolved feeds call for a Description iff there are any, so the deletion for an empty list is never reached |
| HubDeployer.Hub.SyncOneDescription | pkg/hub/deployer/deployer.go:644-711 | renders, then creates or updates, and a prune starts before the update; for an empty list of feeds it deletes |
| HubDeployer.Hub.OnDescription | pkg/controllers/apps/description/description.go:327-376 | finalizer, then the deployer of the Description |
| HubDeployer.Hub.ProcessHelm | pkg/hub/deployer/helm/helm.go:170-242 | populates HelmReleases, or deletes them and waits |
| HubDeployer.Hub.SyncKnownCharts | pkg/hub/deployer/helm/helm.go:261-312 | syncs one release per chart up to the first chart that does not exist |
| HubDeployer.Hub.SyncAllReleases | pkg/hub/deployer/helm/helm.go:244-323 | the whole of populateHelmRelease, key by key |
| HubDeployer.Hub.SyncOneRelease | pkg/hub/deployer/helm/helm.go:325-378 | keeps an empty release name, creates or updates on a different spec |
| HubDeployer.Hub.OnRelease | pkg/hub/deployer/helm/helm.go:397-435 | uninstalls a deleting release, unless its cluster is lost, before the finalizer goes |
| HubDeployer.Hub.ProcessGeneric | pkg/hub/deployer/generic/generic.go:119-158 | applies, offloads, or releases a Description whose cluster is lost |
| HubDeployer.Hub.ApplyAll | pkg/utils/deployer.go:339-429 | applies every object that parses and reports any that failed |
| HubDeployer.Hub.OffloadAll | pkg/utils/deployer.go:431-484 | the finalizer goes only when every object parsed and was removed |
| HubDeployer.Hub.OnPrune | pkg/hub/deployer/generic/generic.go:192-251 | removes the current objects whose printed name is not desired; an unparsable object keeps the prune pending |
| HubDeployer.Hub.Perform | pkg/hub/deployer/deployer.go:229-486 | every step that the hub takes in a run is one of these methods |
| ObjectStore.ResourceNamesEqual | pkg/hub/deployer/generic/generic.go:204-206 | two objects, one without slashes, print alike iff kind, namespace and name agree; the group does not show |
| NoOrphans.NoOrphansInAnyRun | pkg/hub/deployer/deployer.go:229-486 | all along a run each labelled Base, Description and HelmRelease has its owner in the store with the hub's finalizer, iff no resync of the run writes for a Base without that finalizer |
| NoOrphans.NoOrphansWhileUnheld | pkg/hub/deployer/deployer.go:229-486 | in particular in every run in which no other controller puts a finalizer on a Base |
| NoOrphans.HandleSubscriptionKeeps | pkg/hub/deployer/deployer.go:229-361 | the Subscription handler keeps the store free of orphans |
| NoOrphans.HandleBaseKeeps | pkg/hub/deployer/deployer.go:435-711 | so does the Base handler, whatever finalizers the Base has |
| NoOrphans.ResyncKeeps | pkg/hub/deployer/deployer.go:835-869 | so does every resync but those of the condition, of a deleting Base too |
| NoOrphans.HandleHelmKeeps | pkg/hub/deployer/helm/helm.go:170-323 | so does the helm handler, through collisions and missing charts |
| NoOrphans.HandleReleaseKeeps | pkg/hub/deployer/helm/helm.go:397-435 | so does the HelmRelease handler |
| NoOrphans.ResyncOrphansIff | pkg/hub/deployer/deployer.go:835-858 | a resync keeps the store free of orphans iff the Base has the finalizer or nothing is written |
| NoOrphans.HeldBaseOrphans | pkg/hub/deployer/deployer.go:435-473 | a run in which another controller's finalizer on a Base leads to an orphan |
| NoLeaks.NoLeaksInAnyRun | pkg/utils/deployer.go:339-484 | all along a run what the hub applied in a child and is still there is in Raw of a Description with the finalizer, in a started prune, or abandoned, iff no rendering of the run loses an object; when an object is abandoned is Effects.AbandonedInRunIff |
| NoLeaks.NextLeaksIff | pkg/hub/deployer/deployer.go:435-711 | the same for one step: only rendering a Base can leak, and exactly when it drops a tracked object that a desired one of another group masks and nothing else tracks |
| NoLeaks.DroppedIsPrunedIff | pkg/hub/deployer/deployer.go:659-699 | what an update drops from Raw is in the prune that was started for it iff no desired object of another group prints like it |
| GroupSwitch.GroupSwitchLeaks | pkg/hub/deployer/generic/generic.go:192-251 | a run, for every group, after which the prune is done and a core Service is in the child with nothing to track it |
| NoLeaks.PruneRemoves | pkg/hub/deployer/generic/generic.go:192-251 | a prune is over only when everything it had to remove is gone |
| NoLeaks.OffloadIsTracked | pkg/utils/deployer.go:431-484 | a Description goes only with everything in its Raw |
| NoLeaks.ApplyIsTracked | pkg/utils/deployer.go:339-429 | what is applied is in the Raw of a Description with the finalizer, and no longer abandoned |
| Effects.ChildrenAfterIff | pkg/hub/deployer/generic/generic.go:119-158 | for every step: an object is in a child afterwards iff a live generic Description of a cluster that the hub applies to carried it and it was applied, or it was there and was not removed by its deleting Description of a cluster that is not lost, by a prune that found it obsolete, or by others |
| Effects.AbandonedAfterIff | pkg/hub/deployer/generic/generic.go:137-146 | for every step: an object counts as abandoned iff the deleting Description that carries it was released with its cluster lost, or it did before and was not applied |
| Effects.AbandonedWhenLost | pkg/utils/deployer.go:638-663 | an object is only ever abandoned by handling its deleting Description while the first ManagedCluster of the ID is unknown, or there is none |
| Effects.PushedIff | pkg/utils/deployer.go:61-87 | the hub applies to a cluster iff the first ManagedCluster of the ID in the namespace is not in Pull mode and has an app pusher |
| Effects.LostIff | pkg/utils/deployer.go:638-663 | a cluster is lost iff there is none of the ID, or the first is unknown |
| Effects.PruneTakes | pkg/hub/deployer/generic/generic.go:225-251 | an attempt of a prune takes exactly the current objects that no desired one is by kind, namespace and name and whose deletion succeeds; every desired object and other namespace stays |
| Effects.PruneEndsIff | pkg/hub/deployer/generic/generic.go:192-251 | it adds nothing, and is over iff everything parsed and everything obsolete was deleted |
| Effects.ChildrenInRunIff | pkg/utils/deployer.go:339-484 | for every run: what is in a child is what some step applied and no step since took away |
| Effects.ChildrenHaveApi | pkg/utils/deployer.go:492-560 | for every run: what is in a child has an API group and version that parse, and no slash in kind, namespace or name, so that its printed name tells these |
| Effects.AbandonedInRunIff | pkg/hub/deployer/generic/generic.go:137-146 | for every run: what counts as abandoned is what some step released with its cluster lost and no step since applied |
| Effects.NothingAbandoned | pkg/hub/deployer/generic/generic.go:137-146 | in a run in which no cluster is unknown nothing is abandoned |
| Effects.TrackedWhileKnown | pkg/utils/deployer.go:339-484 | so then, if no rendering of the run loses an object, all that is in a child is in Raw of a Description with the finalizer or in a started prune |
| Lifecycle.SubscriptionEndsIff | pkg/hub/deployer/deployer.go:231-279 | for every step: a Subscription loses the hub's finalizer iff it is deleting and handled, no Base is left of it, and the calls succeed |
| Lifecycle.BaseEndsIff | pkg/hub/deployer/deployer.go:437-473 | the same for a Base and its Descriptions |
| Lifecycle.BaseDeletedIff | pkg/hub/deployer/deployer.go:252-361 | for every step: a live Base is deleted iff a user does, or its Subscription is handled that is deleting or has no such binding, and the calls succeed |
| Lifecycle.BaseMadeIff | pkg/hub/deployer/deployer.go:281-408 | for every step: a Base comes iff a user makes it, or a live Subscription is handled with a binding to its existing namespace and the call succeeds; and what it looks like |
| Lifecycle.WantsBaseIff | pkg/hub/deployer/deployer.go:289-318 | which bindings call for which Bases |
| Lifecycle.OwnersWaitToTheEnd | pkg/hub/deployer/deployer.go:231-279 | a deleting Subscription or Base is handled without error iff it gives up its finalizer |
| Descendants.DescriptionEndsIff | pkg/hub/deployer/generic/generic.go:119-158 | for every step: a Description loses the hub's finalizer iff it is deleting and handled, and for helm no HelmRelease is left of it, else all its objects were removed or its cluster is lost |
| Descendants.DescriptionDeletedIff | pkg/hub/deployer/deployer.go:437-642 | for every step: a live Description is deleted iff a user does, or its Base is offloaded, or rendered from feeds that all resolve and do not call for it |
| Descendants.DescriptionMadeIff | pkg/hub/deployer/deployer.go:599-711 | for every step: a Description comes iff a Base is rendered whose feeds resolve and call for it, and it is rendered and created; and what it looks like |
| Descendants.PruneStartedIff | pkg/hub/deployer/deployer.go:659-699 | for every step: a prune is started iff a Base is rendered that calls for a live Description whose spec differs, and it is from that spec to the rendered one |
| Descendants.DeletingGenericLeaves | pkg/utils/deployer.go:431-484 | a deleting generic Description of a cluster that is applied to and known leaves, and so does everything in its Raw, when the calls succeed and the objects have an API |
| Descendants.ReleaseEndsIff | pkg/hub/deployer/helm/helm.go:397-435 | for every step: a HelmRelease loses the hub's finalizer iff it is deleting and handled, and was uninstalled or its cluster is lost |
| Descendants.ReleaseDeletedIff | pkg/hub/deployer/helm/helm.go:198-323 | for every step: a live HelmRelease is deleted iff a user does, or its helm Description is handled that is deleting or whose charts all exist without one of its name |
| Descendants.ReleaseMadeIff | pkg/hub/deployer/helm/helm.go:244-378 | for every step: a HelmRelease comes iff a live helm Description is handled with a chart of its name before the first that is missing; and whose it is |
| Descendants.DescriptionWaitsToTheEnd | pkg/hub/deployer/helm/helm.go:170-242 | a deleting Description is handled without error iff it gives up its finalizer, or is left to the agent |
| Descendants.ReleaseWaitsToTheEnd | pkg/hub/deployer/helm/helm.go:397-435 | the same for a HelmRelease |
| Descendants.AppliedToTheEnd | pkg/utils/deployer.go:339-429 | a live generic Description is handled without error iff all its objects parse and were applied, or it is left to the agent |
| Descendants.HubIsSteady | pkg/hub/deployer/deployer.go:363-408 | no step of the hub revives an object, makes another of it, or takes a finalizer that is not its own |
| Rounds.FourRoundsSuffice | pkg/hub/deployer/deployer.go:231-271 | four top-down rounds remove a deleting Subscription and its Bases, and every Description and HelmRelease then left belongs to a Base of another owner, whatever the size, the order and the other hub steps in between, when the calls of the rounds succeed, clusters are pushed to and objects parse |
| Tight.ThreeRoundsDoNotSuffice | pkg/hub/deployer/deployer.go:231-271 | three rounds do not: a tree with one HelmRelease that still has its Subscription |
| Rounds.StageStays | pkg/hub/deployer/deployer.go:435-473 | what a round has reached is not lost by any further quiet step of the hub, which are all but resyncs, failed calls included |
| Rounds.FirstRound | pkg/hub/deployer/helm/helm.go:198-235 | one round leaves only deleting Bases and helm Descriptions without HelmReleases |
| Rounds.DescriptionHandled | pkg/hub/deployer/generic/generic.go:137-153 | a deleting Description goes, unless it is helm's and still has HelmReleases, which are then deleting |
| Rounds.ReleaseHandled | pkg/utils/deployer.go:131-142 | a deleting HelmRelease goes once uninstalled |
| Teardown.HandleSubscriptionWanes | pkg/hub/deployer/deployer.go:363-408 | no Base comes under a deleting Subscription |
| Teardown.HandleBaseWanesDescs | pkg/hub/deployer/deployer.go:435-473 | no Description comes under a deleting Base from any Base handler |
| Teardown.HandleDescriptionWanesReleases | pkg/hub/deployer/helm/helm.go:198-235 | no HelmRelease comes under a deleting Description |
| Convergence.BasesConvergeIff | pkg/hub/deployer/deployer.go:281-408 | a pass without error yields exactly one live Base per existing bound namespace, each with the feeds, iff no Base of the name with the same feeds has another origin |
| Convergence.BaseAfterPass | pkg/hub/deployer/deployer.go:281-433 | each Base after a pass without error: made, left alone when it lists the same feeds, or rewritten with origin, feeds and the cluster ID of its namespace; unwanted ones of the Subscription are deleted, and no other is touched |
| Convergence.BaseAllOrNothing | pkg/hub/deployer/deployer.go:281-433 | whatever calls fail, each Base is as before or as a pass without error leaves it |
| Convergence.SecondGetsNoBase | pkg/hub/deployer/deployer.go:363-408 | a run that reaches this: the second of two Subscriptions of one name and spec is handled without error and gets no Base |
| Convergence.BasesDoneIff | pkg/hub/deployer/deployer.go:281-433 | with successful calls there is no error iff the bindings parse and no wanted Base is deleting |
| Convergence.BasesSettle | pkg/hub/deployer/deployer.go:281-433 | a second pass changes no Base |
| Convergence.GatherAllOrNothing | pkg/hub/deployer/deployer.go:496-556 | all feeds resolve, in order, or none is used |
| Convergence.FirstProblemDecides | pkg/hub/deployer/deployer.go:501-556 | the first feed that does not resolve decides between an error and a silent return |
| Convergence.NoFeedsNoChange | pkg/hub/deployer/deployer.go:507-556 | a missing feed or an unverified or missing chart leaves all Descriptions and prunes untouched |
| Convergence.DescriptionsRendered | pkg/hub/deployer/deployer.go:596-632 | otherwise Charts and Raw are the feeds in order with overrides applied pointwise |
| Convergence.DescriptionAfterPass | pkg/hub/deployer/deployer.go:488-711 | each Description after a pass without error: the helm one for the charts and the generic one for the manifests made, left alone when rendered the same, or rewritten with origin and cluster; other ones of the Base are deleted, and no other is touched |
| Convergence.DescriptionsDoneIff | pkg/hub/deployer/deployer.go:488-642 | with successful calls there is no error iff the feeds end at a chart that was not found, or all resolve and what they call for is rendered and not deleting |
| Convergence.LocalizationIsStored | pkg/hub/deployer/deployer.go:644-652 | from policy to store: what a Localization sets is in the Raw of the stored Description after a pass without error |
| Convergence.WantedNeverDeleted | pkg/hub/deployer/deployer.go:596-640 | a Description that should exist is not deleted even when its sync fails |
| Convergence.DescriptionsSettle | pkg/hub/deployer/deployer.go:488-711 | a second pass changes no Description and starts no prune |
| Convergence.ReleasesFollowCharts | pkg/hub/deployer/helm/helm.go:244-323 | without error each release follows the last chart of its name, and the others are deleting or gone |
| Convergence.ReleaseAfterPass | pkg/hub/deployer/helm/helm.go:244-378 | each HelmRelease after a pass without error: made with the chart's name, left alone, or rewritten with origin and cluster, an empty name of an older hub kept; others of the Description are deleted, and no other is touched |
| Descendants.ReleasesDoneIff | pkg/hub/deployer/helm/helm.go:244-378 | with successful calls, charts without collisions are synced without error iff they all exist, no release of theirs is deleting, and one that is up to date has a listed cluster |
| Convergence.LastChartWins | pkg/hub/deployer/helm/helm.go:261-312 | with colliding names the last chart determines the release |
| Convergence.OwnReleaseIff | pkg/hub/deployer/helm/helm.go:261-312 | each chart is the last of its release iff no two charts are equal or split one another |
| Convergence.MissingChartDeletesNothing | pkg/hub/deployer/helm/helm.go:261-265 | a chart that does not exist stops the pass before anything is deleted |
| Protection.FindAllMatchingSubscriptions | pkg/hub/deployer/utils.go:36-80 | exactly the live Subscriptions whose UID labels the feed and that list it by kind, namespace and name |
| Protection.FeedKeeper.OnDeleted | pkg/hub/deployer/deployer.go:729-748 | blocked while protected and referred to, else removed from the Subscriptions and released |
| Protection.FeedKeeper.UnlistAll | pkg/hub/deployer/utils.go:82-106 | the feed is removed from each referring Subscription as far as the patches go |
| Protection.ReleasedIff | pkg/hub/deployer/deployer.go:729-748 | exactly when a deleting feed is released, and what becomes of its finalizers |
| Protection.SubscriptionAfterDeletion | pkg/hub/deployer/utils.go:82-106 | what that does to each Subscription: nothing while blocked, without reference, patch or match; one matching entry is cut out |
| Protection.BlockedIff | pkg/hub/deployer/utils.go:36-80 | a protected feed is blocked iff a live Subscription whose UID labels it lists its kind, namespace and name |
| Protection.ProtectionHolds | pkg/hub/deployer/deployer.go:1000-1054 | a protected deleting feed loses its finalizers only in a state without a referring Subscription |
| Protection.GuardedWhileReferred | pkg/hub/deployer/deployer.go:1000-1054 | in every run, edits of its labels included, a protected deleting feed stays while at each step some live Subscription refers to it |
| Protection.ReleasedIffUnreferred | pkg/hub/deployer/deployer.go:729-748 | a live feed that is handled, deleted and handled again is released iff no Subscription refers to it by the labels that pruning left |
| Protection.SharedSubscriptionReleases | pkg/controllers/apps/manifest/manifest.go:356-381 | a run, for any UIDs, in which a protected feed is released although a live Subscription and one of its Bases list it |
| Protection.ReleasedIsUnlistedIff | pkg/hub/deployer/utils.go:82-106 | a feed that is released has left a Subscription that referred to it iff that listed it under at most one entry |
| Approver.CRRApprover.HandleClusterRegistrationRequests | pkg/hub/approver/approver.go:203-284 | the validation, the skip of processed requests and the admission, with every call able to fail |
| Approver.CRRApprover.CreateNamespaceIfNeeded | pkg/hub/approver/approver.go:286-321 | finds the dedicated namespace by its labels or makes one |
| Approver.CRRApprover.CreateManagedClusterIfNeeded | pkg/hub/approver/approver.go:323-370 | the same for the ManagedCluster, with the user's labels added last |
| Approver.CRRApprover.CreateServiceAccountIfNeeded | pkg/hub/approver/approver.go:372-408 | the same for the service account |
| Approver.CRRApprover.UpdateCRRStatus | pkg/controllers/clusters/clusterregistrationrequest/clusterregistrationrequest_controller.go:256-290 | a status that is not approved is blanked and needs a message |
| Approver.MadeIsFoundIff | pkg/hub/approver/approver.go:327-361 | a new ManagedCluster is found again iff the user's labels leave its marks alone |
| Approver.RetryDuplicatesIff | pkg/hub/approver/approver.go:203-370 | a run with a retried request ends with two ManagedClusters for one ID iff they do not |
| Approver.DoublesIff | pkg/hub/approver/approver.go:323-370 | a step makes a second ManagedCluster of an ID iff it makes one at all and there is one whose labels do not carry its ID |
| Approver.OnePerIdInAnyRun | pkg/hub/approver/approver.go:203-370 | all along a run each ID has at most one ManagedCluster iff no step is like that |
| Approver.LentClusterIff | pkg/hub/approver/approver.go:323-370 | a run in which a request is approved with another ID's ManagedCluster, and gets none, iff the labels of that one name its ID |
| Approver.ApprovedCredentials | pkg/hub/approver/approver.go:244-281 | a request is approved with the credentials of a service account of its ID |
| Approver.ForeignIsDenied | pkg/hub/approver/approver.go:208-223 | a request whose ID is not that of its name is denied with a message and without secrets, whatever its verdict was, if the update succeeds; nothing else changes |
| Approver.ForeignEndsDenied | pkg/hub/approver/approver.go:208-228 | for every run: once such a request was handled it is Denied for as long as it exists |
| Approver.ApprovedIff | pkg/hub/approver/approver.go:230-284 | a pending request of its own ID is approved iff namespace, ManagedCluster and service account are found or made and the other calls succeed, and with exactly their names and credentials; else the handler fails and the request stays |
| Approver.HandleTouchesOne | pkg/hub/approver/approver.go:203-284 | handling touches no other request, nothing but the status, and no existing object, and leaves a decided request alone |
| Approver.RegistrationInvariant | pkg/hub/approver/approver.go:203-408 | in every run each ID has at most one namespace, ManagedCluster and service account, in that namespace; an approved request names the first two, and no other request holds secrets |
| Approver.VerdictMoves | pkg/hub/approver/approver.go:212-228 | Approved only moves to Denied, on a foreign ID, and Denied does not move |
| Approver.DeniedIsAbsorbing | pkg/hub/approver/approver.go:225-228 | Denied stays over all runs |
| Shadow.NormalizeAPIGroupResources | pkg/hub/apiserver/shadow/utils.go:28-70 | the loops, the stable sort and the filter by name |
| Shadow.MapOrderDoesNotMatterIff | pkg/hub/apiserver/shadow/utils.go:30-70 | the output is the same for all orders in which the map is ranged over iff no two versions of equal rank, the preferred one aside, each serve a name that nothing above them serves |
| Shadow.TiesFollowRange | pkg/hub/apiserver/shadow/utils.go:39-57 | the sort settles versions of equal rank by the order in which they were ranged over |
| Shadow.OneEntryPerName | pkg/hub/apiserver/shadow/utils.go:39-70 | for every group and range order: one entry per served name, at the preferred version if it serves the name, else at a highest |
| Shadow.OutputInOrder | pkg/hub/apiserver/shadow/utils.go:39-57 | the output lists the preferred version first, then falling rank, and each version by name |
| Shadow.EqualRanksFollowMapOrder | pkg/hub/apiserver/shadow/utils.go:53-57 | a group with versions v1 and v01 whose output depends on map order |
| Shadow.Storage.CanBeAdded | pkg/hub/apiserver/shadow/priority.go:43-63 | accepts and records unless a greater priority is recorded; a failed lookup is accepted without a record |
| Shadow.Storage.RegisterAll | pkg/hub/apiserver/shadow/apiserver.go:191-215 | over a sequence of registrations the last accepted one of a name is installed |
| Shadow.StorageKept | pkg/hub/apiserver/shadow/priority.go:43-63 | that is the last registrant of maximal priority, unless a failed lookup came after it |
| Shadow.FailedLookupTakesOver | pkg/hub/apiserver/shadow/priority.go:47-52 | a failed lookup takes the storage over |

## Left out

- Informers, workqueues, rate limiting, leader election and stale caches. Listers are fresh; in particular the syncHandlers of Subscription, Base, Description and HelmRelease append the finalizer to the cached object before the update that may fail, which a fresh lister undoes.
- Errors of listers other than NotFound, which end a handler early.
- A restart of the hub, which loses started prunes: they live in goroutines.
- Garbage collection through owner references, manual edits of the hub's finalizers and labels, and direct edits of Description specs.
- Helm actions, chart lookup, registries, kubeconfigs and tokens; they are calls that succeed or fail.
- Parsing of JSON and YAML, helm's coalescing of tables and the JSON Patch library, which are parameters of `Catalog.Libraries`; only sequences of remove operations are spelled out.
- The comparison of live and desired child objects and the retries on immutable fields; applying an object succeeds or fails. Child objects are identified by group, kind, namespace and name, and child clusters by their dedicated namespace.
- The agent-side controllers and the Recovery feature, which write child objects as well.
- Scheduler plugins and their framework, which are outcome functions with score lists aligned to the clusters.
- The work queue of the parallel-for: the machine assumes that it runs each index at most once, and all of them when nothing cancels.
- Rounds.FourRoundsSuffice: a feed that changes during the teardown may render a deleting Base again, so the rounds are free of resyncs, and no other controller holds the objects. Another live Subscription of the name may take a Base over before it is marked, so what is left may have been of the tree.
- The order of API versions, which is a rank of version strings.
- Approver.CRRApprover.HandleClusterRegistrationRequests: the roles and role bindings are calls that succeed or fail, because no claim is about them, and the secret of a service account is a function of its key.
- Approver.RegistrationInvariant: in its runs nobody deletes or edits namespaces, ManagedClusters and service accounts once they exist, nor claims to be the agent in labels; users may withdraw and edit requests.
- Protection.ProtectionHolds: labels and deletions of feeds are steps of the environment here and calls in the pipeline, so the two models share no store.
