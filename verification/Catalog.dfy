/** The objects that handlers read but do not write: charts, manifests, override policies, clusters. */
module Catalog {
  import opened Collections
  import opened Json
  import opened Feeds

  /** The hub's finalizer on the objects that it handles. */
  const APP_FINALIZER: string := "apps.clusternet.io/finalizer"

  datatype Key = Key(ns: string, name: string)

  datatype ChartPhase = Verifying | ChartFound | ChartNotFound

  datatype Chart = Chart(uid: string, phase: ChartPhase, options: string)

  datatype Manifest = Manifest(uid: string, labels: Labels, raw: Raw)

  datatype OverrideType = HelmType | JSONPatchType | MergePatchType | OtherType

  datatype Override = Override(kind: OverrideType, value: Raw)

  /** A Globalization or Localization; `created` is its creation time in seconds. */
  datatype Policy = Policy(ns: string, labels: Labels, deleting: bool, priority: int, created: nat,
                           overrides: seq<Override>)

  /** Helm's CoalesceTables and the application of a decoded JSON Patch, both foreign code. */
  datatype Libraries = Libraries(
    coalesce: (map<string, Json>, map<string, Json>) -> Json,
    jsonPatch: (Json, seq<Json>) -> Option<Json>)

  datatype SyncMode = Push | Pull | Dual

  datatype ManagedCluster = ManagedCluster(id: string, mode: SyncMode, appPusher: bool, unknown: bool)

  /**
   * A snapshot, as a handler that sees fresh listers reads it. `namespaces` maps to the cluster ID
   * label, None when there are no labels.
   */
  datatype Catalog = Snapshot(
    charts: map<Key, Chart>,
    manifests: seq<Manifest>,
    globs: seq<Policy>,
    locs: seq<Policy>,
    namespaces: map<string, Option<string>>,
    clusters: map<string, seq<ManagedCluster>>,
    libs: Libraries)

  function Selects(selector: Labels): Manifest -> bool {
    (m: Manifest) => Matches(selector, m.labels)
  }

  /** ListManifestsBySelector; None when the feed's API version does not parse. */
  function ListManifests(cat: Catalog, feed: Feed): Option<seq<Manifest>> {
    var sel := SelectorFromFeed(feed);
    if sel.None? then None else Some(Selected(cat.manifests, Selects(sel.value)))
  }

  /** The ManagedClusters of a namespace with the given ID label; an empty ID selects all. */
  function MatchingClusters(cat: Catalog, ns: string, id: string): seq<ManagedCluster> {
    var all := if ns in cat.clusters then cat.clusters[ns] else [];
    if id == "" then all else Selected(all, (c: ManagedCluster) => c.id == id)
  }

  datatype Deployable = ByHub | ByAgent | Undecided

  function DeployableByHub(cat: Catalog, ns: string, id: string): Deployable {
    if id == "" || ns == "" || MatchingClusters(cat, ns, id) == [] then Undecided
    else
      var c := MatchingClusters(cat, ns, id)[0];
      if c.mode.Pull? || !c.appPusher then ByAgent else ByHub
  }

  predicate IsClusterLost(cat: Catalog, ns: string, id: string) {
    var cs := MatchingClusters(cat, ns, id);
    cs == [] || cs[0].unknown
  }

  /** Spec of a Description: charts for helm, manifests in Raw for generic. */
  datatype Deployer = Helm | Generic | Other

  datatype DescSpec = DescSpec(deployer: Deployer, charts: seq<Key>, raw: seq<Raw>)

  // ---------------------------------------------------------------- what a document says of itself

  function StringAt(j: Json, field: string): string {
    if j.Obj? && field in j.fields && j.fields[field].Str? then j.fields[field].s else ""
  }

  function Metadata(j: Json): Json {
    if j.Obj? && "metadata" in j.fields then j.fields["metadata"] else Null
  }

  /**
   * Group, kind, namespace and name of an object, by which it is applied and deleted. Without a group,
   * when the API version does not parse, there is no API to do so.
   */
  datatype ObjId = ObjId(group: Option<string>, kind: string, ns: string, name: string)

  function GroupOf(apiVersion: string): Option<string> {
    var gv := ParseGroupVersion(apiVersion);
    if gv.None? then None else Some(gv.value.0)
  }

  function IdOf(doc: Json): ObjId {
    ObjId(GroupOf(StringAt(doc, "apiVersion")), StringAt(doc, "kind"), StringAt(Metadata(doc), "namespace"),
          StringAt(Metadata(doc), "name"))
  }

  /** Unmarshalling needs an object with a kind. */
  function Parse(raw: Raw): Option<ObjId> {
    if raw.Doc? && raw.doc.Obj? && StringAt(raw.doc, "kind") != "" then Some(IdOf(raw.doc)) else None
  }

  function FeedOf(doc: Json): Feed {
    Feed(StringAt(doc, "kind"), StringAt(doc, "apiVersion"), StringAt(Metadata(doc), "namespace"),
         StringAt(Metadata(doc), "name"))
  }
}
