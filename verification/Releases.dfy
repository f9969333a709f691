/** The names of HelmReleases and the values they read back from their Description (pkg/utils/deployer.go). */
module Releases {
  import opened Collections
  import opened Json
  import opened Catalog
  import opened Localizer
  import Feeds

  function ReleaseName(desc: string, chart: Key): string {
    desc + "-" + chart.ns + "-" + chart.name
  }

  ghost predicate DistinctReleases(desc: string, charts: seq<Key>) {
    forall i, j :: 0 <= i < j < |charts| ==> ReleaseName(desc, charts[i]) != ReleaseName(desc, charts[j])
  }

  /** b's namespace is a's, a dash and some s, and a's name is s, a dash and b's name. */
  predicate Splits(a: Key, b: Key) {
    Feeds.Recut('-', a.ns, a.name, b.ns, b.name)
  }

  /** Exactly when two charts of one Description share a HelmRelease. */
  lemma ReleaseNamesEqual(desc: string, a: Key, b: Key)
    ensures ReleaseName(desc, a) == ReleaseName(desc, b) <==> a == b || Splits(a, b) || Splits(b, a)
  {
    var x, y := a.ns + ['-'] + a.name, b.ns + ['-'] + b.name;
    assert ReleaseName(desc, a) == desc + ['-'] + x && ReleaseName(desc, b) == desc + ['-'] + y;
    assert (desc + ['-'] + x)[|desc| + 1..] == x && (desc + ['-'] + y)[|desc| + 1..] == y;
    Feeds.JoinEqual('-', a.ns, a.name, b.ns, b.name);
  }

  /** Namespaces without dashes split no chart. */
  lemma DashlessDoNotSplit(a: Key, b: Key)
    requires '-' !in b.ns
    ensures !Splits(a, b)
  {
    Feeds.RecutSeparates('-', a.ns, a.name, b.ns, b.name);
  }

  /** No chart is listed twice, and none splits another. */
  predicate CollisionFree(charts: seq<Key>) {
    forall i, j :: 0 <= i < j < |charts| ==>
      charts[i] != charts[j] && !Splits(charts[i], charts[j]) && !Splits(charts[j], charts[i])
  }

  /** Each chart gets a HelmRelease of its own exactly when the charts are free of collisions. */
  lemma DistinctReleasesIff(desc: string, charts: seq<Key>)
    ensures DistinctReleases(desc, charts) <==> CollisionFree(charts)
  {
    forall i, j | 0 <= i < j < |charts|
      ensures ReleaseName(desc, charts[i]) == ReleaseName(desc, charts[j])
         <==> charts[i] == charts[j] || Splits(charts[i], charts[j]) || Splits(charts[j], charts[i])
    {
      ReleaseNamesEqual(desc, charts[i], charts[j]);
    }
  }

  /** Charts web of a-b and b-web of a collide. */
  lemma ReleaseNamesCollide(desc: string)
    ensures !CollisionFree([Key("a-b", "web"), Key("a", "b-web")])
    ensures ReleaseName(desc, Key("a-b", "web")) == ReleaseName(desc, Key("a", "b-web"))
  {
    var x, y := Key("a-b", "web"), Key("a", "b-web");
    assert Splits(y, x);
    assert [x, y][1] == y && [x, y][0] == x;
    ReleaseNamesEqual(desc, x, y);
  }

  /** What GetOverrides returns; OutOfRange is the index panic that its guard lets through. */
  datatype Values = NoValues | LengthError | OutOfRange | Malformed | Values(table: map<string, Json>)

  function Decode(raw: Raw): Values {
    match raw
    case Blank => NoValues
    case Bad => Malformed
    case Doc(d) => if Table(d).Some? then Values(Table(d).value) else Malformed
  }

  /** Position i is the first chart whose generated name is the release's. */
  predicate FirstOf(desc: string, charts: seq<Key>, release: string, i: nat) {
    && i < |charts| && ReleaseName(desc, charts[i]) == release
    && forall k :: 0 <= k < i ==> ReleaseName(desc, charts[k]) != release
  }

  /** GetOverrides for a live HelmRelease whose controlling Description, if found, is `desc`. */
  method ReadValues(deleting: bool, desc: Option<(string, DescSpec)>, release: string) returns (r: Values)
    ensures deleting || desc.None? ==> r == NoValues
    ensures !deleting && desc.Some? ==>
              var (name, d) := desc.value;
              && ((forall i :: 0 <= i < |d.charts| ==> ReleaseName(name, d.charts[i]) != release) ==> r == NoValues)
              && (forall i: nat :: FirstOf(name, d.charts, release, i) ==>
                    r == if i < |d.raw| then Decode(d.raw[i]) else if i == |d.raw| then OutOfRange else LengthError)
  {
    if deleting || desc.None? {
      return NoValues;
    }
    var (name, d) := desc.value;
    var index := 0;
    while index < |d.charts| && ReleaseName(name, d.charts[index]) != release
      invariant index <= |d.charts|
      invariant forall k :: 0 <= k < index ==> ReleaseName(name, d.charts[k]) != release
    {
      index := index + 1;
    }
    if index == |d.charts| {
      return NoValues;
    }
    if |d.raw| < index {
      return LengthError;
    }
    if |d.raw| == index {
      return OutOfRange;
    }
    return Decode(d.raw[index]);
  }

  /** The guard suffices for a Description that came out of rendering, which has one entry per chart. */
  lemma RenderedInRange(cat: Catalog, ns: string, template: DescSpec, d: DescSpec, desc: string, release: string,
                        i: nat)
    requires template.deployer.Helm? && Render(cat, ns, template) == Some(d)
    requires FirstOf(desc, d.charts, release, i)
    ensures |d.raw| == |d.charts| && i < |d.raw|
    ensures RenderChart(cat, ns, d.charts[i]) == Some(d.raw[i])
  {
  }

  /** Every chart is the first of its release's name exactly when the charts are free of collisions. */
  lemma OwnEntryIff(desc: string, charts: seq<Key>)
    ensures (forall i: nat :: i < |charts| ==> FirstOf(desc, charts, ReleaseName(desc, charts[i]), i))
       <==> CollisionFree(charts)
  {
    DistinctReleasesIff(desc, charts);
    if !DistinctReleases(desc, charts) {
      var i, j :| 0 <= i < j < |charts| && ReleaseName(desc, charts[i]) == ReleaseName(desc, charts[j]);
      assert !FirstOf(desc, charts, ReleaseName(desc, charts[j]), j);
    }
  }

  /** Then the release of each chart reads back that chart's overrides and no other's. */
  lemma ReleaseGetsOwnChart(cat: Catalog, ns: string, template: DescSpec, d: DescSpec, desc: string, i: nat)
    requires template.deployer.Helm? && Render(cat, ns, template) == Some(d)
    requires i < |d.charts| && CollisionFree(d.charts)
    ensures var release := ReleaseName(desc, d.charts[i]);
            forall k: nat :: FirstOf(desc, d.charts, release, k) <==> k == i
    ensures |d.raw| == |d.charts| && RenderChart(cat, ns, d.charts[i]) == Some(d.raw[i])
  {
    OwnEntryIff(desc, d.charts);
    var release := ReleaseName(desc, d.charts[i]);
    assert FirstOf(desc, d.charts, release, i);
    RenderedInRange(cat, ns, template, d, desc, release, i);
  }
}
