/** Cluster inventory reconstruction (`Helm::list`). */
module InventoryReader {
  import opened Results
  import opened Strings
  import opened Json
  import opened Bootstrap

  /** A parsed base URL: everything before the path is `origin`, which path
      edits leave alone; `query` is the query and fragment, which path edits keep
      and put back after the new path; a cannot-be-a-base URL (`mailto:`,
      `data:`) has no path segments to extend. */
  datatype Url = Url(origin: string, segments: seq<string>, query: string, cannotBeABase: bool)

  const ApiPrefix := "apis/extensions/v1beta1/namespaces"
  const Provenance := "Tiller"

  /** The segments appended to the base URL, as the source builds them. */
  function DeploymentsPath(namespace: string): seq<string> {
    Split(ApiPrefix, '/') + [namespace, "deployments"]
  }

  lemma ApiPrefixSegments()
    ensures Split(ApiPrefix, '/') == ["apis", "extensions", "v1beta1", "namespaces"]
  {
    var parts := ["apis", "extensions", "v1beta1", "namespaces"];
    JoinFourParts("apis", "extensions", "v1beta1", "namespaces", "/");
    assert ApiPrefix == "apis" + "/" + ("extensions" + "/" + ("v1beta1" + "/" + "namespaces"));
    assert Join(parts, ['/']) == ApiPrefix;
    SplitJoin(parts, '/');
  }

  lemma JoinFourParts(a: string, b: string, c: string, d: string, sep: string)
    ensures Join([a, b, c, d], sep) == a + sep + (b + sep + (c + sep + d))
  {
    assert [c, d][1..] == [d];
    assert Join([c, d], sep) == c + sep + d;
    assert [b, c, d][1..] == [c, d];
    assert Join([b, c, d], sep) == b + sep + Join([c, d], sep);
    assert [a, b, c, d][1..] == [b, c, d];
  }

  lemma DeploymentsPathSegments(namespace: string)
    ensures DeploymentsPath(namespace) == ["apis", "extensions", "v1beta1", "namespaces", namespace, "deployments"]
  {
    ApiPrefixSegments();
  }

  /** The deployments endpoint of `namespace` under `base`. */
  function Endpoint(base: Url, namespace: string): (r: Result<Url>)
    ensures base.cannotBeABase <==> r == Failure(UrlParse)
    ensures !base.cannotBeABase ==> r == Success(Url(base.origin,
              base.segments + ["apis", "extensions", "v1beta1", "namespaces", namespace, "deployments"], base.query, false))
  {
    if base.cannotBeABase then Failure(UrlParse)
    else
      DeploymentsPathSegments(namespace);
      Success(base.(segments := base.segments + DeploymentsPath(namespace)))
  }

  /** The last lookups of the chain, once the labels object is reached: string
      `release` and `chart` labels, the latter split at its last hyphen. */
  function ChartOfLabels(labels: seq<(string, Json)>): Option<Chart> {
    var release :- StrField(labels, "release");
    var chartLabel :- StrField(labels, "chart");
    var split := RSplitN2(chartLabel, '-');
    var version := split[0];
    if |split| < 2 then None
    else Some(Chart(release, split[|split| - 1], Some(version), None))
  }

  /** The lookups from the `metadata` object on: the namespace and heritage
      filters, then the labels. */
  function ChartOfMetadata(namespace: string, metadata: seq<(string, Json)>): Option<Chart> {
    if StrField(metadata, "namespace") != Some(namespace) then None else
    var labels :- ObjectField(metadata, "labels");
    if StrField(labels, "heritage") != Some(Provenance) then None else
    ChartOfLabels(labels)
  }

  /** The chart an inventory item stands for, if it is one this engine manages:
      the chain of lookups the source applies to each item, any failing step
      dropping the item. */
  function ChartOf(namespace: string, item: Json): Option<Chart> {
    var o :- AsObject(item);
    var metadata :- ObjectField(o, "metadata");
    ChartOfMetadata(namespace, metadata)
  }

  /** The items of a response: `items` when it is an array, otherwise none. */
  function ItemsOf(body: seq<(string, Json)>): seq<Json> {
    match Get(body, "items")
    case Some(v) => AsArray(v).UnwrapOr([])
    case None => []
  }

  /** `Iterator::filter_map`: the present results of `f`, in order. */
  function FilterMap<A, B>(f: A -> Option<B>, xs: seq<A>): seq<B> {
    if xs == [] then []
    else match f(xs[0])
      case Some(y) => [y] + FilterMap(f, xs[1..])
      case None => FilterMap(f, xs[1..])
  }

  /** The charts of the items, in order. */
  function Collect(namespace: string, items: seq<Json>): seq<Chart> {
    FilterMap(item => ChartOf(namespace, item), items)
  }

  /** The charts deployed in `namespace`, reconstructed from a response body. */
  function Inventory(namespace: string, body: seq<(string, Json)>): seq<Chart> {
    Collect(namespace, ItemsOf(body))
  }

  /** `Helm::list`. `parseUrl` is `Url::parse`; `kubeApi` is the authenticated
      GET of an endpoint, giving the response object or the transfer's error. */
  function List(
    h: Helm,
    parseUrl: string -> Option<Url>,
    kubeApi: Url -> Result<seq<(string, Json)>>): (r: Result<seq<Chart>>)
    ensures parseUrl(h.server).None? ==> r == Failure(UrlParse)
    ensures parseUrl(h.server).Some? && parseUrl(h.server).value.cannotBeABase ==> r == Failure(UrlParse)
    ensures parseUrl(h.server).Some? && !parseUrl(h.server).value.cannotBeABase ==>
              var base := parseUrl(h.server).value;
              var endpoint := Url(base.origin,
                base.segments + ["apis", "extensions", "v1beta1", "namespaces", h.namespace, "deployments"], base.query, false);
              r == match kubeApi(endpoint)
                   case Failure(e) => Failure(e)
                   case Success(body) => Success(Inventory(h.namespace, body))
  {
    match parseUrl(h.server)
    case None => Failure(UrlParse)
    case Some(base) =>
      var endpoint :- Endpoint(base, h.namespace);
      var body :- kubeApi(endpoint);
      Success(Inventory(h.namespace, body))
  }

  // ---------------------------------------------------------------- properties

  const MetadataNamespace := ["metadata", "namespace"]
  const Heritage := ["metadata", "labels", "heritage"]
  const ReleaseLabel := ["metadata", "labels", "release"]
  const ChartLabel := ["metadata", "labels", "chart"]

  ghost predicate IsStringAt(item: Json, keys: seq<string>) {
    At(item, keys).Some? && At(item, keys).value.String?
  }

  ghost function TextAt(item: Json, keys: seq<string>): string
    requires IsStringAt(item, keys)
  {
    At(item, keys).value.text
  }

  /** Membership: the item's `metadata.namespace` is the
      configured namespace and its `metadata.labels.heritage` is the provenance marker. */
  ghost predicate Managed(namespace: string, item: Json) {
    && At(item, MetadataNamespace) == Some(String(namespace))
    && At(item, Heritage) == Some(String(Provenance))
  }

  lemma AtInto(o: seq<(string, Json)>, key: string, m: seq<(string, Json)>, rest: seq<string>)
    requires ObjectField(o, key) == Some(m)
    ensures At(Object(o), [key] + rest) == At(Object(m), rest)
  {
    assert ([key] + rest)[1..] == rest;
  }

  lemma AtMissing(o: seq<(string, Json)>, key: string, rest: seq<string>)
    requires ObjectField(o, key).None? && rest != []
    ensures At(Object(o), [key] + rest) == None
  {
    assert ([key] + rest)[1..] == rest;
  }

  lemma AtStr(o: seq<(string, Json)>, key: string)
    ensures IsStringAt(Object(o), [key]) <==> StrField(o, key).Some?
    ensures StrField(o, key).Some? ==> TextAt(Object(o), [key]) == StrField(o, key).value
  {
    assert [key][1..] == [];
    match Get(o, key)
    case None =>
    case Some(c) => assert At(Object(o), [key]) == At(c, []) == Some(c);
  }

  /** `c` is the chart read from a `release` label and a `chart` label: the
      release verbatim, the chart label split at its last hyphen into a name and
      a hyphen-free version, and no overrides. */
  ghost predicate ReadFrom(c: Chart, release: string, chartLabel: string) {
    && c.release == release
    && c.version.Some?
    && c.name + "-" + c.version.value == chartLabel
    && '-' !in c.version.value
    && c.overrides.None?
  }

  lemma ChartOfLabelsSpec(labels: seq<(string, Json)>)
    ensures ChartOfLabels(labels).Some? <==>
              StrField(labels, "release").Some? && StrField(labels, "chart").Some? && '-' in StrField(labels, "chart").value
    ensures ChartOfLabels(labels).Some? ==>
              ReadFrom(ChartOfLabels(labels).value, StrField(labels, "release").value, StrField(labels, "chart").value)
  {
  }

  /** `ChartOfLabelsSpec`, with the lookups written as paths. */
  lemma ChartOfLabelsAt(l: seq<(string, Json)>)
    ensures ChartOfLabels(l).Some? <==>
              IsStringAt(Object(l), ["release"]) && IsStringAt(Object(l), ["chart"]) && '-' in TextAt(Object(l), ["chart"])
    ensures ChartOfLabels(l).Some? ==>
              ReadFrom(ChartOfLabels(l).value, TextAt(Object(l), ["release"]), TextAt(Object(l), ["chart"]))
  {
    AtStr(l, "release");
    AtStr(l, "chart");
    ChartOfLabelsSpec(l);
  }

  /** The metadata-level steps, with the lookups written as paths. */
  lemma ChartOfMetadataAt(namespace: string, m: seq<(string, Json)>)
    ensures ChartOfMetadata(namespace, m).Some? <==>
              && At(Object(m), ["namespace"]) == Some(String(namespace))
              && At(Object(m), ["labels", "heritage"]) == Some(String(Provenance))
              && IsStringAt(Object(m), ["labels", "release"])
              && IsStringAt(Object(m), ["labels", "chart"])
              && '-' in TextAt(Object(m), ["labels", "chart"])
    ensures ChartOfMetadata(namespace, m).Some? ==>
              ReadFrom(ChartOfMetadata(namespace, m).value,
                TextAt(Object(m), ["labels", "release"]), TextAt(Object(m), ["labels", "chart"]))
  {
    AtStr(m, "namespace");
    match ObjectField(m, "labels")
    case None =>
      AtMissing(m, "labels", ["heritage"]);
    case Some(l) =>
      AtInto(m, "labels", l, ["heritage"]);
      AtInto(m, "labels", l, ["release"]);
      AtInto(m, "labels", l, ["chart"]);
      AtStr(l, "heritage");
      ChartOfLabelsAt(l);
  }

  /** An item yields a chart exactly when it is managed here and carries string
      `release` and `chart` labels, the latter with a hyphen; the chart is then
      the release verbatim and the chart label split at its last hyphen. */
  lemma ChartOfSpec(namespace: string, item: Json)
    ensures ChartOf(namespace, item).Some? <==>
              && Managed(namespace, item)
              && IsStringAt(item, ReleaseLabel)
              && IsStringAt(item, ChartLabel)
              && '-' in TextAt(item, ChartLabel)
    ensures ChartOf(namespace, item).Some? ==>
              ReadFrom(ChartOf(namespace, item).value, TextAt(item, ReleaseLabel), TextAt(item, ChartLabel))
  {
    if item.Object? {
      var o := item.members;
      assert MetadataNamespace == ["metadata"] + ["namespace"];
      assert Heritage == ["metadata"] + ["labels", "heritage"];
      assert ReleaseLabel == ["metadata"] + ["labels", "release"];
      assert ChartLabel == ["metadata"] + ["labels", "chart"];
      match ObjectField(o, "metadata")
      case None =>
        AtMissing(o, "metadata", ["namespace"]);
      case Some(m) =>
        AtInto(o, "metadata", m, ["namespace"]);
        AtInto(o, "metadata", m, ["labels", "heritage"]);
        AtInto(o, "metadata", m, ["labels", "release"]);
        AtInto(o, "metadata", m, ["labels", "chart"]);
        ChartOfMetadataAt(namespace, m);
    }
  }

  /** The positions of the items `f` keeps. */
  ghost function Kept<A, B>(f: A -> Option<B>, xs: seq<A>): seq<nat> {
    if xs == [] then []
    else
      var rest := Kept(f, xs[1..]);
      var shifted := seq(|rest|, k requires 0 <= k < |rest| => rest[k] + 1);
      if f(xs[0]).Some? then [0] + shifted else shifted
  }

  lemma {:induction false} KeptContent<A, B>(f: A -> Option<B>, xs: seq<A>)
    ensures |Kept(f, xs)| == |FilterMap(f, xs)|
    ensures forall k :: 0 <= k < |Kept(f, xs)| ==>
              Kept(f, xs)[k] < |xs| && f(xs[Kept(f, xs)[k]]) == Some(FilterMap(f, xs)[k])
  {
    if xs != [] {
      KeptContent(f, xs[1..]);
      var idx, out := Kept(f, xs), FilterMap(f, xs);
      var rest, tail := Kept(f, xs[1..]), FilterMap(f, xs[1..]);
      var d := if f(xs[0]).Some? then 1 else 0;
      assert |idx| == |rest| + d && |out| == |tail| + d;
      forall k | d <= k < |idx| ensures idx[k] < |xs| && f(xs[idx[k]]) == Some(out[k]) {
        assert idx[k] == rest[k - d] + 1 && out[k] == tail[k - d];
        assert xs[idx[k]] == xs[1..][rest[k - d]];
      }
    }
  }

  lemma {:induction false} KeptIncreasing<A, B>(f: A -> Option<B>, xs: seq<A>)
    ensures forall k, l :: 0 <= k < l < |Kept(f, xs)| ==> Kept(f, xs)[k] < Kept(f, xs)[l]
  {
    if xs != [] {
      KeptIncreasing(f, xs[1..]);
    }
  }

  lemma {:induction false} KeptComplete<A, B>(f: A -> Option<B>, xs: seq<A>)
    ensures forall j :: 0 <= j < |xs| && f(xs[j]).Some? ==> j in Kept(f, xs)
  {
    if xs != [] {
      KeptComplete(f, xs[1..]);
      var rest := Kept(f, xs[1..]);
      forall j | 1 <= j < |xs| && f(xs[j]).Some?
        ensures j in Kept(f, xs)
      {
        assert xs[1..][j - 1] == xs[j];
        var k :| 0 <= k < |rest| && rest[k] == j - 1;
        assert Kept(f, xs)[k + if f(xs[0]).Some? then 1 else 0] == j;
      }
    }
  }

  /** `filter_map` keeps exactly the items with a result, in their order:
      `idx` picks those items out, increasing, and every item it skips has none. */
  lemma Origins<A, B>(f: A -> Option<B>, xs: seq<A>) returns (idx: seq<nat>)
    ensures |idx| == |FilterMap(f, xs)|
    ensures forall k :: 0 <= k < |idx| ==> idx[k] < |xs| && f(xs[idx[k]]) == Some(FilterMap(f, xs)[k])
    ensures forall k, l :: 0 <= k < l < |idx| ==> idx[k] < idx[l]
    ensures forall j :: 0 <= j < |xs| && f(xs[j]).Some? ==> j in idx
  {
    idx := Kept(f, xs);
    KeptContent(f, xs);
    KeptIncreasing(f, xs);
    KeptComplete(f, xs);
  }

  /** The inventory is the charts of the response's items, in item order: `idx`
      gives the increasing positions of the items listed, and every item that
      yields a chart is among them. */
  lemma InventoryOrigins(namespace: string, body: seq<(string, Json)>) returns (idx: seq<nat>)
    ensures |idx| == |Inventory(namespace, body)|
    ensures forall k :: 0 <= k < |idx| ==>
              idx[k] < |ItemsOf(body)| && ChartOf(namespace, ItemsOf(body)[idx[k]]) == Some(Inventory(namespace, body)[k])
    ensures forall k, l :: 0 <= k < l < |idx| ==> idx[k] < idx[l]
    ensures forall j :: 0 <= j < |ItemsOf(body)| && ChartOf(namespace, ItemsOf(body)[j]).Some? ==> j in idx
  {
    idx := Origins(item => ChartOf(namespace, item), ItemsOf(body));
  }

  /** Each listed chart comes from a managed item of the response. */
  lemma InventoryFromManagedItems(namespace: string, body: seq<(string, Json)>)
    ensures forall c :: c in Inventory(namespace, body) ==>
              exists item :: item in ItemsOf(body) && Managed(namespace, item) && ChartOf(namespace, item) == Some(c)
  {
    var items := ItemsOf(body);
    var f := item => ChartOf(namespace, item);
    var idx := Origins(f, items);
    forall c | c in Inventory(namespace, body)
      ensures exists item :: item in items && Managed(namespace, item) && ChartOf(namespace, item) == Some(c)
    {
      var k :| 0 <= k < |FilterMap(f, items)| && FilterMap(f, items)[k] == c;
      var item := items[idx[k]];
      assert f(item) == ChartOf(namespace, item);
      ChartOfSpec(namespace, item);
    }
  }

  /** Each listed chart pins a hyphen-free version and carries no overrides. */
  lemma InventoryPinsVersions(namespace: string, body: seq<(string, Json)>)
    ensures forall c :: c in Inventory(namespace, body) ==>
              c.version.Some? && '-' !in c.version.value && c.overrides.None?
  {
    var items := ItemsOf(body);
    var f := item => ChartOf(namespace, item);
    var idx := Origins(f, items);
    forall c | c in Inventory(namespace, body)
      ensures c.version.Some? && '-' !in c.version.value && c.overrides.None?
    {
      var k :| 0 <= k < |FilterMap(f, items)| && FilterMap(f, items)[k] == c;
      var item := items[idx[k]];
      assert f(item) == ChartOf(namespace, item);
      ChartOfSpec(namespace, item);
    }
  }

  /** A response without an `items` array lists nothing, and is not an error. */
  lemma NoItemsNoCharts(namespace: string, body: seq<(string, Json)>)
    requires Get(body, "items").None? || !Get(body, "items").value.Array?
    ensures Inventory(namespace, body) == []
  {
  }

  /** A deployment item as the cluster reports it for a release managed here. */
  function TillerItem(namespace: string, release: string, chart: string): Json {
    Object([("metadata", Object(TillerMetadata(namespace, release, chart)))])
  }

  function TillerMetadata(namespace: string, release: string, chart: string): seq<(string, Json)> {
    [("namespace", String(namespace)), ("labels", Object(TillerLabels(release, chart)))]
  }

  function TillerLabels(release: string, chart: string): seq<(string, Json)> {
    [("heritage", String(Provenance)), ("release", String(release)), ("chart", String(chart))]
  }

  lemma TillerLabelsLookup(release: string, chart: string)
    ensures StrField(TillerLabels(release, chart), "heritage") == Some(Provenance)
    ensures StrField(TillerLabels(release, chart), "release") == Some(release)
    ensures StrField(TillerLabels(release, chart), "chart") == Some(chart)
  {
    var labels := TillerLabels(release, chart);
    var first2 := labels[..2];
    assert first2 == [("heritage", String(Provenance)), ("release", String(release))];
    assert first2[..1] == [("heritage", String(Provenance))];
    assert Get(first2[..1], "heritage") == Some(String(Provenance));
    assert Get(first2, "heritage") == Get(first2[..1], "heritage");
    assert Get(labels, "heritage") == Get(first2, "heritage");
    assert Get(labels, "release") == Get(first2, "release") == Some(String(release));
  }

  lemma TillerMetadataLookup(namespace: string, release: string, chart: string)
    ensures StrField(TillerMetadata(namespace, release, chart), "namespace") == Some(namespace)
    ensures ObjectField(TillerMetadata(namespace, release, chart), "labels") == Some(TillerLabels(release, chart))
  {
    var metadata := TillerMetadata(namespace, release, chart);
    assert metadata[..1] == [("namespace", String(namespace))];
    assert Get(metadata, "namespace") == Get(metadata[..1], "namespace") == Some(String(namespace));
  }

  lemma TillerItemLabels(namespace: string, release: string, chart: string)
    ensures ChartOf(namespace, TillerItem(namespace, release, chart)) == ChartOfLabels(TillerLabels(release, chart))
  {
    var metadata := TillerMetadata(namespace, release, chart);
    assert ObjectField(TillerItem(namespace, release, chart).members, "metadata") == Some(metadata);
    TillerMetadataLookup(namespace, release, chart);
    TillerLabelsLookup(release, chart);
  }

  /** A managed item labelled `name-version`, with no hyphen in the version,
      lists as that name and version: the label is split at its last hyphen. */
  lemma TillerItemRoundTrip(namespace: string, release: string, name: string, version: string)
    requires '-' !in version
    ensures ChartOf(namespace, TillerItem(namespace, release, name + "-" + version))
              == Some(Chart(release, name, Some(version), None))
  {
    var chart := name + "-" + version;
    TillerItemLabels(namespace, release, chart);
    TillerLabelsLookup(release, chart);
    RSplitN2Unique(name, version, '-');
  }

  /** A managed item whose chart label has no hyphen is dropped. */
  lemma TillerItemNoHyphen(namespace: string, release: string, chart: string)
    requires '-' !in chart
    ensures ChartOf(namespace, TillerItem(namespace, release, chart)) == None
  {
    TillerItemLabels(namespace, release, chart);
    TillerLabelsLookup(release, chart);
  }

  /** Three chart labels: only the last hyphen separates name from version,
      and a label without one is dropped. */
  lemma LabelExampleSimple(namespace: string)
    ensures ChartOf(namespace, TillerItem(namespace, "r", "mychart-1.2.3"))
              == Some(Chart("r", "mychart", Some("1.2.3"), None))
  {
    assert "mychart" + "-" + "1.2.3" == "mychart-1.2.3";
    TillerItemRoundTrip(namespace, "r", "mychart", "1.2.3");
  }

  lemma LabelExampleHyphenatedName(namespace: string)
    ensures ChartOf(namespace, TillerItem(namespace, "r", "my-chart-name-2.0.0"))
              == Some(Chart("r", "my-chart-name", Some("2.0.0"), None))
  {
    assert "my-chart-name" + "-" + "2.0.0" == "my-chart-name-2.0.0";
    TillerItemRoundTrip(namespace, "r", "my-chart-name", "2.0.0");
  }

  lemma LabelExampleNoHyphen(namespace: string)
    ensures ChartOf(namespace, TillerItem(namespace, "r", "nohyphen")) == None
  {
    TillerItemNoHyphen(namespace, "r", "nohyphen");
  }
}
