/**
 * `helmet compile`: turning the chart instances a bundle module creates into
 * three Helm charts (`<releaseId>-crds`, `-namespaces` and `-resources`), one
 * rendered file per instance in each. Before anything is generated the
 * bundle is checked: it must have a release id, `create()` must return an
 * array, and neither instance names nor resources may repeat.
 *
 * Documents are turned into YAML text by `stringify`, a parameter standing
 * for the YAML library.
 */
module Compile {
  import opened Common
  import opened Strings
  import opened JsValues
  import opened K8s
  import Types

  const NameLabel: string := "kubernetes.io/metadata.name"

  // ---------------------------------------------------------------------------
  // The documents of one child chart

  /**
   * A namespace document as the namespaces chart gets it: its labels gain
   * `kubernetes.io/metadata.name` set to its own name.
   */
  function WithNameLabel(doc: Value): Value
    requires doc.Obj?
  {
    var labels := SetField(Spread([], LabelFields(doc)), NameLabel, Meta(doc, "name"));
    var metadata := SetField(Spread([], MetaFields(doc)), "labels", Obj(labels));
    Obj(SetField(Spread([], doc.fields), "metadata", Obj(metadata)))
  }

  /**
   * A resource as the resources chart gets it: an undefined namespace becomes
   * the instance namespace, and the labels are the instance labels overridden
   * by the document's own.
   */
  function WithInstanceDefaults(instNamespace: string, instLabels: seq<Field>, doc: Value): Value
    requires doc.Obj?
  {
    var ns := if !Meta(doc, "namespace").Undefined? then Meta(doc, "namespace") else Str(instNamespace);
    var labels := Spread(Spread([], instLabels), LabelFields(doc));
    var metadata := SetField(SetField(Spread([], MetaFields(doc)), "namespace", ns), "labels", Obj(labels));
    Obj(SetField(Spread([], doc.fields), "metadata", Obj(metadata)))
  }

  /** Reading a property after `{...fs, [k]: v}`. */
  lemma SpreadThenSet(fs: seq<Field>, k: string, v: Value, k': string)
    requires UniqueKeys(fs)
    ensures Get(SetField(Spread([], fs), k, v), k') == if k' == k then v else Get(fs, k')
  {
    GetSetField(Spread([], fs), k, v, k');
    GetSpreadEmpty(fs, k');
  }

  /**
   * The name label is set to the document's name; every other property of the
   * document, of its metadata and of its labels is kept.
   */
  lemma NameLabelled(doc: Value, k: string)
    requires IsK8sResource(doc)
    ensures Meta(WithNameLabel(doc), "labels").Obj?
    ensures k != "metadata" ==> Prop(WithNameLabel(doc), k) == Prop(doc, k)
    ensures k != "labels" ==> Meta(WithNameLabel(doc), k) == Meta(doc, k)
    ensures Get(LabelFields(WithNameLabel(doc)), k) == if k == NameLabel then Meta(doc, "name") else Get(LabelFields(doc), k)
  {
    var labels := SetField(Spread([], LabelFields(doc)), NameLabel, Meta(doc, "name"));
    var metadata := SetField(Spread([], MetaFields(doc)), "labels", Obj(labels));
    var out := WithNameLabel(doc);
    assert out == Obj(SetField(Spread([], doc.fields), "metadata", Obj(metadata)));
    SpreadThenSet(doc.fields, "metadata", Obj(metadata), "metadata");
    SpreadThenSet(doc.fields, "metadata", Obj(metadata), k);
    assert Prop(out, "metadata") == Obj(metadata);
    SpreadThenSet(MetaFields(doc), "labels", Obj(labels), "labels");
    SpreadThenSet(MetaFields(doc), "labels", Obj(labels), k);
    assert LabelFields(out) == labels;
    SpreadThenSet(LabelFields(doc), NameLabel, Meta(doc, "name"), k);
  }

  /**
   * The namespace and labels of a resource after defaulting: an explicit
   * namespace is kept, a missing one becomes the instance namespace; a label
   * the document sets wins over the instance's; everything else is kept.
   */
  lemma InstanceDefaults(instNamespace: string, instLabels: seq<Field>, doc: Value, k: string)
    requires IsK8sResource(doc) && IsLabels(instLabels)
    ensures var out := WithInstanceDefaults(instNamespace, instLabels, doc);
      && (k != "metadata" ==> Prop(out, k) == Prop(doc, k))
      && Meta(out, "namespace") == (if Meta(doc, "namespace").Undefined? then Str(instNamespace) else Meta(doc, "namespace"))
      && (k != "namespace" && k != "labels" ==> Meta(out, k) == Meta(doc, k))
      && Meta(out, "labels").Obj?
      && Get(LabelFields(out), k) == if Has(LabelFields(doc), k) then Get(LabelFields(doc), k) else Get(instLabels, k)
  {
    var ns := if !Meta(doc, "namespace").Undefined? then Meta(doc, "namespace") else Str(instNamespace);
    var labels := Spread(Spread([], instLabels), LabelFields(doc));
    var inner := SetField(Spread([], MetaFields(doc)), "namespace", ns);
    var metadata := SetField(inner, "labels", Obj(labels));
    var out := WithInstanceDefaults(instNamespace, instLabels, doc);
    assert out == Obj(SetField(Spread([], doc.fields), "metadata", Obj(metadata)));
    SpreadThenSet(doc.fields, "metadata", Obj(metadata), "metadata");
    SpreadThenSet(doc.fields, "metadata", Obj(metadata), k);
    assert Prop(out, "metadata") == Obj(metadata);
    GetSetField(inner, "labels", Obj(labels), "labels");
    GetSetField(inner, "labels", Obj(labels), "namespace");
    GetSetField(inner, "labels", Obj(labels), k);
    SpreadThenSet(MetaFields(doc), "namespace", ns, "namespace");
    SpreadThenSet(MetaFields(doc), "namespace", ns, k);
    assert LabelFields(out) == labels;
    GetSpread(Spread([], instLabels), LabelFields(doc), k);
    GetSpreadEmpty(instLabels, k);
  }

  /** The documents that are not namespaces, in order. */
  function NonNamespaceDocs(docs: seq<Value>): (r: seq<Value>)
    ensures forall d :: d in r <==> d in docs && !IsNamespaceDoc(d)
    ensures forall i :: 0 <= i < |r| ==> r[i] in docs
  {
    if docs == [] then []
    else
      var rest := NonNamespaceDocs(docs[1..]);
      assert forall d :: d in docs <==> d == docs[0] || d in docs[1..];
      if IsNamespaceDoc(docs[0]) then rest else [docs[0]] + rest
  }

  /** The namespace documents, in order. */
  function NamespaceDocs(docs: seq<Value>): (r: seq<Value>)
    ensures forall d :: d in r <==> d in docs && IsNamespaceDoc(d)
    ensures forall i :: 0 <= i < |r| ==> r[i] in docs
  {
    if docs == [] then []
    else
      var rest := NamespaceDocs(docs[1..]);
      assert forall d :: d in docs <==> d == docs[0] || d in docs[1..];
      if IsNamespaceDoc(docs[0]) then [docs[0]] + rest else rest
  }

  /** Every document goes to exactly one of the two charts. */
  lemma {:induction false} PartitionSizes(docs: seq<Value>)
    ensures |NonNamespaceDocs(docs)| + |NamespaceDocs(docs)| == |docs|
  {
    if docs != [] {
      PartitionSizes(docs[1..]);
    }
  }

  /** The instance's resources as the resources chart renders them. */
  function RenderedResources(inst: ChartInstance): (r: seq<Value>)
    requires ValidInstance(inst)
  {
    var kept := NonNamespaceDocs(inst.resources);
    seq(|kept|, i requires 0 <= i < |kept| => WithInstanceDefaults(inst.namespace, inst.labels, kept[i]))
  }

  /** The instance's namespace documents as the namespaces chart renders them. */
  function RenderedNamespaces(inst: ChartInstance): (r: seq<Value>)
    requires ValidInstance(inst)
  {
    var kept := NamespaceDocs(inst.resources);
    seq(|kept|, i requires 0 <= i < |kept| => WithNameLabel(kept[i]))
  }

  /** Every resource the resources chart renders is not a namespace and has a namespace. */
  lemma ResourcesRendered(inst: ChartInstance)
    requires ValidInstance(inst)
    ensures forall d :: d in RenderedResources(inst) ==> !IsNamespaceDoc(d) && Meta(d, "namespace").Str?
  {
    var res := NonNamespaceDocs(inst.resources);
    var rr := RenderedResources(inst);
    forall i | 0 <= i < |rr| ensures !IsNamespaceDoc(rr[i]) && Meta(rr[i], "namespace").Str? {
      assert res[i] in res;
      InstanceDefaults(inst.namespace, inst.labels, res[i], "kind");
    }
  }

  /** Every document the namespaces chart renders is a namespace carrying its own name as a label. */
  lemma NamespacesRendered(inst: ChartInstance)
    requires ValidInstance(inst)
    ensures forall d :: d in RenderedNamespaces(inst) ==>
      IsNamespaceDoc(d) && Get(LabelFields(d), NameLabel) == Meta(d, "name")
  {
    var nss := NamespaceDocs(inst.resources);
    var rn := RenderedNamespaces(inst);
    forall i | 0 <= i < |rn| ensures IsNamespaceDoc(rn[i]) && Get(LabelFields(rn[i]), NameLabel) == Meta(rn[i], "name") {
      assert nss[i] in nss;
      NameLabelled(nss[i], "kind");
      NameLabelled(nss[i], "name");
      NameLabelled(nss[i], NameLabel);
    }
  }

  /** Together the two charts render every resource of the instance once. */
  lemma RenderedCount(inst: ChartInstance)
    requires ValidInstance(inst)
    ensures |RenderedResources(inst)| + |RenderedNamespaces(inst)| == |inst.resources|
  {
    PartitionSizes(inst.resources);
  }

  /** The three files an instance contributes; the CRD file only when there is CRD text. */
  datatype ChildFiles = ChildFiles(instanceName: string, resources: string, namespaces: string, crds: Option<string>)

  /** The YAML documents of a list, separated by `---`. */
  function YamlStream(docs: seq<Value>, stringify: Value -> string): string {
    Join(seq(|docs|, i requires 0 <= i < |docs| => stringify(docs[i])), "---\n")
  }

  /** `generateChildChart`: the resources and namespaces files are always written, the CRD file only when non-empty. */
  function ChildChartFiles(inst: ChartInstance, stringify: Value -> string): (f: ChildFiles)
    requires ValidInstance(inst)
    ensures f.instanceName == inst.name
    ensures f.resources == YamlStream(RenderedResources(inst), stringify)
    ensures f.namespaces == YamlStream(RenderedNamespaces(inst), stringify)
    ensures f.crds.Some? <==> |YamlStream(inst.crds, stringify)| > 0
    ensures f.crds.Some? ==> inst.crds != [] && f.crds.value == YamlStream(inst.crds, stringify)
  {
    var crdsText := YamlStream(inst.crds, stringify);
    ChildFiles(inst.name,
               YamlStream(RenderedResources(inst), stringify),
               YamlStream(RenderedNamespaces(inst), stringify),
               if |crdsText| > 0 then Some(crdsText) else None)
  }

  // ---------------------------------------------------------------------------
  // The three charts

  /** One of the three generated charts: its directory, its name and its `Chart.yaml`. */
  datatype SubChart = SubChart(dir: string, name: string, chartYaml: Value)

  /** The `Chart.yaml` `generateChart` writes. */
  function ChartYaml(name: string, version: string): Value {
    Obj([Field("apiVersion", Str("v2")), Field("type", Str("application")),
         Field("name", Str(name)), Field("version", Str(version))])
  }

  /** `generateParentChart`: the CRD, namespace and resource charts, named after the release. */
  function SubCharts(releaseId: string, version: string): seq<SubChart> {
    [SubChart("crds", releaseId + "-crds", ChartYaml(releaseId + "-crds", version)),
     SubChart("namespaces", releaseId + "-namespaces", ChartYaml(releaseId + "-namespaces", version)),
     SubChart("resources", releaseId + "-resources", ChartYaml(releaseId + "-resources", version))]
  }

  /**
   * Each generated `Chart.yaml` is valid chart metadata with apiVersion v2,
   * the sub-chart's name and the bundle version.
   */
  lemma SubChartsAreCharts(releaseId: string, version: string)
    ensures |SubCharts(releaseId, version)| == 3
    ensures forall c :: c in SubCharts(releaseId, version) ==>
      Types.DecodeChartMetadata(c.chartYaml) == Some(Types.ChartMetadata("v2", c.name, version, None))
  {
    ChartYamlDecodes(releaseId + "-crds", version);
    ChartYamlDecodes(releaseId + "-namespaces", version);
    ChartYamlDecodes(releaseId + "-resources", version);
  }

  /** The three charts of a release have three different names. */
  lemma SubChartNamesDistinct(releaseId: string, version: string)
    ensures forall i, j :: 0 <= i < j < |SubCharts(releaseId, version)| ==>
      SubCharts(releaseId, version)[i].name != SubCharts(releaseId, version)[j].name
  {
    var cs := SubCharts(releaseId, version);
    assert cs[0].name == releaseId + "-crds" && cs[1].name == releaseId + "-namespaces" && cs[2].name == releaseId + "-resources";
    SuffixesDiffer(releaseId, "-crds", "-namespaces");
    SuffixesDiffer(releaseId, "-namespaces", "-resources");
    SuffixesDiffer(releaseId, "-crds", "-resources");
  }

  /** Two names made from one prefix and suffixes whose second characters differ are different. */
  lemma SuffixesDiffer(p: string, a: string, b: string)
    requires |a| > 1 && |b| > 1 && a[1] != b[1]
    ensures p + a != p + b
  {
    assert (p + a)[|p| + 1] == a[1];
    assert (p + b)[|p| + 1] == b[1];
  }

  /** A property of a generated `Chart.yaml`: the four it sets, and nothing else. */
  lemma ChartYamlGet(name: string, version: string, k: string)
    ensures Get(ChartYaml(name, version).fields, k) ==
      if k == "apiVersion" then Str("v2") else if k == "type" then Str("application")
      else if k == "name" then Str(name) else if k == "version" then Str(version) else Undefined
  {
    var fs := ChartYaml(name, version).fields;
    Types.GetCons(fs[0], fs[1..], k);
    Types.GetCons(fs[1], fs[2..], k);
    Types.GetCons(fs[2], fs[3..], k);
    Types.GetCons(fs[3], [], k);
    assert fs[1..] == [fs[1]] + fs[2..] && fs[2..] == [fs[2]] + fs[3..] && fs[3..] == [fs[3]] + [];
  }

  /** A generated `Chart.yaml` decodes to chart metadata with apiVersion v2 and no appVersion. */
  lemma ChartYamlDecodes(name: string, version: string)
    ensures Types.DecodeChartMetadata(ChartYaml(name, version)) == Some(Types.ChartMetadata("v2", name, version, None))
  {
    var fs := ChartYaml(name, version).fields;
    ChartYamlGet(name, version, "apiVersion");
    ChartYamlGet(name, version, "name");
    ChartYamlGet(name, version, "version");
    ChartYamlGet(name, version, "kubeVersion");
    ChartYamlGet(name, version, "description");
    ChartYamlGet(name, version, "type");
    ChartYamlGet(name, version, "keywords");
    ChartYamlGet(name, version, "home");
    ChartYamlGet(name, version, "sources");
    ChartYamlGet(name, version, "icon");
    ChartYamlGet(name, version, "appVersion");
    ChartYamlGet(name, version, "deprecated");
    assert Types.MetadataShape(fs);
  }

  // ---------------------------------------------------------------------------
  // Duplicate detection

  /** A JavaScript `Map` keyed by strings: its entries and the order its keys were first set in. */
  datatype OrderedMap<V> = OrderedMap(order: seq<string>, entries: map<string, V>)

  ghost predicate ValidMap<V>(m: OrderedMap<V>) {
    (forall k :: k in m.entries <==> k in m.order) && Distinct(m.order)
  }

  function EmptyMap<V>(): (m: OrderedMap<V>)
    ensures ValidMap(m) && m.entries == map[]
  {
    OrderedMap([], map[])
  }

  /** `map.set(k, v)`: an existing key keeps its place, a new key goes last. */
  function Set<V>(m: OrderedMap<V>, k: string, v: V): (r: OrderedMap<V>)
    ensures ValidMap(m) ==> ValidMap(r)
    ensures r.entries == m.entries[k := v]
    ensures r.order == if k in m.entries then m.order else m.order + [k]
  {
    if k in m.entries then OrderedMap(m.order, m.entries[k := v])
    else OrderedMap(m.order + [k], m.entries[k := v])
  }

  /** `map.get(k) ?? 0` on a map of counts. */
  function CountOf(m: OrderedMap<nat>, k: string): nat {
    if k in m.entries then m.entries[k] else 0
  }

  /** The counts of `names` in a map listing each name where it first occurs. */
  ghost predicate Counts(m: OrderedMap<nat>, names: seq<string>) {
    ValidMap(m) && (forall k :: CountOf(m, k) == multiset(names)[k]) && m.order == Dedup(names)
  }

  /** Counting one more name keeps the map the counts of the longer sequence. */
  lemma CountStep(m: OrderedMap<nat>, names: seq<string>, x: string)
    requires Counts(m, names)
    ensures Counts(Set(m, x, CountOf(m, x) + 1), names + [x])
  {
    CountStepOrder(m, names, x);
    CountStepCounts(m, names, x);
  }

  /** A name counted for the first time goes last in the map. */
  lemma CountStepOrder(m: OrderedMap<nat>, names: seq<string>, x: string)
    requires ValidMap(m) && m.order == Dedup(names)
    ensures Set(m, x, CountOf(m, x) + 1).order == Dedup(names + [x])
  {
    DedupSnoc(names, x);
  }

  /** Counting a name adds one to its count and leaves the others alone. */
  lemma CountStepCounts(m: OrderedMap<nat>, names: seq<string>, x: string)
    requires forall k :: CountOf(m, k) == multiset(names)[k]
    ensures forall k :: CountOf(Set(m, x, CountOf(m, x) + 1), k) == multiset(names + [x])[k]
  {
    assert multiset(names + [x]) == multiset(names) + multiset{x};
  }

  /**
   * Counts every name, in the way the instance-name `reduce` does; the map
   * lists each name where it first occurs.
   */
  method CountNames(names: seq<string>) returns (m: OrderedMap<nat>)
    ensures ValidMap(m)
    ensures forall k :: CountOf(m, k) == multiset(names)[k]
    ensures m.order == Dedup(names)
  {
    m := EmptyMap();
    var i := 0;
    while i < |names|
      invariant 0 <= i <= |names|
      invariant Counts(m, names[..i])
    {
      assert names[..i + 1] == names[..i] + [names[i]];
      CountStep(m, names[..i], names[i]);
      m := Set(m, names[i], CountOf(m, names[i]) + 1);
      i := i + 1;
    }
    assert names[..i] == names;
  }

  /**
   * The first name, in map order, counted more than once, with its count;
   * none when every name is unique.
   */
  method FirstRepeated(m: OrderedMap<nat>) returns (dup: Option<(string, nat)>)
    requires ValidMap(m)
    ensures dup.None? <==> forall k :: CountOf(m, k) <= 1
    ensures dup.Some? ==> dup.value.1 == CountOf(m, dup.value.0) > 1
    ensures dup.Some? ==>
      exists i :: 0 <= i < |m.order| && m.order[i] == dup.value.0 &&
        forall j :: 0 <= j < i ==> CountOf(m, m.order[j]) <= 1
  {
    var i := 0;
    while i < |m.order|
      invariant 0 <= i <= |m.order|
      invariant forall j :: 0 <= j < i ==> CountOf(m, m.order[j]) <= 1
    {
      var count := CountOf(m, m.order[i]);
      if count > 1 {
        return Some((m.order[i], count));
      }
      i := i + 1;
    }
    forall k ensures CountOf(m, k) <= 1 {
      if k in m.entries {
        var j :| 0 <= j < |m.order| && m.order[j] == k;
      }
    }
    return None;
  }

  /** What the resource duplicate check counts: `kind/apiVersion`, namespace and name. */
  datatype ResourceKey = ResourceKey(kind: string, namespace: string, name: string)

  /** `x ?? ""` on a namespace. */
  function NamespaceText(v: Value): string {
    if v.Str? then v.s else ""
  }

  /** The key of a document counted as is: its own namespace, or "" when it has none. */
  function OwnKey(doc: Value): ResourceKey
    requires IsK8sResource(doc)
  {
    ResourceKey(Prop(doc, "kind").s + "/" + Prop(doc, "apiVersion").s, NamespaceText(Meta(doc, "namespace")),
                Meta(doc, "name").s)
  }

  /** The key of a resource: a non-namespace resource without a namespace counts under the instance's. */
  function ResourceKeyOf(instNamespace: string, doc: Value): (key: ResourceKey)
    requires IsK8sResource(doc)
    ensures key.kind == OwnKey(doc).kind && key.name == OwnKey(doc).name
    ensures key.namespace ==
      if !IsNamespaceDoc(doc) && Meta(doc, "namespace").Undefined? then instNamespace else NamespaceText(Meta(doc, "namespace"))
  {
    if !IsNamespaceDoc(doc) && Meta(doc, "namespace").Undefined? then
      ResourceKey(OwnKey(doc).kind, instNamespace, OwnKey(doc).name)
    else OwnKey(doc)
  }

  /** The keys of one instance: its CRDs, then its resources. */
  function InstanceKeys(inst: ChartInstance): seq<ResourceKey>
    requires ValidInstance(inst)
  {
    seq(|inst.crds|, i requires 0 <= i < |inst.crds| => OwnKey(inst.crds[i])) +
    seq(|inst.resources|, i requires 0 <= i < |inst.resources| => ResourceKeyOf(inst.namespace, inst.resources[i]))
  }

  /** The keys of every instance, in order (the `flatMap`). */
  function AllKeys(insts: seq<ChartInstance>): seq<ResourceKey>
    requires forall i :: 0 <= i < |insts| ==> ValidInstance(insts[i])
  {
    if insts == [] then [] else InstanceKeys(insts[0]) + AllKeys(insts[1..])
  }

  /** The nested `kind -> namespace -> name -> count` map. */
  type CountTree = OrderedMap<OrderedMap<OrderedMap<nat>>>

  ghost predicate ValidByNamespace(byNs: OrderedMap<OrderedMap<nat>>) {
    ValidMap(byNs) && forall ns :: ns in byNs.entries ==> ValidMap(byNs.entries[ns])
  }

  ghost predicate ValidTree(t: CountTree) {
    ValidMap(t) && forall kind :: kind in t.entries ==> ValidByNamespace(t.entries[kind])
  }

  /** The count under one namespace and name of a kind's map, or 0. */
  function CountIn(byNs: OrderedMap<OrderedMap<nat>>, ns: string, name: string): nat {
    if ns in byNs.entries then CountOf(byNs.entries[ns], name) else 0
  }

  /** The count the tree holds for a key, or 0. */
  function TreeCount(t: CountTree, key: ResourceKey): nat {
    if key.kind in t.entries then CountIn(t.entries[key.kind], key.namespace, key.name) else 0
  }

  /** Counting one more name under a namespace of one kind, creating the name map on first use. */
  function BumpIn(byNs: OrderedMap<OrderedMap<nat>>, ns: string, name: string): (r: OrderedMap<OrderedMap<nat>>)
    ensures ValidByNamespace(byNs) ==> ValidByNamespace(r)
    ensures forall ns', name' :: CountIn(r, ns', name') == CountIn(byNs, ns', name') + if ns' == ns && name' == name then 1 else 0
  {
    var byName := if ns in byNs.entries then byNs.entries[ns] else EmptyMap();
    Set(byNs, ns, Set(byName, name, CountOf(byName, name) + 1))
  }

  /** A kind's map of the tree, or an empty one. */
  function KindMap(t: CountTree, kind: string): OrderedMap<OrderedMap<nat>> {
    if kind in t.entries then t.entries[kind] else EmptyMap()
  }

  /** Counting one more resource under `key`, creating the inner maps on first use. */
  function Bump(t: CountTree, key: ResourceKey): (r: CountTree)
    ensures ValidTree(t) ==> ValidTree(r)
    ensures forall other :: TreeCount(r, other) == TreeCount(t, other) + if other == key then 1 else 0
  {
    BumpValid(t, key);
    BumpCounts(t, key);
    Set(t, key.kind, BumpIn(KindMap(t, key.kind), key.namespace, key.name))
  }

  /** Bumping a count keeps every level of the tree a valid map. */
  lemma BumpValid(t: CountTree, key: ResourceKey)
    ensures ValidTree(t) ==> ValidTree(Set(t, key.kind, BumpIn(KindMap(t, key.kind), key.namespace, key.name)))
  {
  }

  /** Bumping a count adds one under `key` and leaves every other count alone. */
  lemma BumpCounts(t: CountTree, key: ResourceKey)
    ensures var r := Set(t, key.kind, BumpIn(KindMap(t, key.kind), key.namespace, key.name));
      forall other :: TreeCount(r, other) == TreeCount(t, other) + if other == key then 1 else 0
  {
  }

  /** Counts every resource key, in the way the resource `reduce` does. */
  method CountResources(keys: seq<ResourceKey>) returns (t: CountTree)
    ensures ValidTree(t)
    ensures forall key :: TreeCount(t, key) == multiset(keys)[key]
  {
    t := EmptyMap();
    var i := 0;
    while i < |keys|
      invariant 0 <= i <= |keys|
      invariant ValidTree(t)
      invariant forall key :: TreeCount(t, key) == multiset(keys[..i])[key]
    {
      assert keys[..i + 1] == keys[..i] + [keys[i]];
      t := Bump(t, keys[i]);
      i := i + 1;
    }
    assert keys[..i] == keys;
  }

  /** The first repeated name under one kind and namespace. */
  method RepeatedInNamespace(kind: string, ns: string, names: OrderedMap<nat>) returns (dup: Option<(ResourceKey, nat)>)
    requires ValidMap(names)
    ensures dup.None? <==> forall n :: CountOf(names, n) <= 1
    ensures dup.Some? ==>
      dup.value.0.kind == kind && dup.value.0.namespace == ns &&
      dup.value.1 == CountOf(names, dup.value.0.name) > 1
  {
    var found := FirstRepeated(names);
    dup := if found.Some? then Some((ResourceKey(kind, ns, found.value.0), found.value.1)) else None;
  }

  /** The first repeated name under one kind, scanning its namespaces in map order. */
  method RepeatedInKind(kind: string, byNs: OrderedMap<OrderedMap<nat>>) returns (dup: Option<(ResourceKey, nat)>)
    requires ValidMap(byNs) && forall ns :: ns in byNs.entries ==> ValidMap(byNs.entries[ns])
    ensures dup.None? <==> forall ns, n :: ns in byNs.entries ==> CountOf(byNs.entries[ns], n) <= 1
    ensures dup.Some? ==>
      dup.value.0.kind == kind && dup.value.0.namespace in byNs.entries &&
      dup.value.1 == CountOf(byNs.entries[dup.value.0.namespace], dup.value.0.name) > 1
  {
    var i := 0;
    while i < |byNs.order|
      invariant 0 <= i <= |byNs.order|
      invariant forall j, n :: 0 <= j < i ==> CountOf(byNs.entries[byNs.order[j]], n) <= 1
    {
      var ns := byNs.order[i];
      dup := RepeatedInNamespace(kind, ns, byNs.entries[ns]);
      if dup.Some? {
        return;
      }
      i := i + 1;
    }
    forall ns, n | ns in byNs.entries ensures CountOf(byNs.entries[ns], n) <= 1 {
      var j :| 0 <= j < |byNs.order| && byNs.order[j] == ns;
    }
    return None;
  }

  /** The first repeated resource, scanning kinds, then namespaces, then names, each in map order. */
  method RepeatedResource(t: CountTree) returns (dup: Option<(ResourceKey, nat)>)
    requires ValidTree(t)
    ensures dup.None? <==> forall key :: TreeCount(t, key) <= 1
    ensures dup.Some? ==> dup.value.1 == TreeCount(t, dup.value.0) > 1
  {
    var i := 0;
    while i < |t.order|
      invariant 0 <= i <= |t.order|
      invariant forall key: ResourceKey :: key.kind in t.order[..i] ==> TreeCount(t, key) <= 1
    {
      var kind := t.order[i];
      dup := RepeatedInKind(kind, t.entries[kind]);
      if dup.Some? {
        return;
      }
      assert forall key: ResourceKey :: key.kind == kind ==> TreeCount(t, key) <= 1;
      assert t.order[..i + 1] == t.order[..i] + [kind];
      i := i + 1;
    }
    forall key ensures TreeCount(t, key) <= 1 {
      if key.kind in t.entries {
        assert t.order[..i] == t.order;
      }
    }
    return None;
  }

  // ---------------------------------------------------------------------------
  // compile

  datatype CompileError =
    | MissingReleaseId
    | CreateNotArray
    | DuplicateInstances(name: string, count: nat)
    | DuplicateResources(key: ResourceKey, count: nat)

  /** `meta.json`: the release name, and the module's `releaseNamespace` and `pure` exports as they are. */
  datatype BundleMeta = BundleMeta(name: string, namespace: Value, pure: Value)

  /** Everything `compile` writes. */
  datatype Bundle = Bundle(charts: seq<SubChart>, children: seq<ChildFiles>, meta: BundleMeta)

  function InstanceNames(insts: seq<ChartInstance>): (r: seq<string>)
    ensures |r| == |insts| && forall i :: 0 <= i < |insts| ==> r[i] == insts[i].name
  {
    seq(|insts|, i requires 0 <= i < |insts| => insts[i].name)
  }

  /** The bundle generated from checked instances. */
  function BundleOf(releaseId: string, version: string, insts: seq<ChartInstance>, releaseNamespace: Value,
                    pure: Value, stringify: Value -> string): Bundle
    requires forall i :: 0 <= i < |insts| ==> ValidInstance(insts[i])
  {
    Bundle(SubCharts(releaseId, version),
           seq(|insts|, i requires 0 <= i < |insts| => ChildChartFiles(insts[i], stringify)),
           BundleMeta(releaseId, releaseNamespace, pure))
  }

  /**
   * `compile`: a missing or empty release id fails first, then a `create()`
   * result that is not an array; repeated instance names are reported before
   * repeated resources; only a bundle that passes every check is generated.
   */
  method Compile(releaseId: Option<string>, created: Option<seq<ChartInstance>>, version: string,
                 releaseNamespace: Value, pure: Value, stringify: Value -> string)
    returns (r: Result<Bundle, CompileError>)
    requires created.Some? ==> forall i :: 0 <= i < |created.value| ==> ValidInstance(created.value[i])
    ensures releaseId.None? || releaseId.value == "" ==> r == Err(MissingReleaseId)
    ensures releaseId.Some? && releaseId.value != "" && created.None? ==> r == Err(CreateNotArray)
    ensures r.Ok? ==>
      releaseId.Some? && created.Some? &&
      r.value == BundleOf(releaseId.value, version, created.value, releaseNamespace, pure, stringify)
    ensures releaseId.Some? && releaseId.value != "" && created.Some? ==>
      var names := InstanceNames(created.value);
      var keys := AllKeys(created.value);
      && (r.Ok? <==> (forall n :: multiset(names)[n] <= 1) && (forall k :: multiset(keys)[k] <= 1))
      && (r.Err? && r.error.DuplicateInstances? ==> r.error.count == multiset(names)[r.error.name] > 1)
      && (r.Err? && r.error.DuplicateInstances? ==>
            exists i :: 0 <= i < |Dedup(names)| && Dedup(names)[i] == r.error.name &&
              forall j :: 0 <= j < i ==> multiset(names)[Dedup(names)[j]] <= 1)
      && (r.Err? && r.error.DuplicateResources? ==>
            (forall n :: multiset(names)[n] <= 1) && r.error.count == multiset(keys)[r.error.key] > 1)
      && (r.Err? ==> r.error.DuplicateInstances? || r.error.DuplicateResources?)
  {
    if releaseId.None? || releaseId.value == "" {
      return Err(MissingReleaseId);
    }
    if created.None? {
      return Err(CreateNotArray);
    }
    var insts := created.value;
    var names := InstanceNames(insts);
    var keys := AllKeys(insts);
    var byName := CountNames(names);
    var byKey := CountResources(keys);
    var dupName := FirstRepeated(byName);
    if dupName.Some? {
      assert CountOf(byName, dupName.value.0) == multiset(names)[dupName.value.0];
      return Err(DuplicateInstances(dupName.value.0, dupName.value.1));
    }
    assert forall n :: multiset(names)[n] <= 1 by {
      forall n ensures multiset(names)[n] <= 1 {
        assert CountOf(byName, n) == multiset(names)[n];
      }
    }
    var dupKey := RepeatedResource(byKey);
    if dupKey.Some? {
      assert TreeCount(byKey, dupKey.value.0) == multiset(keys)[dupKey.value.0];
      return Err(DuplicateResources(dupKey.value.0, dupKey.value.1));
    }
    assert forall k :: multiset(keys)[k] <= 1 by {
      forall k ensures multiset(keys)[k] <= 1 {
        assert TreeCount(byKey, k) == multiset(keys)[k];
      }
    }
    r := Ok(BundleOf(releaseId.value, version, insts, releaseNamespace, pure, stringify));
  }

  /**
   * In a compiled bundle the instance names differ, so no two instances
   * write the same rendered file.
   */
  lemma RenderedFilesDistinct(releaseId: string, version: string, insts: seq<ChartInstance>, releaseNamespace: Value,
                              pure: Value, stringify: Value -> string)
    requires forall i :: 0 <= i < |insts| ==> ValidInstance(insts[i])
    requires forall n :: multiset(InstanceNames(insts))[n] <= 1
    ensures var b := BundleOf(releaseId, version, insts, releaseNamespace, pure, stringify);
      forall i, j :: 0 <= i < j < |b.children| ==> b.children[i].instanceName != b.children[j].instanceName
  {
    var names := InstanceNames(insts);
    forall i, j | 0 <= i < j < |insts| ensures names[i] != names[j] {
      RepeatedCounted(names, i, j);
    }
  }

  /** A value at two positions of a list is counted at least twice. */
  lemma RepeatedCounted(s: seq<string>, i: nat, j: nat)
    requires i < j < |s|
    ensures s[i] == s[j] ==> multiset(s)[s[i]] >= 2
  {
    assert s == s[..j] + [s[j]] + s[j + 1..];
    assert s[i] in s[..j];
  }
}
