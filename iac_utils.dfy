/**
 * Turning a chart instance configuration into a compiled chart instance: the
 * post-processing of `helm template` output, the chart's own CRDs read from
 * its `crds` directory, and the labels every instance stamps on its
 * resources. Running `helm`, reading files and parsing YAML are outside the
 * model: their results are parameters.
 */
module IacUtils {
  import opened Common
  import opened JsValues
  import opened K8s
  import Types

  /** Why compiling a chart instance stops. */
  datatype IacError =
    | InvalidChartYaml
    | HelmTemplateFailed(message: string)
    | InvalidResource(doc: Value)
    | InvalidCrd(doc: Value)
    | InvalidCrdFile(index: nat)

  // ---------------------------------------------------------------------------
  // helm template post-processing

  /** `docs.filter((doc) => Boolean(doc))`. */
  function TruthyDocs(docs: seq<Value>): (r: seq<Value>)
    ensures forall d :: d in r <==> d in docs && Truthy(d)
    ensures |r| <= |docs|
  {
    if docs == [] then []
    else
      var rest := TruthyDocs(docs[1..]);
      assert forall d :: d in docs <==> d == docs[0] || d in docs[1..];
      if Truthy(docs[0]) then [docs[0]] + rest else rest
  }

  /** Validating every document in order: the first invalid one is the error. */
  function ValidateResources(docs: seq<Value>): (r: Result<seq<Value>, IacError>)
    ensures r.Ok? <==> forall d :: d in docs ==> IsK8sResource(d)
    ensures r.Ok? ==> r.value == docs
    ensures r.Err? ==> r.error.InvalidResource? && r.error.doc in docs && !IsK8sResource(r.error.doc)
  {
    if docs == [] then Ok([])
    else if !IsK8sResource(docs[0]) then Err(InvalidResource(docs[0]))
    else
      var rest := ValidateResources(docs[1..]);
      assert forall d :: d in docs <==> d == docs[0] || d in docs[1..];
      if rest.Err? then rest
      else Ok([docs[0]] + rest.value)
  }

  /** The resource error names the first document that is not a valid resource. */
  lemma {:induction false} ResourceErrorIsFirst(docs: seq<Value>)
    ensures var r := ValidateResources(docs);
      r.Err? ==> exists i :: 0 <= i < |docs| && docs[i] == r.error.doc && forall j :: 0 <= j < i ==> IsK8sResource(docs[j])
  {
    if docs != [] && IsK8sResource(docs[0]) {
      var r := ValidateResources(docs[1..]);
      ResourceErrorIsFirst(docs[1..]);
      if r.Err? {
        var k :| 0 <= k < |docs[1..]| && docs[1..][k] == r.error.doc && forall j :: 0 <= j < k ==> IsK8sResource(docs[1..][j]);
        assert docs[k + 1] == r.error.doc;
        assert forall j :: 0 < j < k + 1 ==> docs[j] == docs[1..][j - 1];
      }
    }
  }

  /** The namespace `helm template` output is completed with. */
  function NamespaceDoc(name: string): Value {
    Obj([Field("apiVersion", Str("v1")), Field("kind", Str(NamespaceKind)),
         Field("metadata", Obj([Field("name", Str(name))]))])
  }

  /** Some document is the namespace `name`. */
  predicate HasNamespace(docs: seq<Value>, name: string) {
    exists d :: d in docs && IsNamespaceDoc(d) && Meta(d, "name") == Str(name)
  }

  /** The appended namespace is a valid resource: a Namespace with that name. */
  lemma NamespaceDocIsNamespace(name: string)
    ensures IsK8sResource(NamespaceDoc(name)) && IsNamespaceDoc(NamespaceDoc(name))
    ensures Meta(NamespaceDoc(name), "name") == Str(name)
  {
    var fs := NamespaceDoc(name).fields;
    Types.GetCons(fs[0], fs[1..], "kind");
    Types.GetCons(fs[0], fs[1..], "apiVersion");
    Types.GetCons(fs[0], fs[1..], "metadata");
    assert fs[1..] == [fs[1]] + [fs[2]];
    Types.GetCons(fs[1], [fs[2]], "kind");
    Types.GetCons(fs[1], [fs[2]], "metadata");
    Types.GetCons(fs[2], [], "metadata");
    var ms := Meta(NamespaceDoc(name), "name");
    Types.GetCons(Field("name", Str(name)), [], "namespace");
    Types.GetCons(Field("name", Str(name)), [], "labels");
  }

  /**
   * `helmTemplate` after `helm template` has run: falsy documents are
   * dropped, every remaining one must be a valid resource, and the instance
   * namespace is appended unless the configuration turns that off or the
   * output already has it.
   */
  function HelmTemplatePost(rendered: seq<Value>, namespace: string, createNamespaceIfNotExists: Option<bool>)
    : (r: Result<seq<Value>, IacError>)
  {
    var validated := ValidateResources(TruthyDocs(rendered));
    if validated.Err? then Err(validated.error)
    else if createNamespaceIfNotExists != Some(false) && !HasNamespace(validated.value, namespace) then
      Ok(validated.value + [NamespaceDoc(namespace)])
    else Ok(validated.value)
  }

  /**
   * The output is accepted iff every truthy document is valid; it is then the
   * truthy documents in order, with the namespace appended exactly when it
   * is wanted and missing.
   */
  lemma HelmTemplateOutput(rendered: seq<Value>, namespace: string, createNamespaceIfNotExists: Option<bool>)
    ensures var r := HelmTemplatePost(rendered, namespace, createNamespaceIfNotExists);
      var kept := TruthyDocs(rendered);
      && (r.Ok? <==> forall d :: d in rendered && Truthy(d) ==> IsK8sResource(d))
      && (r.Ok? ==>
            r.value == kept + if createNamespaceIfNotExists != Some(false) && !HasNamespace(kept, namespace)
                              then [NamespaceDoc(namespace)] else [])
      && (r.Err? ==> r.error.InvalidResource? && r.error.doc in rendered && Truthy(r.error.doc) && !IsK8sResource(r.error.doc))
  {
  }

  /** A rejected output is rejected for its first invalid truthy document. */
  lemma HelmTemplateFirstInvalid(rendered: seq<Value>, namespace: string, createNamespaceIfNotExists: Option<bool>)
    ensures HelmTemplatePost(rendered, namespace, createNamespaceIfNotExists).Err? ==>
      exists i :: 0 <= i < |TruthyDocs(rendered)| &&
        TruthyDocs(rendered)[i] == HelmTemplatePost(rendered, namespace, createNamespaceIfNotExists).error.doc &&
        forall j :: 0 <= j < i ==> IsK8sResource(TruthyDocs(rendered)[j])
  {
    var kept := TruthyDocs(rendered);
    var validated := ValidateResources(kept);
    ResourceErrorIsFirst(kept);
    if validated.Err? {
      var r := HelmTemplatePost(rendered, namespace, createNamespaceIfNotExists);
      assert r == Err(validated.error);
      var i :| 0 <= i < |kept| && kept[i] == validated.error.doc && forall j :: 0 <= j < i ==> IsK8sResource(kept[j]);
      assert kept[i] == r.error.doc;
    } else {
      assert HelmTemplatePost(rendered, namespace, createNamespaceIfNotExists).Ok?;
    }
  }

  /**
   * Accepted output holds only valid resources, and holds the instance
   * namespace unless namespace creation is turned off.
   */
  lemma HelmTemplateResources(rendered: seq<Value>, namespace: string, createNamespaceIfNotExists: Option<bool>)
    requires HelmTemplatePost(rendered, namespace, createNamespaceIfNotExists).Ok?
    ensures var docs := HelmTemplatePost(rendered, namespace, createNamespaceIfNotExists).value;
      && (forall d :: d in docs ==> IsK8sResource(d))
      && (createNamespaceIfNotExists != Some(false) ==> HasNamespace(docs, namespace))
  {
    var kept := TruthyDocs(rendered);
    var docs := HelmTemplatePost(rendered, namespace, createNamespaceIfNotExists).value;
    NamespaceDocIsNamespace(namespace);
    if createNamespaceIfNotExists != Some(false) && !HasNamespace(kept, namespace) {
      assert docs == kept + [NamespaceDoc(namespace)];
      assert NamespaceDoc(namespace) in docs;
    } else if createNamespaceIfNotExists != Some(false) {
      var d :| d in kept && IsNamespaceDoc(d) && Meta(d, "name") == Str(namespace);
      assert d in docs;
    }
  }

  /** Post-processing its own output again changes nothing: no second namespace is added. */
  lemma HelmTemplateIdempotent(rendered: seq<Value>, namespace: string, createNamespaceIfNotExists: Option<bool>)
    requires HelmTemplatePost(rendered, namespace, createNamespaceIfNotExists).Ok?
    ensures var docs := HelmTemplatePost(rendered, namespace, createNamespaceIfNotExists).value;
      HelmTemplatePost(docs, namespace, createNamespaceIfNotExists) == Ok(docs)
  {
    var docs := HelmTemplatePost(rendered, namespace, createNamespaceIfNotExists).value;
    HelmTemplateResources(rendered, namespace, createNamespaceIfNotExists);
    assert forall d :: d in docs ==> d.Obj?;
    AllTruthy(docs);
  }

  /** Valid resources are objects, so filtering them by truthiness keeps them all. */
  lemma {:induction false} AllTruthy(docs: seq<Value>)
    requires forall d :: d in docs ==> d.Obj?
    ensures TruthyDocs(docs) == docs
  {
    if docs != [] {
      assert docs[0] in docs;
      assert forall d :: d in docs[1..] ==> d in docs;
      AllTruthy(docs[1..]);
    }
  }

  // ---------------------------------------------------------------------------
  // readChartCrds

  /** The documents of every file, concatenated in file order. */
  function Flatten(files: seq<seq<Value>>): (r: seq<Value>)
    ensures forall f, d :: f in files && d in f ==> d in r
  {
    if files == [] then [] else files[0] + Flatten(files[1..])
  }

  lemma {:induction false} FlattenSnoc(files: seq<seq<Value>>, f: seq<Value>)
    ensures Flatten(files + [f]) == Flatten(files) + f
  {
    if files != [] {
      assert (files + [f])[1..] == files[1..] + [f];
      FlattenSnoc(files[1..], f);
    }
  }

  /** Every document of the list is a CRD. */
  predicate AllCrds(docs: seq<Value>) {
    forall d :: d in docs ==> IsK8sCrd(d)
  }

  /**
   * What `readChartCrds` yields: a missing `crds` directory gives no CRDs;
   * otherwise the first file that is not a list of valid CRDs is the error,
   * and with none the CRDs of all files in order.
   */
  function ChartCrds(crdFiles: Option<seq<seq<Value>>>): (r: Result<seq<Value>, IacError>)
  {
    if crdFiles.None? then Ok([])
    else if forall i :: 0 <= i < |crdFiles.value| ==> AllCrds(crdFiles.value[i]) then Ok(Flatten(crdFiles.value))
    else Err(InvalidCrdFile(FirstInvalidFile(crdFiles.value)))
  }

  /** The index of the first file holding something that is not a valid CRD. */
  function FirstInvalidFile(files: seq<seq<Value>>): (i: nat)
    requires exists i :: 0 <= i < |files| && !AllCrds(files[i])
    ensures i < |files| && !AllCrds(files[i])
    ensures forall j :: 0 <= j < i ==> AllCrds(files[j])
  {
    if !AllCrds(files[0]) then 0
    else
      var i :| 0 <= i < |files| && !AllCrds(files[i]);
      assert !AllCrds(files[1..][i - 1]);
      var k := FirstInvalidFile(files[1..]);
      assert forall j :: 1 <= j < k + 1 ==> files[j] == files[1..][j - 1];
      k + 1
  }

  /** The CRDs read are exactly the chart's files, all valid, or no result at all. */
  lemma ChartCrdsValid(crdFiles: Option<seq<seq<Value>>>)
    ensures ChartCrds(crdFiles).Ok? <==> crdFiles.None? || forall f :: f in crdFiles.value ==> AllCrds(f)
    ensures ChartCrds(crdFiles).Ok? ==> AllCrds(ChartCrds(crdFiles).value)
  {
    if crdFiles.Some? && ChartCrds(crdFiles).Ok? {
      var files := crdFiles.value;
      forall d | d in Flatten(files) ensures IsK8sCrd(d) {
        FlattenMember(files, d);
      }
    }
  }

  lemma {:induction false} FlattenMember(files: seq<seq<Value>>, d: Value)
    requires d in Flatten(files)
    ensures exists i :: 0 <= i < |files| && d in files[i]
  {
    if d !in files[0] {
      FlattenMember(files[1..], d);
      var i :| 0 <= i < |files[1..]| && d in files[1..][i];
      assert files[i + 1] == files[1..][i];
    }
  }

  /** `readChartCrds`: reads the files one by one, appending each file's CRDs. */
  method ReadChartCrds(crdFiles: Option<seq<seq<Value>>>) returns (r: Result<seq<Value>, IacError>)
    ensures r == ChartCrds(crdFiles)
  {
    if crdFiles.None? {
      return Ok([]);
    }
    var files := crdFiles.value;
    var crds := [];
    var i := 0;
    while i < |files|
      invariant 0 <= i <= |files|
      invariant forall j :: 0 <= j < i ==> AllCrds(files[j])
      invariant crds == Flatten(files[..i])
    {
      if !AllCrds(files[i]) {
        return Err(InvalidCrdFile(i));
      }
      assert files[..i + 1] == files[..i] + [files[i]];
      FlattenSnoc(files[..i], files[i]);
      crds := crds + files[i];
      i := i + 1;
    }
    assert files[..i] == files;
    return Ok(crds);
  }

  // ---------------------------------------------------------------------------
  // compileChartInstance

  /** A chart instance configuration, as far as compiling it reads it. */
  datatype ChartInstanceConfig = ChartInstanceConfig(name: string, namespace: string, createNamespaceIfNotExists: Option<bool>)

  /** The labels of a compiled instance, from the chart's metadata. */
  function InstanceLabels(meta: Types.ChartMetadata, instanceName: string): seq<Field> {
    [Field("helm.sh/chart", Str(meta.name + "-" + meta.version)),
     Field("app.kubernetes.io/name", Str(instanceName)),
     Field("app.kubernetes.io/instance", Str(instanceName)),
     Field("app.kubernetes.io/version", Str(if meta.appVersion.Some? then meta.appVersion.value else "")),
     Field("app.kubernetes.io/managed-by", Str("Helm"))]
  }

  /** The documents of a kind, or not of a kind, in order. */
  function OfKind(docs: seq<Value>, crd: bool): (r: seq<Value>)
    ensures forall d :: d in r <==> d in docs && IsCrdDoc(d) == crd
    ensures forall i :: 0 <= i < |r| ==> r[i] in docs
  {
    if docs == [] then []
    else
      var rest := OfKind(docs[1..], crd);
      assert forall d :: d in docs <==> d == docs[0] || d in docs[1..];
      if IsCrdDoc(docs[0]) == crd then [docs[0]] + rest else rest
  }

  lemma {:induction false} OfKindSizes(docs: seq<Value>)
    ensures |OfKind(docs, false)| + |OfKind(docs, true)| == |docs|
  {
    if docs != [] {
      OfKindSizes(docs[1..]);
    }
  }

  /** The first rendered CRD that is not a valid CRD, if any. */
  function ValidateCrds(docs: seq<Value>): (r: Result<seq<Value>, IacError>)
    ensures r.Ok? <==> AllCrds(docs)
    ensures r.Ok? ==> r.value == docs
    ensures r.Err? ==> r.error.InvalidCrd? && r.error.doc in docs && !IsK8sCrd(r.error.doc)
  {
    if docs == [] then Ok([])
    else if !IsK8sCrd(docs[0]) then Err(InvalidCrd(docs[0]))
    else
      var rest := ValidateCrds(docs[1..]);
      assert forall d :: d in docs <==> d == docs[0] || d in docs[1..];
      if rest.Err? then rest else Ok([docs[0]] + rest.value)
  }

  /** The CRD error names the first document that is not a valid CRD. */
  lemma {:induction false} CrdErrorIsFirst(docs: seq<Value>)
    ensures var r := ValidateCrds(docs);
      r.Err? ==> exists i :: 0 <= i < |docs| && docs[i] == r.error.doc && forall j :: 0 <= j < i ==> IsK8sCrd(docs[j])
  {
    if docs != [] && IsK8sCrd(docs[0]) {
      var r := ValidateCrds(docs[1..]);
      CrdErrorIsFirst(docs[1..]);
      if r.Err? {
        var k :| 0 <= k < |docs[1..]| && docs[1..][k] == r.error.doc && forall j :: 0 <= j < k ==> IsK8sCrd(docs[1..][j]);
        assert docs[k + 1] == r.error.doc;
        assert forall j :: 0 < j < k + 1 ==> docs[j] == docs[1..][j - 1];
      }
    }
  }

  /**
   * `compileChartInstance`: the chart's `Chart.yaml` is read first, then
   * `helm template` runs, then the CRDs among its output are checked, then
   * the chart's own CRDs are read; the first failure is the result.
   */
  function CompileChartInstance(config: ChartInstanceConfig, chartYaml: Value,
                                template: Result<seq<Value>, string>, crdFiles: Option<seq<seq<Value>>>)
    : (r: Result<ChartInstance, IacError>)
  {
    var meta := Types.DecodeChartMetadata(chartYaml);
    if meta.None? then Err(InvalidChartYaml)
    else if template.Err? then Err(HelmTemplateFailed(template.error))
    else
      var resources := HelmTemplatePost(template.value, config.namespace, config.createNamespaceIfNotExists);
      if resources.Err? then Err(resources.error)
      else
        var misplaced := ValidateCrds(OfKind(resources.value, true));
        if misplaced.Err? then Err(misplaced.error)
        else
          var crds := ChartCrds(crdFiles);
          if crds.Err? then Err(crds.error)
          else
            Ok(ChartInstance(config.name, config.namespace, meta.value.version,
                             InstanceLabels(meta.value, config.name),
                             OfKind(resources.value, false), crds.value + misplaced.value))
  }

  /**
   * A compiled instance keeps no CRD among its resources; its CRDs are the
   * chart's own followed by the ones found in the rendered output, every one
   * valid; between them every rendered resource is kept; and the instance
   * satisfies what a `ChartInstance` promises.
   */
  lemma CompiledInstance(config: ChartInstanceConfig, chartYaml: Value,
                         template: Result<seq<Value>, string>, crdFiles: Option<seq<seq<Value>>>)
    requires CompileChartInstance(config, chartYaml, template, crdFiles).Ok?
    ensures var inst := CompileChartInstance(config, chartYaml, template, crdFiles).value;
      var rendered := HelmTemplatePost(template.value, config.namespace, config.createNamespaceIfNotExists).value;
      && (forall d :: d in inst.resources ==> !IsCrdDoc(d))
      && inst.crds == ChartCrds(crdFiles).value + OfKind(rendered, true)
      && AllCrds(inst.crds)
      && |inst.resources| + |OfKind(rendered, true)| == |rendered|
      && inst.name == config.name && inst.namespace == config.namespace
      && inst.version == Types.DecodeChartMetadata(chartYaml).value.version
      && ValidInstance(inst)
  {
    var inst := CompileChartInstance(config, chartYaml, template, crdFiles).value;
    var rendered := HelmTemplatePost(template.value, config.namespace, config.createNamespaceIfNotExists).value;
    HelmTemplateResources(template.value, config.namespace, config.createNamespaceIfNotExists);
    ChartCrdsValid(crdFiles);
    OfKindSizes(rendered);
    InstanceLabelsValid(Types.DecodeChartMetadata(chartYaml).value, config.name);
  }

  /** The instance labels are distinct string labels. */
  lemma InstanceLabelsValid(meta: Types.ChartMetadata, instanceName: string)
    ensures IsLabels(InstanceLabels(meta, instanceName))
  {
    var fs := InstanceLabels(meta, instanceName);
    assert fs[0].key[0] == 'h';
    assert fs[1].key[18] == 'n' && fs[2].key[18] == 'i' && fs[3].key[18] == 'v' && fs[4].key[18] == 'm';
  }

  /** Each label has the value the chart metadata and instance name give it. */
  lemma InstanceLabelValues(meta: Types.ChartMetadata, instanceName: string)
    ensures var ls := InstanceLabels(meta, instanceName);
      && Get(ls, "helm.sh/chart") == Str(meta.name + "-" + meta.version)
      && Get(ls, "app.kubernetes.io/name") == Str(instanceName)
      && Get(ls, "app.kubernetes.io/instance") == Str(instanceName)
      && Get(ls, "app.kubernetes.io/version") == Str(if meta.appVersion.Some? then meta.appVersion.value else "")
      && Get(ls, "app.kubernetes.io/managed-by") == Str("Helm")
  {
    var ls := InstanceLabels(meta, instanceName);
    InstanceLabelsValid(meta, instanceName);
    GetAt(ls, 0);
    GetAt(ls, 1);
    GetAt(ls, 2);
    GetAt(ls, 3);
    GetAt(ls, 4);
  }

  /** The steps fail in source order: an invalid `Chart.yaml` wins over everything after it. */
  lemma CompileErrorOrder(config: ChartInstanceConfig, chartYaml: Value,
                          template: Result<seq<Value>, string>, crdFiles: Option<seq<seq<Value>>>)
    ensures var r := CompileChartInstance(config, chartYaml, template, crdFiles);
      && (Types.DecodeChartMetadata(chartYaml).None? <==> r == Err(InvalidChartYaml))
      && (Types.DecodeChartMetadata(chartYaml).Some? && template.Err? ==> r == Err(HelmTemplateFailed(template.error)))
  {
  }

  // ---------------------------------------------------------------------------
  // defineBundleInstance

  /**
   * `defineBundleInstance`: the inputs are checked against the schema first;
   * invalid inputs are an error and only valid ones reach the factory.
   */
  function DefineBundleInstance<R>(validInputs: Value -> bool, factory: Value -> R, rawInputs: Value)
    : (r: Result<R, Value>)
    ensures r.Ok? <==> validInputs(rawInputs)
    ensures r.Err? ==> r.error == rawInputs
    ensures r.Ok? ==> r.value == factory(rawInputs)
  {
    if !validInputs(rawInputs) then Err(rawInputs) else Ok(factory(rawInputs))
  }

  /** With invalid inputs the factory is not called: any other factory gives the same result. */
  lemma FactoryNotCalled<R>(validInputs: Value -> bool, f: Value -> R, g: Value -> R, rawInputs: Value)
    requires !validInputs(rawInputs)
    ensures DefineBundleInstance(validInputs, f, rawInputs) == DefineBundleInstance(validInputs, g, rawInputs)
  {
  }
}
