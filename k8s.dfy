/**
 * Kubernetes documents as the tool handles them: parsed YAML objects with a
 * `kind`, an `apiVersion` and a `metadata` object. The resource and CRD
 * schemas come from a Kubernetes typing library; only the fields the tool
 * reads are checked here.
 */
module K8s {
  import opened Common
  import opened JsValues

  const NamespaceKind: string := "Namespace"
  const CrdKind: string := "CustomResourceDefinition"

  /** `v[k]` on an object; undefined on anything else. */
  function Prop(v: Value, k: string): Value {
    if v.Obj? then Get(v.fields, k) else Undefined
  }

  /** `doc.metadata[k]`. */
  function Meta(doc: Value, k: string): Value {
    Prop(Prop(doc, "metadata"), k)
  }

  /** The properties of `doc.metadata`. */
  function MetaFields(doc: Value): seq<Field> {
    var m := Prop(doc, "metadata");
    if m.Obj? then m.fields else []
  }

  /** The properties of `doc.metadata.labels`; spreading a missing label object adds nothing. */
  function LabelFields(doc: Value): seq<Field> {
    var l := Meta(doc, "labels");
    if l.Obj? then l.fields else []
  }

  /** A label set: an object whose values are strings. */
  predicate IsLabels(fs: seq<Field>) {
    UniqueKeys(fs) && forall i :: 0 <= i < |fs| ==> fs[i].val.Str?
  }

  /** `K8sResourceSchema`, as far as the tool relies on it. */
  predicate IsK8sResource(v: Value) {
    && v.Obj? && UniqueKeys(v.fields)
    && Prop(v, "kind").Str? && Prop(v, "apiVersion").Str?
    && Prop(v, "metadata").Obj? && UniqueKeys(MetaFields(v))
    && Meta(v, "name").Str?
    && (Meta(v, "namespace").Undefined? || Meta(v, "namespace").Str?)
    && (Meta(v, "labels").Undefined? || (Meta(v, "labels").Obj? && IsLabels(LabelFields(v))))
  }

  /** `K8sCrdSchema`, as far as the tool relies on it. */
  predicate IsK8sCrd(v: Value) {
    IsK8sResource(v) && Prop(v, "kind") == Str(CrdKind) && Prop(v, "spec").Obj?
  }

  /** `doc.kind === "Namespace"`. */
  predicate IsNamespaceDoc(v: Value) {
    Prop(v, "kind") == Str(NamespaceKind)
  }

  /** `doc.kind === "CustomResourceDefinition"`. */
  predicate IsCrdDoc(v: Value) {
    Prop(v, "kind") == Str(CrdKind)
  }

  /** One Helm release the bundle deploys: its resources and CRDs, and the labels it stamps on them. */
  datatype ChartInstance = ChartInstance(
    name: string,
    namespace: string,
    version: string,
    labels: seq<Field>,
    resources: seq<Value>,
    crds: seq<Value>)

  /** What the `ChartInstance` type promises: valid documents and string labels. */
  predicate ValidInstance(inst: ChartInstance) {
    && IsLabels(inst.labels)
    && (forall d :: d in inst.resources ==> IsK8sResource(d))
    && (forall d :: d in inst.crds ==> IsK8sResource(d))
  }

  /** Reading a property of `{...fs}` is reading it from `fs`. */
  lemma GetSpreadEmpty(fs: seq<Field>, k: string)
    requires UniqueKeys(fs)
    ensures Get(Spread([], fs), k) == Get(fs, k)
  {
    GetSpread([], fs, k);
  }
}
