/**
 * The records the tool reads and writes: Helm repository indexes, chart
 * metadata (`Chart.yaml`), the three kinds of remote chart source, and the
 * kubectl version output. Each schema is a decoder from a parsed document.
 */
module Types {
  import opened Common
  import opened JsValues

  /** One release of a chart in a repository index. Other fields may be present and are ignored. */
  datatype ChartRepoRelease = ChartRepoRelease(
    apiVersion: Option<string>,
    version: string,
    name: string,
    urls: seq<string>)

  /** A repository `index.yaml`: an apiVersion and, per chart name, its list of releases. */
  datatype ChartRepoIndex = ChartRepoIndex(
    apiVersion: string,
    entries: map<string, seq<ChartRepoRelease>>)

  datatype HelmApiVersion = V1 | V2

  function HelmApiVersionText(a: HelmApiVersion): string {
    match a
    case V1 => "v1"
    case V2 => "v2"
  }

  /** Which optional hooks a chart configuration supplies. */
  datatype Hooks = Hooks(onDownloaded: bool, onUpdated: bool)

  /**
   * A remote chart source. Each variant carries only its own fields; the
   * Helm-repo `version` is a range, the other two are exact pins.
   */
  datatype RemoteChartConfig =
    | HelmRepo(remoteName: string, remoteRepoUrl: string, apiVersion: Option<HelmApiVersion>,
               version: string, hooks: Hooks)
    | OciRegistry(ociRef: string, version: string, hooks: Hooks)
    | RemoteArchive(archiveUrl: string, extractPath: string, version: string, hooks: Hooks)

  /** The fields of `Chart.yaml` the tool uses. */
  datatype ChartMetadata = ChartMetadata(
    apiVersion: string,
    name: string,
    version: string,
    appVersion: Option<string>)

  // ---------------------------------------------------------------------------
  // Schema checks. An optional property passes when it is missing (reads as
  // undefined) or has the stated type.

  predicate IsStr(v: Value) { v.Str? }

  predicate OptStr(fs: seq<Field>, k: string) {
    Get(fs, k).Undefined? || Get(fs, k).Str?
  }

  predicate OptBool(fs: seq<Field>, k: string) {
    Get(fs, k).Undefined? || Get(fs, k).Bool?
  }

  predicate AllStr(items: seq<Value>) {
    forall i :: 0 <= i < |items| ==> items[i].Str?
  }

  predicate OptStrArray(fs: seq<Field>, k: string) {
    Get(fs, k).Undefined? || (Get(fs, k).Arr? && AllStr(Get(fs, k).items))
  }

  function Strs(items: seq<Value>): (r: seq<string>)
    requires AllStr(items)
    ensures |r| == |items|
    ensures forall i :: 0 <= i < |items| ==> items[i] == Str(r[i])
  {
    if items == [] then [] else [items[0].s] + Strs(items[1..])
  }

  /** An array of strings, as a document holds it. */
  function StrArr(ss: seq<string>): (v: Value)
    ensures v.Arr? && |v.items| == |ss|
    ensures forall i :: 0 <= i < |ss| ==> v.items[i] == Str(ss[i])
  {
    Arr(seq(|ss|, i requires 0 <= i < |ss| => Str(ss[i])))
  }

  function OptString(v: Value): Option<string> {
    if v.Str? then Some(v.s) else None
  }

  /** What `ChartRepoReleaseSchema` demands of a release object. */
  predicate ReleaseShape(v: Value) {
    && v.Obj? && IsStr(Get(v.fields, "version")) && IsStr(Get(v.fields, "name"))
    && Get(v.fields, "urls").Arr? && AllStr(Get(v.fields, "urls").items)
    && OptStr(v.fields, "apiVersion")
  }

  /** The `ChartRepoReleaseSchema` check and decoding. */
  function DecodeRelease(v: Value): (r: Option<ChartRepoRelease>)
    ensures r.Some? <==> ReleaseShape(v)
    ensures r.Some? ==>
      && Get(v.fields, "version") == Str(r.value.version)
      && Get(v.fields, "name") == Str(r.value.name)
      && Get(v.fields, "urls") == StrArr(r.value.urls)
      && r.value.apiVersion == OptString(Get(v.fields, "apiVersion"))
  {
    if ReleaseShape(v) then
      var fs := v.fields;
      var us := Strs(Get(fs, "urls").items);
      assert Get(fs, "urls").items == StrArr(us).items;
      Some(ChartRepoRelease(OptString(Get(fs, "apiVersion")), Get(fs, "version").s, Get(fs, "name").s, us))
    else None
  }

  /** Decodes a release list; fails when any element fails. */
  function DecodeReleases(items: seq<Value>): (r: Option<seq<ChartRepoRelease>>)
    ensures r.Some? <==> forall i :: 0 <= i < |items| ==> ReleaseShape(items[i])
    ensures r.Some? ==>
      && |r.value| == |items|
      && forall i :: 0 <= i < |items| ==> DecodeRelease(items[i]) == Some(r.value[i])
  {
    if items == [] then Some([])
    else
      var head := DecodeRelease(items[0]);
      var tail := DecodeReleases(items[1..]);
      assert forall i :: 1 <= i < |items| ==> items[i] == items[1..][i - 1];
      if head.Some? && tail.Some? then Some([head.value] + tail.value)
      else None
  }

  /** Every property of `entries` holds a list of valid releases. */
  predicate AllReleaseLists(fs: seq<Field>) {
    forall i :: 0 <= i < |fs| ==> fs[i].val.Arr? && DecodeReleases(fs[i].val.items).Some?
  }

  /** The `ChartRepoIndexSchema` check and decoding. */
  function DecodeIndex(v: Value): (r: Option<ChartRepoIndex>)
    ensures r.Some? <==>
      v.Obj? && IsStr(Get(v.fields, "apiVersion")) && Get(v.fields, "entries").Obj? &&
      AllReleaseLists(Get(v.fields, "entries").fields)
    ensures r.Some? ==> forall name ::
      (name in r.value.entries <==> Has(Get(v.fields, "entries").fields, name))
    ensures r.Some? ==> Get(v.fields, "apiVersion") == Str(r.value.apiVersion)
    ensures r.Some? ==> forall name :: name in r.value.entries ==>
      Get(Get(v.fields, "entries").fields, name).Arr? &&
      DecodeReleases(Get(Get(v.fields, "entries").fields, name).items) == Some(r.value.entries[name])
  {
    if v.Obj? && Get(v.fields, "apiVersion").Str? && Get(v.fields, "entries").Obj? &&
       AllReleaseLists(Get(v.fields, "entries").fields)
    then
      var efs := Get(v.fields, "entries").fields;
      var entries := map k | k in Keys(efs) :: DecodeReleases(EntryItems(efs, k)).value;
      assert forall k :: k in entries ==>
        Get(efs, k).Arr? && DecodeReleases(Get(efs, k).items) == Some(entries[k]);
      Some(ChartRepoIndex(Get(v.fields, "apiVersion").s, entries))
    else None
  }

  /** The release list stored under `k` in a valid `entries` object. */
  function EntryItems(efs: seq<Field>, k: string): (items: seq<Value>)
    requires AllReleaseLists(efs) && k in Keys(efs)
    ensures Get(efs, k).Arr? && items == Get(efs, k).items
    ensures DecodeReleases(items).Some?
  {
    var i :| 0 <= i < |efs| && efs[i].key == k;
    GetOfReleaseLists(efs, k);
    Get(efs, k).items
  }

  lemma GetOfReleaseLists(efs: seq<Field>, k: string)
    requires AllReleaseLists(efs) && k in Keys(efs)
    ensures Get(efs, k).Arr? && DecodeReleases(Get(efs, k).items).Some?
  {
    GetFound(efs, k);
  }

  /** The `ChartMetadataSchema` check and decoding. */
  function DecodeChartMetadata(v: Value): (r: Option<ChartMetadata>)
    ensures r.Some? <==> v.Obj? && MetadataShape(v.fields)
    ensures r.Some? ==>
      Get(v.fields, "apiVersion") == Str(r.value.apiVersion) &&
      Get(v.fields, "name") == Str(r.value.name) &&
      Get(v.fields, "version") == Str(r.value.version) &&
      (r.value.appVersion.None? <==> Get(v.fields, "appVersion").Undefined?) &&
      (r.value.appVersion.Some? ==> Get(v.fields, "appVersion") == Str(r.value.appVersion.value))
  {
    if v.Obj? && MetadataShape(v.fields) then
      var fs := v.fields;
      Some(ChartMetadata(Get(fs, "apiVersion").s, Get(fs, "name").s, Get(fs, "version").s,
                         OptString(Get(fs, "appVersion"))))
    else None
  }

  /** The required and typed optional properties of `Chart.yaml`; the others may hold anything. */
  predicate MetadataShape(fs: seq<Field>) {
    && IsStr(Get(fs, "apiVersion")) && IsStr(Get(fs, "name")) && IsStr(Get(fs, "version"))
    && OptStr(fs, "kubeVersion") && OptStr(fs, "description") && OptStr(fs, "type")
    && OptStrArray(fs, "keywords") && OptStr(fs, "home") && OptStrArray(fs, "sources")
    && OptStr(fs, "icon") && OptStr(fs, "appVersion") && OptBool(fs, "deprecated")
  }

  /** The `KubectlClientVersionCmdOutputSchema` check. */
  predicate ValidClientVersionOutput(v: Value) {
    v.Obj? && NonEmptyGitVersion(Get(v.fields, "clientVersion"))
  }

  /** The `KubectlServerVersionCmdOutputSchema` check. */
  predicate ValidServerVersionOutput(v: Value) {
    v.Obj? && NonEmptyGitVersion(Get(v.fields, "serverVersion"))
  }

  /** The version object's `gitVersion`: `Str({ minLength: 1 })`. */
  predicate NonEmptyGitVersion(v: Value) {
    v.Obj? && Get(v.fields, "gitVersion").Str? && |Get(v.fields, "gitVersion").s| >= 1
  }

  // ---------------------------------------------------------------------------
  // Encoders, the partners of the decoders above.

  function EncodeRelease(r: ChartRepoRelease): Value {
    var base := [Field("version", Str(r.version)), Field("name", Str(r.name)),
                 Field("urls", StrArr(r.urls))];
    Obj(if r.apiVersion.Some? then [Field("apiVersion", Str(r.apiVersion.value))] + base else base)
  }

  function EncodeChartMetadata(m: ChartMetadata): Value {
    var base := [Field("apiVersion", Str(m.apiVersion)), Field("name", Str(m.name)),
                 Field("version", Str(m.version))];
    Obj(if m.appVersion.Some? then base + [Field("appVersion", Str(m.appVersion.value))] else base)
  }

  lemma GetCons(f: Field, rest: seq<Field>, k: string)
    ensures Get([f] + rest, k) == if f.key == k then f.val else Get(rest, k)
  {
    assert ([f] + rest)[1..] == rest;
  }

  /** The fields of an encoded release, looked up one by one. */
  lemma EncodedReleaseFields(r: ChartRepoRelease)
    ensures Get(EncodeRelease(r).fields, "version") == Str(r.version)
    ensures Get(EncodeRelease(r).fields, "name") == Str(r.name)
    ensures Get(EncodeRelease(r).fields, "urls") == StrArr(r.urls)
    ensures Get(EncodeRelease(r).fields, "apiVersion") ==
      if r.apiVersion.Some? then Str(r.apiVersion.value) else Undefined
  {
    var fv, fn, fu := Field("version", Str(r.version)), Field("name", Str(r.name)), Field("urls", StrArr(r.urls));
    var base := [fv, fn, fu];
    assert base == [fv] + ([fn] + ([fu] + []));
    forall k | k in {"version", "name", "urls", "apiVersion"}
      ensures Get(base, k) == (if k == "version" then fv.val else if k == "name" then fn.val
                               else if k == "urls" then fu.val else Undefined)
    {
      GetCons(fv, [fn] + ([fu] + []), k);
      GetCons(fn, [fu] + [], k);
      GetCons(fu, [], k);
    }
    if r.apiVersion.Some? {
      var fa := Field("apiVersion", Str(r.apiVersion.value));
      assert EncodeRelease(r).fields == [fa] + base;
      forall k | k in {"version", "name", "urls", "apiVersion"}
        ensures Get([fa] + base, k) == if k == "apiVersion" then fa.val else Get(base, k)
      {
        GetCons(fa, base, k);
      }
    }
  }

  lemma StrArrInjective(a: seq<string>, b: seq<string>)
    requires StrArr(a) == StrArr(b)
    ensures a == b
  {
    assert forall i :: 0 <= i < |a| ==> Str(a[i]) == StrArr(a).items[i] == Str(b[i]);
  }

  lemma ReleaseRoundTrip(r: ChartRepoRelease)
    ensures DecodeRelease(EncodeRelease(r)) == Some(r)
  {
    var v := EncodeRelease(r);
    EncodedReleaseFields(r);
    assert AllStr(StrArr(r.urls).items);
    assert ReleaseShape(v);
    var d := DecodeRelease(v).value;
    StrArrInjective(d.urls, r.urls);
  }

  /** The fields of an encoded `Chart.yaml`, looked up one by one. */
  lemma EncodedMetadataFields(m: ChartMetadata, k: string)
    ensures Get(EncodeChartMetadata(m).fields, k) ==
      if k == "apiVersion" then Str(m.apiVersion)
      else if k == "name" then Str(m.name)
      else if k == "version" then Str(m.version)
      else if k == "appVersion" && m.appVersion.Some? then Str(m.appVersion.value)
      else Undefined
  {
    var fa, fn, fv := Field("apiVersion", Str(m.apiVersion)), Field("name", Str(m.name)), Field("version", Str(m.version));
    var tail := if m.appVersion.Some? then [Field("appVersion", Str(m.appVersion.value))] else [];
    assert EncodeChartMetadata(m).fields == [fa] + ([fn] + ([fv] + tail));
    GetCons(fa, [fn] + ([fv] + tail), k);
    GetCons(fn, [fv] + tail, k);
    GetCons(fv, tail, k);
    if m.appVersion.Some? {
      GetCons(tail[0], [], k);
      assert tail == [tail[0]] + [];
    }
  }

  lemma ChartMetadataRoundTrip(m: ChartMetadata)
    ensures DecodeChartMetadata(EncodeChartMetadata(m)) == Some(m)
  {
    var fs := EncodeChartMetadata(m).fields;
    EncodedMetadataFields(m, "apiVersion");
    EncodedMetadataFields(m, "name");
    EncodedMetadataFields(m, "version");
    EncodedMetadataFields(m, "appVersion");
    EncodedMetadataFields(m, "kubeVersion");
    EncodedMetadataFields(m, "description");
    EncodedMetadataFields(m, "type");
    EncodedMetadataFields(m, "keywords");
    EncodedMetadataFields(m, "home");
    EncodedMetadataFields(m, "sources");
    EncodedMetadataFields(m, "icon");
    EncodedMetadataFields(m, "deprecated");
    assert MetadataShape(fs);
  }

  lemma {:induction false} GetAppendOther(fs: seq<Field>, f: Field, k: string)
    requires k != f.key
    ensures Get(fs + [f], k) == Get(fs, k)
  {
    if fs != [] {
      assert (fs + [f])[1..] == fs[1..] + [f];
      GetAppendOther(fs[1..], f, k);
    }
  }

  /** A release object may carry any further property: it does not change the decoding. */
  lemma ReleaseIgnoresExtraFields(fs: seq<Field>, extra: Field)
    requires extra.key !in {"apiVersion", "version", "name", "urls"}
    ensures DecodeRelease(Obj(fs + [extra])) == DecodeRelease(Obj(fs))
  {
    GetAppendOther(fs, extra, "apiVersion");
    GetAppendOther(fs, extra, "version");
    GetAppendOther(fs, extra, "name");
    GetAppendOther(fs, extra, "urls");
  }

  /**
   * A kubectl version output: `key` holds an object whose `gitVersion` is
   * `git`, followed by any other properties, and the output may carry any
   * other properties after it.
   */
  function VersionOutput(key: string, git: Value, inner: seq<Field>, outer: seq<Field>): Value {
    Obj([Field(key, Obj([Field("gitVersion", git)] + inner))] + outer)
  }

  /**
   * Either version output is accepted exactly when its `gitVersion` is a
   * non-empty string, whatever else it carries; without the version object
   * at all it is refused.
   */
  lemma VersionOutputChecks(git: Value, inner: seq<Field>, outer: seq<Field>)
    ensures ValidClientVersionOutput(VersionOutput("clientVersion", git, inner, outer)) <==> git.Str? && git.s != ""
    ensures ValidServerVersionOutput(VersionOutput("serverVersion", git, inner, outer)) <==> git.Str? && git.s != ""
    ensures !Has(outer, "clientVersion") ==> !ValidClientVersionOutput(Obj(outer))
    ensures !Has(outer, "serverVersion") ==> !ValidServerVersionOutput(Obj(outer))
  {
    var versionObj := Obj([Field("gitVersion", git)] + inner);
    GetCons(Field("clientVersion", versionObj), outer, "clientVersion");
    GetCons(Field("serverVersion", versionObj), outer, "serverVersion");
    GetCons(Field("gitVersion", git), inner, "gitVersion");
  }

  /** Further properties, outside or inside the version object, do not change whether the output is accepted. */
  lemma VersionOutputIgnoresExtraFields(fs: seq<Field>, inner: seq<Field>, extra: Field, extraInner: Field)
    requires extra.key !in {"clientVersion", "serverVersion"} && extraInner.key != "gitVersion"
    ensures ValidClientVersionOutput(Obj(fs + [extra])) == ValidClientVersionOutput(Obj(fs))
    ensures ValidServerVersionOutput(Obj(fs + [extra])) == ValidServerVersionOutput(Obj(fs))
    ensures NonEmptyGitVersion(Obj(inner + [extraInner])) == NonEmptyGitVersion(Obj(inner))
  {
    GetAppendOther(fs, extra, "clientVersion");
    GetAppendOther(fs, extra, "serverVersion");
    GetAppendOther(inner, extraInner, "gitVersion");
  }
}
