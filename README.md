# helmet core, modelled in Dafny

helmet is a Deno command-line tool that manages Kubernetes deployments as
TypeScript "bundles" of Helm charts. This project models the parts of it that
decide what happens:

- `helmet update` (`update.ts`): brings each vendored chart up to date. It
  picks the release to download from a Helm repository index, compares the
  local chart with a pinned OCI or archive version, and replaces the chart
  directory. It also caches index downloads per URL.
- `typeify` (`typeify.ts`): generates TypeScript types from chart values and
  CRD schemas. This covers type classification, comment blocks, the known-key
  table, object and array typing, CRD schema adaptation and import merging.
- `deepMerge` (`patch_utils.ts`): an in-place recursive merge of plain
  objects. It is modelled twice: once on a heap of mutable objects, and once
  as a function on values that the heap version is proved against.
- `helmet compile` (`compile.ts`, `iac_utils.ts`): turns chart instances into
  three sub-charts (CRDs, namespaces, resources). It also covers
  post-processing of `helm template` output, chart-instance compilation,
  reading a chart's `crds/`, and rejection of duplicate instances and
  resources.
- `helmet install` (`install.ts`): builds the `helm install` /
  `helm upgrade` argv, redacts echoed output, and orders the CRD apply step
  before the two release steps.
- The whitelist actions: `whitelist_instance.ts`, `blacklist_instance.ts`,
  the legacy `blacklist-instance.ts` and `ensure_instance_whitelisted.ts`.
  They read and write the `helmet-whitelist` ConfigMap, a set of release ids
  each mapped to `"yes"`.
- The schema records they decode (`types.ts`).

JavaScript values are the datatype `JsValues.Value`. Its objects are ordered
field lists. Commands, the file system, the network, YAML/JSON parsing and
semver are parameters: a command is its argv, and whether it succeeds is a
predicate passed in. In `helmet update` that predicate is keyed by chart
name, and in `helmet install` by phase (CRD apply, namespaces release,
resources release), so each chart's or phase's commands succeed or fail on
their own.

Files:

- `common.dfy`: Option, Result, exit codes and string helpers.
- `values.dfy`: JS values.
- `types.dfy`, `update.dfy`, `typeify.dfy`, `patch_utils.dfy`, `k8s.dfy`
  (the Kubernetes resource and CRD shapes the code checks), `compile.dfy`,
  `iac_utils.dfy`, `install.dfy` and `whitelist.dfy`.

## Model

| member | source | states |
|---|---|---|
| Types.DecodeRelease | src/libs/types.ts:5-12 | decoding succeeds exactly when version, name and urls are strings / a string array and apiVersion is absent or a string; the record carries those fields |
| Types.ReleaseRoundTrip | src/libs/types.ts:5-12 | decoding an encoded release gives the same release back |
| Types.ReleaseIgnoresExtraFields | src/libs/types.ts:5-12 | additional properties do not change the decoded release |
| Types.DecodeReleases | src/libs/types.ts:16-24 | a release list decodes iff every element has the release shape, element by element |
| Types.DecodeIndex | src/libs/types.ts:16-24 | an index decodes iff apiVersion is a string and every entry is a release list; the decoded apiVersion is the document's, the decoded entry names are exactly the object's keys, and each name maps to its decoded release list |
| Types.DecodeChartMetadata | src/libs/types.ts:75-93 | Chart.yaml metadata decodes iff apiVersion, name and version are strings and appVersion is absent or a string; absence maps to None |
| Types.ChartMetadataRoundTrip | src/libs/types.ts:75-93 | decoding encoded metadata gives it back |
| Types.VersionOutputChecks | src/libs/types.ts:119-137 | either kubectl version output is accepted iff its `gitVersion` is a non-empty string, whatever other properties it carries; without the version object it is refused |
| Types.VersionOutputIgnoresExtraFields | src/libs/types.ts:119-137 | further properties of the output or of the version object (other than the checked ones) never change whether the output is accepted |
| Update.CurrentMetadata | src/actions/update.ts:38-63 | no metadata iff the chart directory is absent; a present chart with invalid Chart.yaml is an error |
| Update.IndexCache.Fetch | src/actions/update.ts:65-76 | returns the answer cached for the URL, or fetches it once and caches it; at most one request per URL ever |
| Update.DistinctCount | src/actions/update.ts:65-76 | a request log without repeats holds each URL at most once |
| Update.ChartWorkspace.UpdateFromSource | src/actions/update.ts:89-111 | dispatches on the remote source; the new chart, trace and result are those of that source's run; the cache is untouched unless a Helm repository index is needed, and then it has done exactly one fetch of that URL |
| Update.ChartWorkspace.UpdateChart | src/actions/update.ts:78-118 | the source's run followed by `onUpdated` iff it succeeded and the hook is configured; the new chart, trace and result are those of ChartRun; the cache is untouched unless a Helm repository index is needed, and then it has done exactly one fetch of that URL |
| Update.OnUpdatedOnlyOnSuccess | src/actions/update.ts:113-115 | the onUpdated hook runs iff it is configured and the source update returned a success |
| Update.ChartWorkspace.UpdateRemoteArchive | src/actions/update.ts:120-210 | the outcome, chart and appended trace are those of ArchiveRun |
| Update.ArchiveRun | src/actions/update.ts:120-210 | never runs the onUpdated hook itself |
| Update.ArchiveUpToDate | src/actions/update.ts:131-137 | "already up to date" iff the local chart's version equals the pinned version, and then nothing is run or changed |
| Update.ArchiveRunSafe | src/actions/update.ts:143-188 | the chart directory is removed only after every staging step succeeded; an unsupported archive suffix changes nothing and reports no update |
| Update.RemovedButNotInstalled | src/actions/update.ts:178-188 | if the move into place fails after removal, the chart is left absent and no success is reported |
| Update.ChartWorkspace.UpdateOci | src/actions/update.ts:212-297 | the outcome, chart and appended trace are those of OciRun |
| Update.OciRun | src/actions/update.ts:212-297 | never runs the onUpdated hook itself |
| Update.OciUpToDate | src/actions/update.ts:225-231 | "already up to date" iff the local appVersion equals the pin, and then nothing is run or changed |
| Update.OciRunSafe | src/actions/update.ts:233-297 | the chart directory is removed only after the OCI pull/extract staging succeeded; on success the new chart is installed |
| Update.FilterByApiVersion | src/actions/update.ts:342 | keeps exactly the entries whose apiVersion matches the requested one; everything when none is requested |
| Update.Candidates | src/actions/update.ts:344-352 | exactly the entries whose version coerces, each paired with its coerced version |
| Update.CandidatesAppend | src/actions/update.ts:344-352 | candidates keep index order: those of two lists in sequence are the candidates of each, concatenated |
| Update.MaxSatisfying | src/actions/update.ts:356-359 | none iff no candidate satisfies the range; otherwise a satisfying candidate no other satisfying one exceeds, the first such |
| Update.SelectedIsMaximal | src/actions/update.ts:342-359 | the selected release is in the index, matches the apiVersion filter, coerces, satisfies the range and is maximal among satisfying filtered entries |
| Update.UncoercibleNeverSelected | src/actions/update.ts:344-352 | a selected release always has a coercible version |
| Update.NoneSatisfiesExactly | src/actions/update.ts:361-368 | the "no satisfying version" failure happens iff no coerced version satisfies the range, and it lists every coerced version in order |
| Update.HelmIndexErrors | src/actions/update.ts:321-340 | an index failing validation throws; a chart missing from the index is a failure result without a download |
| Update.HelmDecide | src/actions/update.ts:313-387 | a decision that ends without downloading never reports an update |
| Update.DecideRelease | src/actions/update.ts:374-386 | a decision that ends without downloading never reports an update |
| Update.HelmDownloadsIff | src/actions/update.ts:374-386 | downloads iff a release is selected with a non-empty first URL and there is no local chart or its version differs; equal versions report "not updated" at the selected version |
| Update.HelmRun | src/actions/update.ts:389-423 | never runs the onUpdated hook itself |
| Update.HelmRunSafe | src/actions/update.ts:389-423 | with nothing to download nothing runs and the chart is unchanged; otherwise removal happens only after a successful download into the temp dir |
| Update.ChartWorkspace.UpdateHelmRepo | src/actions/update.ts:299-432 | the outcome, chart and trace are those of HelmRun over the cached index answer; the cache is consulted once a local chart's metadata is readable |
| Update.Stage | src/actions/update.ts:139-209 | reports the first failing step iff one fails, and always ends by removing the temp dir |
| Update.StageAfterStaging | src/actions/update.ts:143-188 | removal of the chart directory implies every staging step succeeded; a failed staging step leaves the chart as it was |
| Update.ChartWorkspace.StageInTemp | src/actions/update.ts:139-209 | runs the plan step by step in a temp dir, stopping at the first failure, and the trace and chart match Stage |
| Update.ChartWorkspace.DownloadInTemp | src/actions/update.ts:139-209 | outcome, chart and trace are those of StagedRun |
| Update.ChartWorkspace.Perform | src/actions/update.ts:139-209 | records the step; applies it to the chart iff it succeeds |
| Update.StagedRun | src/actions/update.ts:139-209 | runs only steps of the plan plus temp-dir creation and removal |
| Update.StagedRunSafe | src/actions/update.ts:139-209 | the shared download/replace sequence removes the old chart only after staging succeeded, and a complete run installs the incoming chart |
| Update.ReplaceInstalls | src/actions/update.ts:178-188 | remove, move into place and the hooks leave exactly the incoming chart |
| Update.InstallThenHooks | src/actions/update.ts:178-188 | hook steps after the move do not change the installed chart |
| Update.ApplyAllAppend | src/actions/update.ts:139-209 | running two step lists in sequence equals running their concatenation |
| Update.SelectCharts | src/actions/update.ts:482-484 | keeps exactly the chart names containing the `only` filter, or all of them without a filter |
| Update.SelectChartsAppend | src/actions/update.ts:482-484 | the filter keeps manifest order: selecting from two lists in sequence is selecting from each and concatenating |
| Update.ReportLine | src/actions/update.ts:499-528 | tags the chart; "updated from … to …" iff the result is an update, with "never" for no previous version; a failure line iff the result is not a success |
| Update.UpdateCommand | src/actions/update.ts:454-535 | exits One with no reports iff a preflight check fails; otherwise exits Zero with one report per chart the `only` filter selects, in manifest order, tagged with its name; an "updated" line iff that chart's own update run updated it, a failure line iff that run did not succeed |
| Update.ReportsSnoc | src/actions/update.ts:482-531 | one more selected chart adds exactly its own report line at the end |
| Update.UpdateAndReport | src/actions/update.ts:486-530 | one chart's task: its report line is that of its own update run, the shared cache stays valid and agrees with the network, and gains at most this chart's repository URL |
| Update.UpdateEach | src/actions/update.ts:482-533 | the selected charts run against one shared cache yield exactly their report lines, and only their repository URLs are requested |
| Update.RunUpdate | src/actions/update.ts:454-535 | the whole command: its exit code and reports are those of UpdateCommand, with a fresh shared cache in which no index URL is requested twice and only URLs of selected Helm-repository charts are requested |
| Typeify.ClassifyType | src/actions/typeify.ts:27-47 | arrays, non-null objects, the four primitive typeof names and everything else (null, undefined, bigint, function) are told apart exactly |
| Typeify.StringifyOutcome | src/actions/typeify.ts:202-209 | JSON.stringify throws iff a bigint is reachable, and gives no text iff the value is undefined, a function or a symbol |
| Typeify.ToCommentBlock | src/actions/typeify.ts:202-209 | a comment exists iff the value stringifies to text |
| Typeify.EscapedHasNoTerminator | src/actions/typeify.ts:202-209 | escaping leaves no `*/` in the comment body |
| Typeify.CommentBlockClosesOnce | src/actions/typeify.ts:202-209 | every comment block starts with `/* ` and its first `*/` is its final two characters |
| Typeify.KnownDefImportsInTable | src/actions/typeify.ts:179-193 | every import of a known-key type comes from the fixed table |
| Typeify.KnownKeyTyping | src/actions/typeify.ts:211-222 | a value meeting the key's expectation gets the fixed type, its comment and imports; otherwise the unknown-key typing |
| Typeify.TolerationsAcceptArray | src/actions/typeify.ts:135-144 | a tolerations array is typed as `IoK8sApiCoreV1PodSpec['tolerations']` with that single import |
| Typeify.UnknownKeyShapes | src/actions/typeify.ts:224-267 | primitives become their typeof name plus a comment; a one-element array becomes `Array<…>` of its element's type; other arrays become `any[]` plus a comment |
| Typeify.UnknownKeyImportsFromTable | src/actions/typeify.ts:224-267 | the imports of any generated unknown-key type come from the fixed table |
| Typeify.ObjectTypeSucceeds | src/actions/typeify.ts:269-308 | an object is typed iff every entry is |
| Typeify.ObjectTypeLines | src/actions/typeify.ts:269-308 | one `"key"?: type` line per entry, in entry order |
| Typeify.ObjectTypeImports | src/actions/typeify.ts:269-308 | the imports are the entries' imports concatenated in entry order |
| Typeify.EntriesImportsFromTable | src/actions/typeify.ts:269-308 | every import of an object type comes from the fixed table |
| Typeify.AdaptCrdSchema | src/actions/typeify.ts:363-425 | non-objects and schemas that are neither object-with-properties nor array-with-items are returned unchanged |
| Typeify.AdaptCloses | src/actions/typeify.ts:363-425 | every object schema in an adapted result forbids additional properties |
| Typeify.OneOfDropsParentProperties | src/actions/typeify.ts:377-395 | a oneOf schema loses its own properties, forbids additional ones, keeps one branch per original branch and closes each branch with properties |
| Typeify.OneOfSchemaShape | src/actions/typeify.ts:377-395 | the same shape holds for the oneOf branch of the adaptation |
| Typeify.OneOfItemClosed | src/actions/typeify.ts:328-356 | an adapted oneOf item with properties is an object with properties that forbids additional ones |
| Typeify.OneOfPropertyTyping | src/actions/typeify.ts:328-356 | a null property takes the parent's type; an object property keeps its own type or takes the parent's; other primitives are unchanged |
| Typeify.OneOfProperties | src/actions/typeify.ts:328-356 | one adapted property per original property, in order |
| Typeify.AdaptOneOfItems | src/actions/typeify.ts:377-395 | on success, each item is adapted in place, in order |
| Typeify.AdaptPropertiesSucceeds | src/actions/typeify.ts:397-413 | properties adapt iff every object-valued property adapts |
| Typeify.AdaptPropertiesPointwise | src/actions/typeify.ts:397-413 | each property keeps its key; object values are replaced by their adaptation, others kept |
| Typeify.ArrayBranchCloses | src/actions/typeify.ts:417-422 | an adapted array schema's items are closed |
| Typeify.GroupIndex | src/actions/typeify.ts:596-615 | finds the import group for a module, or -1 iff there is none |
| Typeify.AddAll | src/actions/typeify.ts:607 | appends the props not yet present: no duplicates, old order kept as prefix, union of names; the result is the insertion-ordered set of the old names followed by the props |
| Typeify.AddImport | src/actions/typeify.ts:596-615 | adding one import keeps exactly one group per module, each holding the union of its props, and the groups in first-import order |
| Typeify.MergeImports | src/actions/typeify.ts:596-615 | exactly one group per distinct `from`, in the order the modules are first imported from; each group lists the names imported from its module once each, in the order they are first imported |
| Typeify.ImportBlock | src/actions/typeify.ts:596-615 | the emitted text is one import line per merged group of generated and patch imports, groups in first-import order and names within a group in first-import order |
| PatchUtils.DeepMergeAll | src/libs/patch_utils.ts:1-33 | a non-mergeable target is returned unchanged; a mergeable target stays a plain object |
| PatchUtils.MergeFieldsGet | src/libs/patch_utils.ts:16-29 | after merging one source, a key present in it holds the merged slot; other keys are unchanged |
| PatchUtils.OverwriteNonMergeable | src/libs/patch_utils.ts:25-27 | a primitive, array or null source value overwrites the target key |
| PatchUtils.AbsentKeysUnchanged | src/libs/patch_utils.ts:16 | target keys the source lacks keep their values |
| PatchUtils.NestedObjectsMerge | src/libs/patch_utils.ts:18-24 | a plain-object source value merges recursively into an object slot, or into a fresh `{}` when the slot is falsy |
| PatchUtils.NonMergeableSlotKept | src/libs/patch_utils.ts:18-24 | an object source value landing on a truthy non-object slot leaves that slot unchanged |
| PatchUtils.DeepMergeAllAppend | src/libs/patch_utils.ts:10-32 | merging a list of sources equals merging the first part, then the rest, left to right |
| PatchUtils.UndefinedStops | src/libs/patch_utils.ts:10-13 | an undefined source stops the merge; later sources are ignored |
| PatchUtils.LastSourceWins | src/libs/patch_utils.ts:10-32 | a non-mergeable value in the last source is the final value of its key |
| PatchUtils.MergeFieldsUnique | src/libs/patch_utils.ts:16-29 | merging never creates a duplicate key |
| PatchUtils.MergeFieldCases | src/libs/patch_utils.ts:18-24 | an object source value is skipped, merged into the slot, or merged into a fresh `{}`, by the slot's kind |
| PatchUtils.JsObject.FindKey | src/libs/patch_utils.ts:16-17 | finds the slot holding a key, or -1 iff the object lacks it |
| PatchUtils.JsObject.AssignValue | src/libs/patch_utils.ts:25-27 | assigning a non-object value sets that key and changes nothing else |
| PatchUtils.JsObject.AssignEmpty | src/libs/patch_utils.ts:19-21 | a falsy slot is replaced by a fresh empty object |
| PatchUtils.JsObject.MergeChild | src/libs/patch_utils.ts:22 | merging into a child object replaces that slot's value by the merge of the old value and the source |
| PatchUtils.JsObject.MergeIntoEmpty | src/libs/patch_utils.ts:18-24 | a falsy slot becomes `{}` and then receives the merge of the source |
| PatchUtils.JsObject.MergeKey | src/libs/patch_utils.ts:16-29 | the object's contents become the functional single-key merge of the old contents |
| PatchUtils.JsObject.MergeFrom | src/libs/patch_utils.ts:15-30 | the object's contents become the functional merge of one source |
| PatchUtils.DeepMerge | src/libs/patch_utils.ts:1-33 | mutates and returns the same target, whose contents become DeepMergeAll of the old contents and the sources |
| Compile.NonNamespaceDocs | src/actions/compile.ts:20-23 | keeps exactly the documents that are not Namespaces |
| Compile.NamespaceDocs | src/actions/compile.ts:20-23 | keeps exactly the Namespace documents |
| Compile.PartitionSizes | src/actions/compile.ts:20-23 | the two filters partition the documents |
| Compile.NameLabelled | src/actions/compile.ts:21-35 | a namespace gets label `kubernetes.io/metadata.name` equal to its name; all other labels and fields are kept |
| Compile.NamespacesRendered | src/actions/compile.ts:21-35 | every rendered namespace document is a Namespace labelled with its own name |
| Compile.InstanceDefaults | src/actions/compile.ts:38-51 | a missing namespace becomes the instance namespace; labels are the instance labels overridden by the document's own; other fields are kept |
| Compile.ResourcesRendered | src/actions/compile.ts:38-51 | every rendered resource is a non-Namespace with a namespace |
| Compile.RenderedCount | src/actions/compile.ts:20-51 | every instance resource is rendered to exactly one of the two outputs |
| Compile.ChildChartFiles | src/actions/compile.ts:53-79 | the resources file is the YAML stream of the non-namespace resources with the instance defaults, the namespaces file that of the name-labelled namespaces; the CRDs file exists iff the CRD stream is non-empty, and then holds it |
| Compile.ChartYamlDecodes | src/actions/compile.ts:95-103 | each generated Chart.yaml decodes as apiVersion v2 metadata with the given name and version |
| Compile.ChartYamlGet | src/actions/compile.ts:95-103 | a generated Chart.yaml holds apiVersion v2, type application, the name and the version, and nothing else |
| Compile.SubChartsAreCharts | src/actions/compile.ts:126-146 | there are three sub-charts, each with valid v2 metadata |
| Compile.SubChartNamesDistinct | src/actions/compile.ts:126-146 | the crds, namespaces and resources sub-charts have distinct names |
| Compile.CountNames | src/actions/compile.ts:194-198 | counts every instance name's occurrences, in a map listing the names in first-occurrence order |
| Compile.CountStep | src/actions/compile.ts:194-198 | counting one more name keeps the map the counts of the longer list, in first-occurrence order |
| Compile.FirstRepeated | src/actions/compile.ts:243-247 | none iff no name repeats; otherwise the first repeated name in insertion order, with its count |
| Compile.ResourceKeyOf | src/actions/compile.ts:200-216 | a non-Namespace without a namespace counts under the instance namespace; other documents under their own namespace, or "" if absent |
| Compile.Set | src/actions/compile.ts:221-237 | the insertion-ordered map gains the key in its order only when new |
| Compile.BumpIn | src/actions/compile.ts:217-241 | adds one to exactly the (namespace, name) counter |
| Compile.Bump | src/actions/compile.ts:217-241 | adds one to exactly that resource key's counter |
| Compile.CountResources | src/actions/compile.ts:217-241 | each resource key's counter equals its number of occurrences |
| Compile.RepeatedInNamespace | src/actions/compile.ts:249-261 | none iff no name in the namespace repeats; otherwise a repeated name and its count |
| Compile.RepeatedInKind | src/actions/compile.ts:249-261 | none iff no name repeats in any namespace of the kind |
| Compile.RepeatedResource | src/actions/compile.ts:249-261 | none iff no resource key repeats; otherwise a repeated key and its count |
| Compile.InstanceNames | src/actions/compile.ts:194-198 | the instances' names, in order |
| Compile.Compile | src/actions/compile.ts:177-282 | missing release id, then a non-array create() result, are errors before anything else; success iff instance names and resource keys are unique, and then the bundle is generated; a duplicate-instance error names the first repeated name in first-occurrence order, with its count |
| Compile.RenderedFilesDistinct | src/actions/compile.ts:64-79 | with unique instance names, every child chart's files belong to a distinct instance |
| IacUtils.TruthyDocs | src/libs/iac_utils.ts:188 | keeps exactly the truthy documents |
| IacUtils.ValidateResources | src/libs/iac_utils.ts:189-204 | succeeds unchanged iff every document is a Kubernetes resource; an error names an invalid document |
| IacUtils.ResourceErrorIsFirst | src/libs/iac_utils.ts:189-204 | the resource error names the first document that is not a valid resource |
| IacUtils.HelmTemplateOutput | src/libs/iac_utils.ts:185-221 | falsy documents are dropped; an invalid one aborts; the namespace document is appended iff creation is not disabled and none exists |
| IacUtils.HelmTemplateFirstInvalid | src/libs/iac_utils.ts:185-204 | a rejected output is rejected for its first invalid truthy document |
| IacUtils.HelmTemplateResources | src/libs/iac_utils.ts:206-221 | the output holds only valid resources and includes the namespace unless creation is disabled |
| IacUtils.HelmTemplateIdempotent | src/libs/iac_utils.ts:206-221 | post-processing its own output returns it unchanged |
| IacUtils.NamespaceDocIsNamespace | src/libs/iac_utils.ts:212-218 | the appended document is a valid Namespace named after the instance namespace |
| IacUtils.ChartCrdsValid | src/libs/iac_utils.ts:109-139 | a missing crds directory gives no CRDs; otherwise success iff every file holds only CRDs, and then all results are CRDs |
| IacUtils.ReadChartCrds | src/libs/iac_utils.ts:109-139 | accumulating file by file gives the all-files result |
| IacUtils.FirstInvalidFile | src/libs/iac_utils.ts:109-139 | the first file holding a non-CRD |
| IacUtils.Flatten | src/libs/iac_utils.ts:109-139 | keeps every document of every file |
| IacUtils.OfKind | src/libs/iac_utils.ts:231-233 | splits documents into CRDs and non-CRDs |
| IacUtils.OfKindSizes | src/libs/iac_utils.ts:231-233 | the two kinds partition the documents |
| IacUtils.ValidateCrds | src/libs/iac_utils.ts:232-246 | succeeds unchanged iff every document is a CRD; an error names an invalid document |
| IacUtils.CrdErrorIsFirst | src/libs/iac_utils.ts:232-246 | the CRD error names the first document that is not a valid CRD |
| IacUtils.CompiledInstance | src/libs/iac_utils.ts:226-264 | resources hold no CRDs; CRDs are the chart's crds/ followed by rendered CRDs; name, namespace and version come from config and Chart.yaml |
| IacUtils.CompileErrorOrder | src/libs/iac_utils.ts:226-248 | invalid Chart.yaml is reported first, then a failing helm template |
| IacUtils.InstanceLabelsValid | src/libs/iac_utils.ts:254-260 | the instance labels are string labels |
| IacUtils.InstanceLabelValues | src/libs/iac_utils.ts:254-260 | the five standard Helm labels, with the chart name-version, instance name, appVersion or "", and Helm as manager |
| IacUtils.DefineBundleInstance | src/libs/iac_utils.ts:277-291 | succeeds iff the inputs validate, and then with the factory's result on them; otherwise fails carrying the raw inputs |
| Install.HelmLsNames | src/actions/install.ts:50-62 | accepts the helm ls output iff it is an array of entries with all seven string fields, and lists their names in order |
| Install.HelmArgv | src/actions/install.ts:64-93 | `helm upgrade` iff the release is listed, `helm install` otherwise; namespace after the verb; release name and chart path last |
| Install.UpgradeFlagsOrdered | src/actions/install.ts:64-80 | optional upgrade flags appear in the fixed order |
| Install.UpgradeFlagsPresent | src/actions/install.ts:71-77 | each optional flag is present iff its option is set; `--timeout=` iff the timeout is a non-empty string |
| Install.InstallFlagsAreUpgradeFlags | src/actions/install.ts:81-93 | install flags are the upgrade flags without cleanup-on-fail and force |
| Install.HistoryMaxOnlyOnUpgrade | src/actions/install.ts:70 | upgrade carries `--history-max=2`; install never does |
| Install.FlagTextInjective | src/actions/install.ts:71-77 | distinct flags are distinct words |
| Install.HelmInstallRun | src/actions/install.ts:50-117 | helm ls runs first; invalid ls output fails before install/upgrade; otherwise the chosen argv runs and the step fails iff it does |
| Install.HelmCommands | src/actions/install.ts:50-117 | every command a release step runs is a helm command |
| Install.EchoedAsWritten | src/actions/install.ts:98-112 | as written, no stdout line is ever echoed |
| Install.FirstMarker | src/actions/install.ts:104 | the index of the first `USER-SUPPLIED VALUES:` line, or the length |
| Install.EchoedIntended | src/actions/install.ts:98-112 | corrected: the lines before the first values marker are echoed |
| Install.RedactionDiscrepancy | src/actions/install.ts:104-110 | on the same single ordinary line, the loop as written echoes nothing while the corrected loop echoes the line |
| Install.RunInstall | src/actions/install.ts:189-256 | the commands run and the failure are those of InstallRun |
| Install.ResourcesListingCanFail | src/actions/install.ts:222-256 | with the namespaces phase succeeding and the resources phase failing, the identical second `helm ls` fails after the namespaces release was installed or upgraded |
| Install.CrdsAppliedFirst | src/actions/install.ts:194-220 | the first command is a server-side, force-conflicts kubectl apply iff there are rendered CRDs; all later commands are helm |
| Install.ReleasesAreHelm | src/actions/install.ts:222-256 | the release steps run only helm commands, at least one |
| Install.ReleasesInOrder | src/actions/install.ts:222-256 | on success the namespaces release is installed before the resources release, with the same flags; invalid namespaces ls output stops before any release step |
| Whitelist.FetchOutcomes | src/actions/whitelist_instance.ts:34-47 | a failure mentioning "not found" and empty output give the empty set; other failures throw with stderr; otherwise the keys mapped to "yes" |
| Whitelist.DecodedMembers | src/actions/whitelist_instance.ts:45-47 | a key is whitelisted iff its value is exactly "yes" |
| Whitelist.EncodeData | src/actions/whitelist_instance.ts:58-60 | one entry per instance, in order, each mapped to "yes" |
| Whitelist.DecodeEncode | src/actions/whitelist_instance.ts:45-60 | decoding the written data gives back the set written |
| Whitelist.WrittenWhitelist | src/actions/whitelist_instance.ts:53-61 | the ConfigMap is `helmet-whitelist` in `default` and decodes to the set written |
| Strings.Dedup | src/actions/whitelist_instance.ts:47 | a duplicate-free sequence with the same members |
| Whitelist.StringSet.FromSeq | src/actions/whitelist_instance.ts:47 | the set holds the distinct keys in first-seen order |
| Whitelist.StringSet.Add | src/actions/whitelist_instance.ts:93 | adds the id at the end unless already present |
| Whitelist.StringSet.Delete | src/actions/blacklist_instance.ts:34 | removes the id, keeping the order of the rest |
| Whitelist.RemoveMembers | src/actions/blacklist_instance.ts:34 | after removal the members are the old ones except the id |
| Whitelist.WhitelistInstance | src/actions/whitelist_instance.ts:86-98 | the outcome is WhitelistOutcome of the fetched set |
| Whitelist.WhitelistAdds | src/actions/whitelist_instance.ts:86-98 | exits Zero and writes exactly the fetched ids plus the release id |
| Whitelist.WhitelistIdempotent | src/actions/whitelist_instance.ts:91-95 | whitelisting an id already present rewrites the same set |
| Whitelist.BlacklistInstance | src/actions/blacklist_instance.ts:18-39 | the outcome is BlacklistOutcome of the fetched set |
| Whitelist.BlacklistRemoves | src/actions/blacklist_instance.ts:18-39 | exits One without writing iff the id is absent; otherwise writes exactly the other ids |
| Whitelist.LegacyBlacklistInstance | src/actions/blacklist-instance.ts:17-37 | the outcome is LegacyBlacklistOutcome of the fetched set, guard as written |
| Whitelist.LegacyNeverRemoves | src/actions/blacklist-instance.ts:23-34 | refuses iff the id is present; whenever it writes, the id was absent and the set is unchanged |
| Whitelist.LegacyRefusesWhitelisted | src/actions/blacklist-instance.ts:23-30 | on whitelist ["a"] and id "a" the legacy action exits One, while the corrected action writes the empty set |
| Whitelist.EnsureWhitelisted | src/actions/ensure_instance_whitelisted.ts:15-45 | never writes; exits One and queries the context iff the id is absent; on Zero prints the id; fetch errors pass through |

## Left out

- JavaScript numbers are unbounded integers. Integer-like object keys, which JavaScript enumerates first, keep insertion order here.
- Aliasing between a merged source and the target is not modelled: sources are values, only the target is a heap object.
- PatchUtils.DeepMerge: the target is modelled as a tree of distinct objects (`JsObject.Valid`): a target in which two properties share one sub-object (`{a: s, b: s}`, or YAML anchors and aliases) or which contains a cycle is not modelled, so that merging into `t.a` also changes `t.b` is not captured.
- PatchUtils.DeepMergeAll: property lookups see own properties only. Names inherited from `Object.prototype` (`toString`, `constructor`, …), which `target[key]` also finds, are absent here: merging `{toString: {a: 1}}` into `{}` leaves `{}` in JavaScript but gives `{toString: {a: 1}}` here. A source key `__proto__` is an ordinary field here, whereas in JavaScript it merges into `Object.prototype` (or is ignored when its value is a primitive).
- PatchUtils.NestedObjectsMerge: as for DeepMergeAll, a slot whose name is inherited from `Object.prototype` is truthy in JavaScript but absent here, so the model creates `{}` where the code keeps the inherited function and merges nothing.
- PatchUtils.MergeFieldCases: the case split looks at own properties only; the inherited-name case of DeepMergeAll above is not modelled.
- Typeify.OneOfPropertyTyping: `propertyTypes[key]` is looked up among own properties only; a oneOf property named after an `Object.prototype` member (such as `constructor`) that the parent does not define gets the inherited function as its `type` in JavaScript but no type here.
- I/O, child processes, the network, `fetch`, `Deno.readTextFile`, globbing and `resolvePath` are parameters; YAML and JSON parsing are parameter functions or values already parsed.
- semver coercion and range satisfaction are parameter functions; versions are (major, minor, patch) ordered lexicographically, without prerelease tags.
- `Promise.all` over the selected charts is modelled as a sequential run, one chart after another (RunUpdate, UpdateEach); the shared index cache is the only shared state. The network is a function of the URL and the cache holds what it gave, so the interleaving does not change any chart's outcome, but the order of the printed lines under concurrency is not modelled.
- Update.UpdateCommand: the code always exits Zero after the per-chart updates, even when some fail, although the command is described as reporting failures; the model follows the code.
- Update.RemovedButNotInstalled: the chart is left absent after a failed move into place, as the code does; no rollback is modelled.
- typeify's file writing, reading of values files, CRD interface generation text and the JSON-schema-to-TypeScript compiler are not modelled; only the type strings and import lists are.
- `isK8sNamespace` from the Kubernetes utilities is taken to mean `kind == "Namespace"`; the Kubernetes resource and CRD schemas are reduced to the fields the code reads.
- Compile.RepeatedResource: states that a repeated resource is reported, not which one is reported first when several repeat.
- Error reasons and messages are named datatype constructors, not the exact strings printed.
- IacUtils.DefineBundleInstance: that the factory is not called on invalid inputs is the lemma FactoryNotCalled, which Dafny proves without proof work.
- IacUtils.DefineBundleInstance: the factory is applied to the raw inputs; the value the schema validation yields is taken to equal them (no defaults or coercions), and the factory's promise is not modelled.
- A `helm ls` output that is not JSON at all (JSON.parse throwing) is not distinguished from output failing validation.
- Whitelist.DecodeData: a JSON value from kubectl that is not an object is an error here, whereas JavaScript would read the keys of an array or string.
- `loadInstanceId` is imported by the blacklist and ensure actions but is not defined in `whitelist_instance.ts`; the instance id is a parameter. `whitelist-instance.ts`, imported by the legacy action, is not part of this model; it is assumed to behave like `whitelist_instance.ts`.
- The current-context query failing, and the `kubectl apply` of the whitelist ConfigMap failing, are not modelled; `createK8sConfigMap` is reduced to name, namespace and data, and its JSON serialisation is left out.
- Console output other than the ensure action's printed id is not modelled.
- Install.RunInstall: `joinPath(resolvedSource, "namespaces")` and the other `joinPath` calls are written as `resolvedSource + "/namespaces"`; the normalisation `joinPath` performs (repeated or trailing separators, `..` segments) is not modelled.

## Findings

| source | as written | input that shows it | evidently intended | confidence | as-written member | corrected member |
|---|---|---|---|---|---|---|
| src/actions/install.ts:104-110 | the redaction flag is set when it is still false, so it is set on the very first line and no stdout line is ever echoed | helm prints one line `Release "x" has been upgraded.` | echo lines until the `USER-SUPPLIED VALUES:` marker, then redact | not executed | Install.EchoedAsWritten | Install.EchoedIntended |
| src/actions/blacklist-instance.ts:23-30 | the guard refuses ids that ARE whitelisted, so it can never remove anything | whitelist ["a"], instance id "a" | refuse only ids that are not whitelisted, then remove the id | not executed | Whitelist.LegacyBlacklistInstance | Whitelist.BlacklistInstance |
