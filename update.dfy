/**
 * `helmet update`: bringing each local chart directory up to date with its
 * remote source. A Helm repository source picks the highest release that
 * satisfies a semver range; OCI and archive sources are exact pins. A chart
 * that needs downloading is staged in a temporary directory, and only then is
 * the old chart directory removed and the new one moved into place.
 *
 * Every shell command, file operation and hook is an abstract `Step` that the
 * environment lets succeed or fail; the network, the YAML parser, URL
 * resolution and the semver library are parameters.
 */
module Update {
  import opened Common
  import opened Strings
  import opened JsValues
  import opened Types

  // ---------------------------------------------------------------------------
  // Versions

  /** A version as `coerce` returns it: major, minor and patch, no pre-release part. */
  datatype SemVer = SemVer(major: nat, minor: nat, patch: nat)

  /** Semver precedence: `a` sorts strictly before `b`. */
  predicate Less(a: SemVer, b: SemVer) {
    a.major < b.major ||
    (a.major == b.major && (a.minor < b.minor || (a.minor == b.minor && a.patch < b.patch)))
  }

  /** The `version` text of a parsed version. */
  function VersionText(v: SemVer): string {
    NatToString(v.major) + "." + NatToString(v.minor) + "." + NatToString(v.patch)
  }

  /** The semver library, seen from the outside: `coerce` may fail, `satisfies` tests a range. */
  datatype SemverLib = SemverLib(coerce: string -> Option<SemVer>, satisfies: (SemVer, string) -> bool)

  /** An index release whose version text coerced, with the version it coerced to. */
  datatype Candidate = Candidate(version: SemVer, release: ChartRepoRelease)

  /** The releases kept by the optional `apiVersion` filter, in index order. */
  function FilterByApiVersion(entries: seq<ChartRepoRelease>, api: Option<HelmApiVersion>): (r: seq<ChartRepoRelease>)
    ensures api.None? ==> r == entries
    ensures forall e :: e in r <==>
      e in entries && (api.Some? ==> e.apiVersion == Some(HelmApiVersionText(api.value)))
  {
    if api.None? || entries == [] then entries
    else
      var rest := FilterByApiVersion(entries[1..], api);
      assert forall e :: e in entries <==> e == entries[0] || e in entries[1..];
      if entries[0].apiVersion == Some(HelmApiVersionText(api.value)) then [entries[0]] + rest else rest
  }

  /** The releases whose version coerces, each paired with its coerced version, in order. */
  function Candidates(entries: seq<ChartRepoRelease>, lib: SemverLib): (r: seq<Candidate>)
    ensures |r| <= |entries|
    ensures forall c :: c in r ==> c.release in entries && lib.coerce(c.release.version) == Some(c.version)
    ensures forall e :: e in entries && lib.coerce(e.version).Some? ==>
      Candidate(lib.coerce(e.version).value, e) in r
  {
    if entries == [] then []
    else
      var rest := Candidates(entries[1..], lib);
      assert forall e :: e in entries <==> e == entries[0] || e in entries[1..];
      match lib.coerce(entries[0].version)
      case Some(v) => [Candidate(v, entries[0])] + rest
      case None => rest
  }

  /**
   * Candidates keep index order: the candidates of two lists in sequence are
   * those of each, concatenated.
   */
  lemma {:induction false} CandidatesAppend(a: seq<ChartRepoRelease>, b: seq<ChartRepoRelease>, lib: SemverLib)
    ensures Candidates(a + b, lib) == Candidates(a, lib) + Candidates(b, lib)
  {
    if a == [] {
      assert a + b == b;
    } else {
      assert (a + b)[0] == a[0] && (a + b)[1..] == a[1..] + b;
      CandidatesAppend(a[1..], b, lib);
    }
  }

  /**
   * `maxSatisfying`: the position of the highest candidate satisfying the
   * range, scanning left to right and replacing the best only by a strictly
   * higher one, so the first of equal maxima wins.
   */
  function MaxSatisfying(cs: seq<Candidate>, range: string, lib: SemverLib): (r: Option<nat>)
    ensures r.None? <==> forall i :: 0 <= i < |cs| ==> !lib.satisfies(cs[i].version, range)
    ensures r.Some? ==>
      && r.value < |cs|
      && lib.satisfies(cs[r.value].version, range)
      && (forall i :: 0 <= i < |cs| && lib.satisfies(cs[i].version, range) ==>
            !Less(cs[r.value].version, cs[i].version))
      && (forall i :: 0 <= i < r.value && lib.satisfies(cs[i].version, range) ==>
            Less(cs[i].version, cs[r.value].version))
  {
    if cs == [] then None
    else
      var n := |cs| - 1;
      var best := MaxSatisfying(cs[..n], range, lib);
      assert forall i :: 0 <= i < n ==> cs[..n][i] == cs[i];
      if lib.satisfies(cs[n].version, range) && (best.None? || Less(cs[best.value].version, cs[n].version))
      then Some(n)
      else best
  }

  /** What version selection yields: a release, or the versions that were on offer. */
  datatype Selection = Selected(release: ChartRepoRelease) | NoneSatisfies(available: seq<string>)

  /** The release `updateHelmRepoChart` settles on among a chart's index entries. */
  function SelectRelease(entries: seq<ChartRepoRelease>, api: Option<HelmApiVersion>, range: string,
                         lib: SemverLib): Selection
  {
    var cs := Candidates(FilterByApiVersion(entries, api), lib);
    match MaxSatisfying(cs, range, lib)
    case Some(i) => Selected(cs[i].release)
    case None => NoneSatisfies(seq(|cs|, i requires 0 <= i < |cs| => VersionText(cs[i].version)))
  }

  /**
   * The selected release comes from the entries kept by the `apiVersion`
   * filter, its version coerces and satisfies the range, and no other kept
   * entry coerces to a higher satisfying version.
   */
  lemma SelectedIsMaximal(entries: seq<ChartRepoRelease>, api: Option<HelmApiVersion>, range: string,
                          lib: SemverLib)
    requires SelectRelease(entries, api, range, lib).Selected?
    ensures var rel := SelectRelease(entries, api, range, lib).release;
      && rel in entries
      && (api.Some? ==> rel.apiVersion == Some(HelmApiVersionText(api.value)))
      && lib.coerce(rel.version).Some?
      && lib.satisfies(lib.coerce(rel.version).value, range)
      && forall e :: (e in FilterByApiVersion(entries, api) && lib.coerce(e.version).Some? &&
                      lib.satisfies(lib.coerce(e.version).value, range)) ==>
           !Less(lib.coerce(rel.version).value, lib.coerce(e.version).value)
  {
    var cs := Candidates(FilterByApiVersion(entries, api), lib);
    var i := MaxSatisfying(cs, range, lib).value;
    forall e | e in FilterByApiVersion(entries, api) && lib.coerce(e.version).Some? &&
               lib.satisfies(lib.coerce(e.version).value, range)
      ensures !Less(lib.coerce(cs[i].release.version).value, lib.coerce(e.version).value)
    {
      var j :| 0 <= j < |cs| && cs[j] == Candidate(lib.coerce(e.version).value, e);
    }
  }

  /** An entry whose version does not coerce is never the selected release. */
  lemma UncoercibleNeverSelected(entries: seq<ChartRepoRelease>, api: Option<HelmApiVersion>, range: string,
                                 lib: SemverLib)
    requires SelectRelease(entries, api, range, lib).Selected?
    ensures lib.coerce(SelectRelease(entries, api, range, lib).release.version).Some?
  {
    var cs := Candidates(FilterByApiVersion(entries, api), lib);
    assert cs[MaxSatisfying(cs, range, lib).value] in cs;
  }

  /**
   * Selection fails exactly when no kept entry coerces to a version that
   * satisfies the range, and the failure lists every coerced version.
   */
  lemma NoneSatisfiesExactly(entries: seq<ChartRepoRelease>, api: Option<HelmApiVersion>, range: string,
                             lib: SemverLib)
    ensures SelectRelease(entries, api, range, lib).NoneSatisfies? <==>
      forall e :: e in FilterByApiVersion(entries, api) && lib.coerce(e.version).Some? ==>
        !lib.satisfies(lib.coerce(e.version).value, range)
    ensures SelectRelease(entries, api, range, lib).NoneSatisfies? ==>
      var cs := Candidates(FilterByApiVersion(entries, api), lib);
      var listed := SelectRelease(entries, api, range, lib).available;
      |listed| == |cs| && forall i :: 0 <= i < |cs| ==> listed[i] == VersionText(cs[i].version)
  {
    var kept := FilterByApiVersion(entries, api);
    var cs := Candidates(kept, lib);
    if MaxSatisfying(cs, range, lib).Some? {
      var i := MaxSatisfying(cs, range, lib).value;
      assert cs[i] in cs;
    } else {
      forall e | e in kept && lib.coerce(e.version).Some?
        ensures !lib.satisfies(lib.coerce(e.version).value, range)
      {
        var j :| 0 <= j < |cs| && cs[j] == Candidate(lib.coerce(e.version).value, e);
      }
    }
  }

  // ---------------------------------------------------------------------------
  // Steps and the chart directory

  /** The state of the chart directory at `chartPath`: absent, or present with its parsed `Chart.yaml`. */
  datatype ChartDir = Absent | Present(chartYaml: Value)

  /** The effects an update performs, each of which may fail. */
  datatype Step =
    | MakeTempDir
    | DownloadZip(archiveUrl: string)
    | UnzipChart(extractPath: string)
    | MakeOutDir
    | DownloadAndExtract(url: string)
    | HelmPull(ociRef: string, version: string)
    | ExtractPulled
    | RemoveChartDir
    | InstallChart(chartYaml: Value)
    | OnDownloaded
    | Typeify
    | RemoveTempDir
    | OnUpdated

  /** What a step that succeeds does to the chart directory. */
  function Apply(dir: ChartDir, step: Step): ChartDir {
    match step
    case RemoveChartDir => Absent
    case InstallChart(y) => Present(y)
    case _ => dir
  }

  /** The chart directory after a sequence of successful steps. */
  function ApplyAll(dir: ChartDir, steps: seq<Step>): ChartDir
    decreases |steps|
  {
    if steps == [] then dir else Apply(ApplyAll(dir, steps[..|steps| - 1]), steps[|steps| - 1])
  }

  /** Steps that only touch the temporary directory leave the chart directory alone. */
  lemma {:induction false} ApplyAllUntouched(dir: ChartDir, steps: seq<Step>)
    requires forall s :: s in steps ==> s != RemoveChartDir && !s.InstallChart?
    ensures ApplyAll(dir, steps) == dir
  {
    if steps != [] {
      assert steps[..|steps| - 1] <= steps;
      ApplyAllUntouched(dir, steps[..|steps| - 1]);
    }
  }

  /** Running `a + b` is running `a`, then `b`. */
  lemma {:induction false} ApplyAllAppend(dir: ChartDir, a: seq<Step>, b: seq<Step>)
    ensures ApplyAll(dir, a + b) == ApplyAll(ApplyAll(dir, a), b)
    decreases |b|
  {
    if b != [] {
      assert (a + b)[..|a + b| - 1] == a + b[..|b| - 1];
      ApplyAllAppend(dir, a, b[..|b| - 1]);
    } else {
      assert a + b == a;
    }
  }

  /** The position of the first step the environment makes fail, if any. */
  function FirstFailure(steps: seq<Step>, ok: Step -> bool): (r: Option<nat>)
    ensures r.None? <==> forall i :: 0 <= i < |steps| ==> ok(steps[i])
    ensures r.Some? ==> r.value < |steps| && !ok(steps[r.value]) && forall i :: 0 <= i < r.value ==> ok(steps[i])
  {
    if steps == [] then None
    else if !ok(steps[0]) then Some(0)
    else
      var rest := FirstFailure(steps[1..], ok);
      assert forall i :: 1 <= i < |steps| ==> steps[i] == steps[1..][i - 1];
      match rest
      case None => None
      case Some(k) => Some(k + 1)
  }

  /** How many steps of `steps` run (the failing one included). */
  function Attempted(steps: seq<Step>, ok: Step -> bool): (n: nat)
    ensures n <= |steps|
  {
    match FirstFailure(steps, ok)
    case None => |steps|
    case Some(k) => k + 1
  }

  /** How many steps of `steps` succeed before the first failure. */
  function Completed(steps: seq<Step>, ok: Step -> bool): (n: nat)
    ensures n <= |steps|
  {
    match FirstFailure(steps, ok)
    case None => |steps|
    case Some(k) => k
  }

  /** The outcome of staging `plan` inside a temporary directory that already exists. */
  datatype Staging = Staging(failed: Option<Step>, chart: ChartDir, steps: seq<Step>)

  /**
   * The steps of `plan` run in order up to the first failure; whatever
   * happens, the temporary directory is removed afterwards.
   */
  function Stage(dir: ChartDir, plan: seq<Step>, ok: Step -> bool): (s: Staging)
    ensures s.failed.None? <==> forall i :: 0 <= i < |plan| ==> ok(plan[i])
    ensures s.failed.Some? ==> s.failed.value in plan && !ok(s.failed.value)
    ensures |s.steps| >= 1 && s.steps[|s.steps| - 1] == RemoveTempDir
  {
    var n := Attempted(plan, ok);
    Staging(match FirstFailure(plan, ok) case None => None case Some(k) => Some(plan[k]),
            ApplyAll(dir, plan[..Completed(plan, ok)]),
            plan[..n] + [RemoveTempDir])
  }

  /**
   * A step of `plan` is carried out only once every earlier step has
   * succeeded, so a plan that puts `staging` first removes the old chart only
   * after all of `staging` has succeeded, and a staging failure leaves the
   * chart directory as it was.
   */
  lemma StageAfterStaging(dir: ChartDir, staging: seq<Step>, rest: seq<Step>, ok: Step -> bool)
    requires forall s :: s in staging ==> s != RemoveChartDir && !s.InstallChart?
    ensures RemoveChartDir in Stage(dir, staging + rest, ok).steps ==> forall s :: s in staging ==> ok(s)
    ensures (exists s :: s in staging && !ok(s)) ==> Stage(dir, staging + rest, ok).chart == dir
  {
    var plan := staging + rest;
    assert forall i :: 0 <= i < |staging| ==> plan[i] == staging[i];
    var n := Attempted(plan, ok);
    if RemoveChartDir in Stage(dir, plan, ok).steps {
      var j :| 0 <= j < n && plan[j] == RemoveChartDir;
      forall i | 0 <= i < |staging| ensures plan[i] != RemoveChartDir {
        assert staging[i] in staging;
      }
      forall s | s in staging ensures ok(s) {
        var i :| 0 <= i < |staging| && staging[i] == s;
      }
    }
    if exists s :: s in staging && !ok(s) {
      var s :| s in staging && !ok(s);
      var i :| 0 <= i < |staging| && staging[i] == s;
      var c := Completed(plan, ok);
      assert c <= i;
      assert forall t :: t in plan[..c] ==> t in staging;
      ApplyAllUntouched(dir, plan[..c]);
    }
  }

  /** A plan that ends by installing the downloaded chart and running hooks leaves that chart in place. */
  lemma {:induction false} InstallThenHooks(dir: ChartDir, before: seq<Step>, y: Value, hooks: seq<Step>)
    requires forall s :: s in hooks ==> s != RemoveChartDir && !s.InstallChart?
    ensures ApplyAll(dir, before + [InstallChart(y)] + hooks) == Present(y)
  {
    ApplyAllAppend(dir, before + [InstallChart(y)], hooks);
    ApplyAllUntouched(Present(y), hooks);
    assert (before + [InstallChart(y)])[..|before|] == before;
  }

  // ---------------------------------------------------------------------------
  // The chart workspace

  /** The local chart directory and the effects carried out on it so far. */
  class ChartWorkspace {
    var chart: ChartDir
    var trace: seq<Step>

    constructor(dir: ChartDir)
      ensures chart == dir && trace == []
    {
      chart := dir;
      trace := [];
    }

    /** Carries out one step; the environment `ok` decides whether it succeeds. */
    method Perform(step: Step, ok: Step -> bool) returns (done: bool)
      modifies this
      ensures done == ok(step)
      ensures trace == old(trace) + [step]
      ensures chart == if done then Apply(old(chart), step) else old(chart)
    {
      done := ok(step);
      trace := trace + [step];
      if done {
        chart := Apply(chart, step);
      }
    }

    /** Carries out `plan` up to its first failure, then removes the temporary directory. */
    method StageInTemp(plan: seq<Step>, ok: Step -> bool) returns (failed: Option<Step>)
      modifies this
      ensures failed == Stage(old(chart), plan, ok).failed
      ensures chart == Stage(old(chart), plan, ok).chart
      ensures trace == old(trace) + Stage(old(chart), plan, ok).steps
    {
      var i := 0;
      failed := None;
      while i < |plan| && failed.None?
        invariant 0 <= i <= |plan|
        invariant failed.None? ==> forall j :: 0 <= j < i ==> ok(plan[j])
        invariant failed.None? ==> trace == old(trace) + plan[..i] && chart == ApplyAll(old(chart), plan[..i])
        invariant failed.Some? ==>
          && i >= 1 && failed == Some(plan[i - 1]) && FirstFailure(plan, ok) == Some(i - 1)
          && trace == old(trace) + plan[..i] && chart == ApplyAll(old(chart), plan[..i - 1])
      {
        ghost var before := chart;
        var done := Perform(plan[i], ok);
        assert plan[..i + 1] == plan[..i] + [plan[i]];
        assert plan[..i + 1][..i] == plan[..i];
        if !done {
          failed := Some(plan[i]);
        }
        i := i + 1;
      }
      assert failed.None? ==> plan[..i] == plan;
      var _ := Perform(RemoveTempDir, ok);
    }

    /** Makes the temporary directory, stages `plan` in it and reports `success` or the failing step. */
    method DownloadInTemp(plan: seq<Step>, ok: Step -> bool, success: ChartUpdateResult, caught: bool)
      returns (o: Outcome)
      modifies this
      ensures var r := StagedRun(old(chart), plan, ok, success, caught);
        o == r.outcome && chart == r.chart && trace == old(trace) + r.steps
    {
      var made := Perform(MakeTempDir, ok);
      if !made {
        return Threw(StepFailed(MakeTempDir));
      }
      var failed := StageInTemp(plan, ok);
      if failed.None? {
        o := Returned(success);
      } else if caught {
        o := Returned(Failure(StepFailed(failed.value)));
      } else {
        o := Threw(StepFailed(failed.value));
      }
    }

    /** `updateRemoteArchiveChart`. */
    method UpdateRemoteArchive(remote: RemoteChartConfig, incoming: Value, ok: Step -> bool) returns (o: Outcome)
      requires remote.RemoteArchive?
      modifies this
      ensures var r := ArchiveRun(remote, old(chart), incoming, ok);
        o == r.outcome && chart == r.chart && trace == old(trace) + r.steps
    {
      var cur := CurrentMetadata(chart);
      if cur.Err? {
        return Threw(cur.error);
      }
      var meta := cur.value;
      if meta.Some? && meta.value.version == remote.version {
        return Returned(Success(false, None, remote.version));
      }
      var staging := ArchiveStaging(remote.archiveUrl, remote.extractPath);
      if staging.None? {
        var made := Perform(MakeTempDir, ok);
        if !made {
          return Threw(StepFailed(MakeTempDir));
        }
        var _ := Perform(RemoveTempDir, ok);
        return Returned(Failure(UnsupportedArchive(remote.archiveUrl)));
      }
      var from := if meta.Some? then meta.value.appVersion else None;
      o := DownloadInTemp(staging.value + ReplaceSteps(meta.Some?, incoming, remote.hooks), ok,
                          Success(true, from, remote.version), true);
    }

    /** `updateOciChart`. */
    method UpdateOci(remote: RemoteChartConfig, incoming: Value, ok: Step -> bool) returns (o: Outcome)
      requires remote.OciRegistry?
      modifies this
      ensures var r := OciRun(remote, old(chart), incoming, ok);
        o == r.outcome && chart == r.chart && trace == old(trace) + r.steps
    {
      var cur := CurrentMetadata(chart);
      if cur.Err? {
        return Threw(cur.error);
      }
      var meta := cur.value;
      if meta.Some? && meta.value.appVersion == Some(remote.version) {
        return Returned(Success(false, None, remote.version));
      }
      var from := if meta.Some? then meta.value.appVersion else None;
      o := DownloadInTemp(OciStaging(remote.ociRef, remote.version) + ReplaceSteps(meta.Some?, incoming, remote.hooks),
                          ok, Success(true, from, remote.version), true);
    }

    /**
     * `updateHelmRepoChart`: reads the local chart first (an invalid
     * `Chart.yaml` throws before any fetch), then asks the cache for the
     * repository index.
     */
    method UpdateHelmRepo(chartName: string, remote: RemoteChartConfig, incoming: Value, env: Env, cache: IndexCache)
      returns (o: Outcome)
      requires remote.HelmRepo? && cache.Valid()
      modifies this, cache
      ensures cache.Valid()
      ensures CurrentMetadata(old(chart)).Err? ==> unchanged(cache)
      ensures CurrentMetadata(old(chart)).Ok? ==> cache.Fetched(old(cache.entries), old(cache.requests), remote.remoteRepoUrl, env.net)
      ensures var r := HelmRun(chartName, remote, old(chart), old(cache.Answer(remote.remoteRepoUrl, env.net)), incoming, env);
        o == r.outcome && chart == r.chart && trace == old(trace) + r.steps
    {
      var cur := CurrentMetadata(chart);
      if cur.Err? {
        return Threw(cur.error);
      }
      var index := cache.Fetch(remote.remoteRepoUrl, env.net);
      var decision := HelmDecide(chartName, remote, cur.value, index, env);
      if decision.Done? {
        return decision.outcome;
      }
      var meta := cur.value;
      var from := if meta.Some? then Some(meta.value.version) else None;
      o := DownloadInTemp([DownloadAndExtract(decision.url)] + ReplaceSteps(meta.Some?, incoming, remote.hooks), StepOk(env, chartName),
                          Success(true, from, decision.release.version), false);
    }

    /** The dispatch of `updateChart` on the chart's source. */
    method UpdateFromSource(chartName: string, remote: RemoteChartConfig, incoming: Value, env: Env, cache: IndexCache)
      returns (o: Outcome)
      requires cache.Valid()
      modifies this, cache
      ensures cache.Valid()
      ensures !remote.HelmRepo? || CurrentMetadata(old(chart)).Err? ==> unchanged(cache)
      ensures remote.HelmRepo? && CurrentMetadata(old(chart)).Ok? ==>
        cache.Fetched(old(cache.entries), old(cache.requests), remote.remoteRepoUrl, env.net)
      ensures var r := SourceRun(chartName, remote, old(chart), old(cache.Answer(RepoUrl(remote), env.net)), incoming, env);
        o == r.outcome && chart == r.chart && trace == old(trace) + r.steps
    {
      match remote {
        case HelmRepo(_, _, _, _, _) =>
          o := UpdateHelmRepo(chartName, remote, incoming, env, cache);
        case OciRegistry(_, _, _) =>
          o := UpdateOci(remote, incoming, StepOk(env, chartName));
        case RemoteArchive(_, _, _, _) =>
          o := UpdateRemoteArchive(remote, incoming, StepOk(env, chartName));
      }
    }

    /** `updateChart`: dispatch on the source, then run `onUpdated` after a success. */
    method UpdateChart(chartName: string, remote: RemoteChartConfig, incoming: Value, env: Env, cache: IndexCache)
      returns (o: Outcome)
      requires cache.Valid()
      modifies this, cache
      ensures cache.Valid()
      ensures !remote.HelmRepo? || CurrentMetadata(old(chart)).Err? ==> unchanged(cache)
      ensures remote.HelmRepo? && CurrentMetadata(old(chart)).Ok? ==>
        cache.Fetched(old(cache.entries), old(cache.requests), remote.remoteRepoUrl, env.net)
      ensures var r := ChartRun(chartName, remote, old(chart), old(cache.Answer(RepoUrl(remote), env.net)), incoming, env);
        o == r.outcome && chart == r.chart && trace == old(trace) + r.steps
    {
      o := UpdateFromSource(chartName, remote, incoming, env, cache);
      if o.Returned? && o.result.Success? && remote.hooks.onUpdated {
        var done := Perform(OnUpdated, StepOk(env, chartName));
        if !done {
          o := Threw(StepFailed(OnUpdated));
        }
      }
    }
  }

  // ---------------------------------------------------------------------------
  // Results

  /** Why one chart could not be updated. */
  datatype Reason =
    | InvalidChartYaml
    | FetchFailed(url: string, error: string)
    | YamlError(error: string)
    | InvalidIndex(chartName: string, remoteRepoUrl: string)
    | EntryMissing(remoteName: string, remoteRepoUrl: string)
    | NoSatisfyingRelease(range: string, available: seq<string>)
    | EmptyReleaseUrl(version: string)
    | UnsupportedArchive(archiveUrl: string)
    | StepFailed(step: Step)

  /** `ChartUpdateResult`. */
  datatype ChartUpdateResult =
    | Failure(reason: Reason)
    | Success(isUpdated: bool, fromVersion: Option<string>, toVersion: string)

  /** An update either returns a result or throws. */
  datatype Outcome = Returned(result: ChartUpdateResult) | Threw(error: Reason)

  predicate IsUpdated(o: Outcome) {
    o.Returned? && o.result.Success? && o.result.isUpdated
  }

  /** The outcome of one update together with the chart directory and the steps it leaves behind. */
  datatype Run = Run(outcome: Outcome, chart: ChartDir, steps: seq<Step>)

  /** The foreign parts of the environment. */
  datatype Env = Env(
    ok: (string, Step) -> bool,
    net: string -> Result<string, string>,
    parseYaml: string -> Result<Value, string>,
    resolveUrl: (string, string) -> string,
    lib: SemverLib)

  /**
   * Whether each step of one chart's update succeeds. Every chart runs its
   * own commands and hooks in its own directory, so each has its own fate.
   */
  function StepOk(env: Env, chartName: string): Step -> bool {
    step => env.ok(chartName, step)
  }

  /** `getCurrentChartMetadata`: nothing when the directory is absent; an invalid `Chart.yaml` throws. */
  function CurrentMetadata(dir: ChartDir): (r: Result<Option<ChartMetadata>, Reason>)
    ensures r.Ok? && r.value.None? <==> dir.Absent?
  {
    match dir
    case Absent => Ok(None)
    case Present(y) =>
      match DecodeChartMetadata(y)
      case Some(m) => Ok(Some(m))
      case None => Err(InvalidChartYaml)
  }

  /** The hooks a plan ends with: `onDownloaded` when configured, then type generation. */
  function HookSteps(hooks: Hooks): seq<Step> {
    (if hooks.onDownloaded then [OnDownloaded] else []) + [Typeify]
  }

  /** Removing the old chart (when there is one) and moving the staged chart into place, then the hooks. */
  function ReplaceSteps(hasCurrent: bool, incoming: Value, hooks: Hooks): (r: seq<Step>)
    ensures OnUpdated !in r && MakeTempDir !in r
  {
    (if hasCurrent then [RemoveChartDir] else []) + [InstallChart(incoming)] + HookSteps(hooks)
  }

  lemma HookStepsUntouched(hooks: Hooks)
    ensures forall s :: s in HookSteps(hooks) ==> s != RemoveChartDir && !s.InstallChart?
  {
  }

  /** A staged plan that succeeds leaves the downloaded chart in place. */
  lemma ReplaceInstalls(dir: ChartDir, staging: seq<Step>, hasCurrent: bool, incoming: Value, hooks: Hooks)
    ensures ApplyAll(dir, staging + ReplaceSteps(hasCurrent, incoming, hooks)) == Present(incoming)
  {
    var pre := staging + (if hasCurrent then [RemoveChartDir] else []);
    assert staging + ReplaceSteps(hasCurrent, incoming, hooks) == pre + [InstallChart(incoming)] + HookSteps(hooks);
    HookStepsUntouched(hooks);
    InstallThenHooks(dir, pre, incoming, HookSteps(hooks));
  }

  /**
   * The safety of one update run: the old chart directory is removed only
   * after every staging step succeeded; a staging failure leaves it as it
   * was; a success that reports an update has the downloaded chart in place;
   * and once the temporary directory exists it is removed last.
   */
  predicate ReplacesSafely(dir: ChartDir, r: Run, staging: seq<Step>, incoming: Value, ok: Step -> bool) {
    && (RemoveChartDir in r.steps ==> forall s :: s in staging ==> ok(s))
    && ((exists s :: s in staging && !ok(s)) ==> r.chart == dir)
    && (IsUpdated(r.outcome) ==> r.chart == Present(incoming))
    && (MakeTempDir in r.steps && ok(MakeTempDir) ==> r.steps[|r.steps| - 1] == RemoveTempDir)
  }

  /** The shared tail of every download: make the temporary directory, then stage the plan in it. */
  function StagedRun(dir: ChartDir, plan: seq<Step>, ok: Step -> bool, success: ChartUpdateResult, caught: bool): (r: Run)
    ensures forall s :: s in r.steps ==> s in plan || s == MakeTempDir || s == RemoveTempDir
  {
    if !ok(MakeTempDir) then Run(Threw(StepFailed(MakeTempDir)), dir, [MakeTempDir])
    else
      var s := Stage(dir, plan, ok);
      assert forall t :: t in plan[..Attempted(plan, ok)] ==> t in plan;
      var outcome :=
        if s.failed.None? then Returned(success)
        else if caught then Returned(Failure(StepFailed(s.failed.value)))
        else Threw(StepFailed(s.failed.value));
      Run(outcome, s.chart, [MakeTempDir] + s.steps)
  }

  /** `StagedRun` keeps the safety properties whenever the plan puts staging first and ends with the replacement. */
  lemma StagedRunSafe(dir: ChartDir, staging: seq<Step>, hasCurrent: bool, incoming: Value, hooks: Hooks,
                      ok: Step -> bool, success: ChartUpdateResult, caught: bool)
    requires forall s :: s in staging ==> s != RemoveChartDir && !s.InstallChart? && s != MakeTempDir
    requires success.Success?
    ensures ReplacesSafely(dir, StagedRun(dir, staging + ReplaceSteps(hasCurrent, incoming, hooks), ok, success, caught),
                           staging, incoming, ok)
  {
    var plan := staging + ReplaceSteps(hasCurrent, incoming, hooks);
    var r := StagedRun(dir, plan, ok, success, caught);
    if ok(MakeTempDir) {
      StageAfterStaging(dir, staging, ReplaceSteps(hasCurrent, incoming, hooks), ok);
      var s := Stage(dir, plan, ok);
      assert RemoveChartDir in r.steps ==> RemoveChartDir in s.steps;
      if s.failed.None? {
        assert plan[..Completed(plan, ok)] == plan;
        ReplaceInstalls(dir, staging, hasCurrent, incoming, hooks);
      }
    } else {
      assert RemoveChartDir !in r.steps;
    }
  }

  // ---------------------------------------------------------------------------
  // Remote archive sources

  /** The staging steps for an archive, chosen by its suffix; an unsupported suffix has none. */
  function ArchiveStaging(archiveUrl: string, extractPath: string): Option<seq<Step>> {
    if EndsWith(archiveUrl, ".zip") then Some([DownloadZip(archiveUrl), UnzipChart(extractPath)])
    else if EndsWith(archiveUrl, ".tgz") || EndsWith(archiveUrl, ".tar.gz") then
      Some([MakeOutDir, DownloadAndExtract(archiveUrl)])
    else None
  }

  /** `updateRemoteArchiveChart`, step by step. */
  function ArchiveRun(remote: RemoteChartConfig, dir: ChartDir, incoming: Value, ok: Step -> bool): (r: Run)
    requires remote.RemoteArchive?
    ensures OnUpdated !in r.steps
  {
    match CurrentMetadata(dir)
    case Err(e) => Run(Threw(e), dir, [])
    case Ok(cur) =>
      if cur.Some? && cur.value.version == remote.version then
        Run(Returned(Success(false, None, remote.version)), dir, [])
      else
        match ArchiveStaging(remote.archiveUrl, remote.extractPath)
        case None =>
          if !ok(MakeTempDir) then Run(Threw(StepFailed(MakeTempDir)), dir, [MakeTempDir])
          else Run(Returned(Failure(UnsupportedArchive(remote.archiveUrl))), dir, [MakeTempDir, RemoveTempDir])
        case Some(staging) =>
          var from := if cur.Some? then cur.value.appVersion else None;
          StagedRun(dir, staging + ReplaceSteps(cur.Some?, incoming, remote.hooks), ok,
                    Success(true, from, remote.version), true)
  }

  /**
   * An archive update is a no-op exactly when the local chart's `version`
   * equals the pin; it then performs no step at all.
   */
  lemma ArchiveUpToDate(remote: RemoteChartConfig, dir: ChartDir, incoming: Value, ok: Step -> bool)
    requires remote.RemoteArchive?
    ensures var r := ArchiveRun(remote, dir, incoming, ok);
      (r.outcome == Returned(Success(false, None, remote.version)) <==>
         CurrentMetadata(dir).Ok? && CurrentMetadata(dir).value.Some? &&
         CurrentMetadata(dir).value.value.version == remote.version)
    ensures var r := ArchiveRun(remote, dir, incoming, ok);
      r.outcome == Returned(Success(false, None, remote.version)) ==> r.chart == dir && r.steps == []
  {
  }

  /**
   * The archive update keeps the safety properties; an unsupported suffix is
   * reported as a failure before anything is downloaded or removed.
   */
  lemma ArchiveRunSafe(remote: RemoteChartConfig, dir: ChartDir, incoming: Value, ok: Step -> bool)
    requires remote.RemoteArchive?
    ensures var staging := ArchiveStaging(remote.archiveUrl, remote.extractPath);
      ReplacesSafely(dir, ArchiveRun(remote, dir, incoming, ok), if staging.Some? then staging.value else [], incoming, ok)
    ensures ArchiveStaging(remote.archiveUrl, remote.extractPath).None? ==>
      var r := ArchiveRun(remote, dir, incoming, ok);
      r.chart == dir && !IsUpdated(r.outcome) &&
      forall s :: s in r.steps ==> s == MakeTempDir || s == RemoveTempDir
  {
    var r := ArchiveRun(remote, dir, incoming, ok);
    var staging := ArchiveStaging(remote.archiveUrl, remote.extractPath);
    if CurrentMetadata(dir).Ok? {
      var cur := CurrentMetadata(dir).value;
      if !(cur.Some? && cur.value.version == remote.version) && staging.Some? {
        var from := if cur.Some? then cur.value.appVersion else None;
        assert r == StagedRun(dir, staging.value + ReplaceSteps(cur.Some?, incoming, remote.hooks), ok,
                              Success(true, from, remote.version), true);
        StagedRunSafe(dir, staging.value, cur.Some?, incoming, remote.hooks, ok, Success(true, from, remote.version), true);
      }
    }
  }

  /**
   * The gap the code leaves: when the old chart has been removed but moving
   * the staged chart into place fails, the chart directory stays absent.
   */
  lemma RemovedButNotInstalled(dir: ChartDir, staging: seq<Step>, incoming: Value, hooks: Hooks,
                               ok: Step -> bool, success: ChartUpdateResult, caught: bool)
    requires forall s :: s in staging ==> s != RemoveChartDir && !s.InstallChart?
    requires ok(MakeTempDir) && ok(RemoveChartDir) && !ok(InstallChart(incoming))
    requires forall s :: s in staging ==> ok(s)
    ensures var r := StagedRun(dir, staging + ReplaceSteps(true, incoming, hooks), ok, success, caught);
      r.chart == Absent && !(r.outcome.Returned? && r.outcome.result.Success?)
  {
    var plan := staging + ReplaceSteps(true, incoming, hooks);
    var k := |staging| + 1;
    assert plan[|staging|] == RemoveChartDir && plan[k] == InstallChart(incoming);
    forall i | 0 <= i < |staging| ensures ok(plan[i]) {
      assert plan[i] == staging[i] && staging[i] in staging;
    }
    assert FirstFailure(plan, ok) == Some(k);
    assert plan[..k] == plan[..k - 1] + [RemoveChartDir];
  }

  // ---------------------------------------------------------------------------
  // OCI sources

  /** Pulling the chart with `helm pull`, then unpacking the pulled archives. */
  function OciStaging(ociRef: string, version: string): seq<Step> {
    [HelmPull(ociRef, version), ExtractPulled]
  }

  /** `updateOciChart`, step by step. */
  function OciRun(remote: RemoteChartConfig, dir: ChartDir, incoming: Value, ok: Step -> bool): (r: Run)
    requires remote.OciRegistry?
    ensures OnUpdated !in r.steps
  {
    match CurrentMetadata(dir)
    case Err(e) => Run(Threw(e), dir, [])
    case Ok(cur) =>
      if cur.Some? && cur.value.appVersion == Some(remote.version) then
        Run(Returned(Success(false, None, remote.version)), dir, [])
      else
        var from := if cur.Some? then cur.value.appVersion else None;
        StagedRun(dir, OciStaging(remote.ociRef, remote.version) + ReplaceSteps(cur.Some?, incoming, remote.hooks), ok,
                  Success(true, from, remote.version), true)
  }

  /**
   * An OCI update is a no-op exactly when the local chart's `appVersion`
   * (not its `version`) equals the pin; it then performs no step at all.
   */
  lemma OciUpToDate(remote: RemoteChartConfig, dir: ChartDir, incoming: Value, ok: Step -> bool)
    requires remote.OciRegistry?
    ensures var r := OciRun(remote, dir, incoming, ok);
      (r.outcome == Returned(Success(false, None, remote.version)) <==>
         CurrentMetadata(dir).Ok? && CurrentMetadata(dir).value.Some? &&
         CurrentMetadata(dir).value.value.appVersion == Some(remote.version))
    ensures var r := OciRun(remote, dir, incoming, ok);
      r.outcome == Returned(Success(false, None, remote.version)) ==> r.chart == dir && r.steps == []
  {
  }

  lemma OciRunSafe(remote: RemoteChartConfig, dir: ChartDir, incoming: Value, ok: Step -> bool)
    requires remote.OciRegistry?
    ensures ReplacesSafely(dir, OciRun(remote, dir, incoming, ok), OciStaging(remote.ociRef, remote.version), incoming, ok)
  {
    match CurrentMetadata(dir)
    case Err(_) =>
    case Ok(cur) =>
      if !(cur.Some? && cur.value.appVersion == Some(remote.version)) {
        var from := if cur.Some? then cur.value.appVersion else None;
        StagedRunSafe(dir, OciStaging(remote.ociRef, remote.version), cur.Some?, incoming, remote.hooks, ok,
                      Success(true, from, remote.version), true);
      }
  }

  // ---------------------------------------------------------------------------
  // Helm repository sources

  /** What `updateHelmRepoChart` decides before it touches the disk. */
  datatype HelmDecision = Done(outcome: Outcome) | Download(url: string, release: ChartRepoRelease)

  /**
   * From the fetched index text to a decision: an unreadable or invalid index
   * throws; a missing chart name, an unsatisfiable range and a release without
   * a URL are failures; an up-to-date chart is reported as such; otherwise the
   * selected release's first URL, resolved against the repository URL, is
   * downloaded.
   */
  function HelmDecide(chartName: string, remote: RemoteChartConfig, cur: Option<ChartMetadata>,
                      index: Result<string, string>, env: Env): (d: HelmDecision)
    requires remote.HelmRepo?
    ensures d.Done? ==> !IsUpdated(d.outcome)
  {
    match index
    case Err(e) => Done(Threw(FetchFailed(remote.remoteRepoUrl, e)))
    case Ok(text) =>
      match env.parseYaml(text)
      case Err(e) => Done(Threw(YamlError(e)))
      case Ok(v) =>
        match DecodeIndex(v)
        case None => Done(Threw(InvalidIndex(chartName, remote.remoteRepoUrl)))
        case Some(idx) =>
          if remote.remoteName !in idx.entries then
            Done(Returned(Failure(EntryMissing(remote.remoteName, remote.remoteRepoUrl))))
          else DecideRelease(remote, cur, idx.entries[remote.remoteName], env)
  }

  /** The decision once the chart's release list has been found in the index. */
  function DecideRelease(remote: RemoteChartConfig, cur: Option<ChartMetadata>, entries: seq<ChartRepoRelease>,
                         env: Env): (d: HelmDecision)
    requires remote.HelmRepo?
    ensures d.Done? ==> !IsUpdated(d.outcome)
  {
    match SelectRelease(entries, remote.apiVersion, remote.version, env.lib)
    case NoneSatisfies(vs) => Done(Returned(Failure(NoSatisfyingRelease(remote.version, vs))))
    case Selected(rel) =>
      if cur.Some? && rel.version == cur.value.version then
        Done(Returned(Success(false, Some(cur.value.version), rel.version)))
      else if |rel.urls| == 0 || rel.urls[0] == "" then
        Done(Returned(Failure(EmptyReleaseUrl(rel.version))))
      else Download(env.resolveUrl(rel.urls[0], remote.remoteRepoUrl), rel)
  }

  /** The index a Helm decision reads: the parsed, validated index text, if it is one. */
  function ParsedIndex(index: Result<string, string>, env: Env): Option<ChartRepoIndex> {
    if index.Ok? && env.parseYaml(index.value).Ok? then DecodeIndex(env.parseYaml(index.value).value) else None
  }

  /**
   * Once the chart's releases are known, a download is chosen exactly when a
   * release is selected, it has a non-empty first URL, and there is no local
   * chart or its `version` differs from the selected one; an up-to-date
   * chart reports the selected version.
   */
  lemma HelmDownloadsIff(remote: RemoteChartConfig, cur: Option<ChartMetadata>, entries: seq<ChartRepoRelease>,
                         env: Env)
    requires remote.HelmRepo?
    ensures var sel := SelectRelease(entries, remote.apiVersion, remote.version, env.lib);
      var d := DecideRelease(remote, cur, entries, env);
      && (d.Download? <==>
            sel.Selected? && |sel.release.urls| > 0 && sel.release.urls[0] != "" &&
            (cur.None? || sel.release.version != cur.value.version))
      && (d.Download? ==> d.release == sel.release)
      && (sel.Selected? && cur.Some? && sel.release.version == cur.value.version ==>
            d == Done(Returned(Success(false, Some(cur.value.version), sel.release.version))))
  {
  }

  /**
   * A chart name missing from a valid index is a failure and never a
   * download; an index that fails validation throws.
   */
  lemma HelmIndexErrors(chartName: string, remote: RemoteChartConfig, cur: Option<ChartMetadata>,
                        index: Result<string, string>, env: Env)
    requires remote.HelmRepo?
    ensures index.Ok? && env.parseYaml(index.value).Ok? && ParsedIndex(index, env).None? ==>
      HelmDecide(chartName, remote, cur, index, env) == Done(Threw(InvalidIndex(chartName, remote.remoteRepoUrl)))
    ensures ParsedIndex(index, env).Some? && remote.remoteName !in ParsedIndex(index, env).value.entries ==>
      HelmDecide(chartName, remote, cur, index, env) ==
        Done(Returned(Failure(EntryMissing(remote.remoteName, remote.remoteRepoUrl))))
  {
  }

  /** `updateHelmRepoChart`, step by step; step failures are not caught and throw. */
  function HelmRun(chartName: string, remote: RemoteChartConfig, dir: ChartDir, index: Result<string, string>,
                   incoming: Value, env: Env): (r: Run)
    requires remote.HelmRepo?
    ensures OnUpdated !in r.steps
  {
    match CurrentMetadata(dir)
    case Err(e) => Run(Threw(e), dir, [])
    case Ok(cur) =>
      match HelmDecide(chartName, remote, cur, index, env)
      case Done(o) => Run(o, dir, [])
      case Download(url, rel) =>
        var from := if cur.Some? then Some(cur.value.version) else None;
        StagedRun(dir, [DownloadAndExtract(url)] + ReplaceSteps(cur.Some?, incoming, remote.hooks), StepOk(env, chartName),
                  Success(true, from, rel.version), false)
  }

  /** The URL a Helm update downloads, when it decides to download. */
  function HelmDownloadUrl(chartName: string, remote: RemoteChartConfig, dir: ChartDir, index: Result<string, string>,
                           env: Env): Option<string>
    requires remote.HelmRepo?
  {
    if CurrentMetadata(dir).Err? then None
    else match HelmDecide(chartName, remote, CurrentMetadata(dir).value, index, env)
      case Done(_) => None
      case Download(url, _) => Some(url)
  }

  /**
   * A Helm update that decides not to download touches nothing; one that
   * downloads keeps the safety properties, with the fetch-and-extract as its
   * staging step.
   */
  lemma HelmRunSafe(chartName: string, remote: RemoteChartConfig, dir: ChartDir, index: Result<string, string>,
                    incoming: Value, env: Env)
    requires remote.HelmRepo?
    ensures var r := HelmRun(chartName, remote, dir, index, incoming, env);
      var url := HelmDownloadUrl(chartName, remote, dir, index, env);
      && (url.None? ==> r.chart == dir && r.steps == [] && !IsUpdated(r.outcome))
      && (url.Some? ==> ReplacesSafely(dir, r, [DownloadAndExtract(url.value)], incoming, StepOk(env, chartName)))
  {
    var r := HelmRun(chartName, remote, dir, index, incoming, env);
    var url := HelmDownloadUrl(chartName, remote, dir, index, env);
    if url.Some? {
      var cur := CurrentMetadata(dir).value;
      var d := HelmDecide(chartName, remote, cur, index, env);
      var from := if cur.Some? then Some(cur.value.version) else None;
      var plan := [DownloadAndExtract(url.value)] + ReplaceSteps(cur.Some?, incoming, remote.hooks);
      assert r == StagedRun(dir, plan, StepOk(env, chartName), Success(true, from, d.release.version), false);
      StagedRunSafe(dir, [DownloadAndExtract(url.value)], cur.Some?, incoming, remote.hooks, StepOk(env, chartName),
                    Success(true, from, d.release.version), false);
    }
  }


  // ---------------------------------------------------------------------------
  // The repository index cache

  /** A list without repetition holds each URL at most once. */
  lemma {:induction false} DistinctCount(s: seq<string>, url: string)
    requires Distinct(s)
    ensures multiset(s)[url] <= 1
  {
    if s != [] {
      assert s == [s[0]] + s[1..];
      assert Distinct(s[1..]) by {
        forall i, j | 0 <= i < j < |s[1..]| ensures s[1..][i] != s[1..][j] {
          assert s[1..][i] == s[i + 1] && s[1..][j] == s[j + 1];
        }
      }
      DistinctCount(s[1..], url);
      if s[0] == url {
        assert url !in s[1..] by {
          forall j | 0 <= j < |s[1..]| ensures s[1..][j] != url {
            assert s[1..][j] == s[j + 1];
          }
        }
      }
    }
  }

  /**
   * `remoteRepoIndexYamlCache`: one entry per repository URL holding what the
   * first fetch of that URL produced (a failed fetch stays cached as well),
   * and the URLs actually fetched over the network, in order.
   */
  class IndexCache {
    var entries: map<string, Result<string, string>>
    var requests: seq<string>

    ghost predicate Valid()
      reads this
    {
      (forall url :: url in entries <==> url in requests) && Distinct(requests)
    }

    constructor()
      ensures Valid() && entries == map[] && requests == []
    {
      entries := map[];
      requests := [];
    }

    /** Every cached answer is what the network gives for its URL. */
    ghost predicate Agrees(net: string -> Result<string, string>)
      reads this
    {
      forall url :: url in entries ==> entries[url] == net(url)
    }

    /** What `fetchRemoteRepoIndexYaml(url)` yields now: the cached result, or a fresh fetch. */
    function Answer(url: string, net: string -> Result<string, string>): Result<string, string>
      reads this
    {
      if url in entries then entries[url] else net(url)
    }

    /** The cache went from `(e, q)` to the state after one `fetchRemoteRepoIndexYaml(url)`. */
    ghost predicate Fetched(e: map<string, Result<string, string>>, q: seq<string>, url: string,
                            net: string -> Result<string, string>)
      reads this
    {
      var answer := if url in e then e[url] else net(url);
      && entries == e[url := answer]
      && requests == (if url in e then q else q + [url])
    }

    /**
     * `fetchRemoteRepoIndexYaml`: a cached URL is answered from the cache
     * without a request; otherwise the one request for it is issued and its
     * result cached, so a URL is fetched at most once.
     */
    method Fetch(url: string, net: string -> Result<string, string>) returns (r: Result<string, string>)
      requires Valid()
      modifies this
      ensures Valid()
      ensures r == old(Answer(url, net))
      ensures url in entries && entries[url] == r
      ensures Fetched(old(entries), old(requests), url, net)
    {
      if url in entries {
        r := entries[url];
      } else {
        r := net(url);
        entries := entries[url := r];
        requests := requests + [url];
      }
    }
  }

  // ---------------------------------------------------------------------------
  // One chart, whatever its source

  /** The repository URL a source fetches its index from (only Helm repositories have one). */
  function RepoUrl(remote: RemoteChartConfig): string {
    if remote.HelmRepo? then remote.remoteRepoUrl else ""
  }

  /** The run of one source's update, before `onUpdated`. */
  function SourceRun(chartName: string, remote: RemoteChartConfig, dir: ChartDir, index: Result<string, string>,
                     incoming: Value, env: Env): Run
  {
    match remote
    case HelmRepo(_, _, _, _, _) => HelmRun(chartName, remote, dir, index, incoming, env)
    case OciRegistry(_, _, _) => OciRun(remote, dir, incoming, StepOk(env, chartName))
    case RemoteArchive(_, _, _, _) => ArchiveRun(remote, dir, incoming, StepOk(env, chartName))
  }

  /** `updateChart`: the source's run, then `onUpdated` when it succeeded and the hook is configured. */
  function ChartRun(chartName: string, remote: RemoteChartConfig, dir: ChartDir, index: Result<string, string>,
                    incoming: Value, env: Env): Run
  {
    var r := SourceRun(chartName, remote, dir, index, incoming, env);
    if r.outcome.Returned? && r.outcome.result.Success? && remote.hooks.onUpdated then
      Run(if env.ok(chartName, OnUpdated) then r.outcome else Threw(StepFailed(OnUpdated)), r.chart, r.steps + [OnUpdated])
    else r
  }

  /** `onUpdated` runs exactly when it is configured and the source's update succeeded. */
  lemma OnUpdatedOnlyOnSuccess(chartName: string, remote: RemoteChartConfig, dir: ChartDir,
                               index: Result<string, string>, incoming: Value, env: Env)
    ensures var inner := SourceRun(chartName, remote, dir, index, incoming, env);
      OnUpdated in ChartRun(chartName, remote, dir, index, incoming, env).steps <==>
        remote.hooks.onUpdated && inner.outcome.Returned? && inner.outcome.result.Success?
  {
  }

  // ---------------------------------------------------------------------------
  // The `update` command

  /**
   * The `only` filter: the chart names that contain the filter text, in
   * manifest order; an absent or empty filter keeps every name.
   */
  function SelectCharts(names: seq<string>, only: Option<string>): (r: seq<string>)
    ensures |r| <= |names|
    ensures forall n :: n in r <==> n in names && (only.Some? ==> Contains(n, only.value))
  {
    if names == [] then []
    else
      var rest := SelectCharts(names[1..], only);
      assert forall n :: n in names <==> n == names[0] || n in names[1..];
      assert only.Some? && only.value == "" ==> OccursAt(names[0], "", 0);
      if only.None? || only.value == "" || IndexOf(names[0], only.value) != -1 then [names[0]] + rest else rest
  }

  /**
   * The filter keeps manifest order: selecting from two lists in sequence is
   * selecting from each and concatenating.
   */
  lemma {:induction false} SelectChartsAppend(a: seq<string>, b: seq<string>, only: Option<string>)
    ensures SelectCharts(a + b, only) == SelectCharts(a, only) + SelectCharts(b, only)
  {
    if a == [] {
      assert a + b == b;
    } else {
      assert (a + b)[0] == a[0] && (a + b)[1..] == a[1..] + b;
      SelectChartsAppend(a[1..], b, only);
    }
  }

  /** One line of the command's report. */
  datatype Report =
    | UpdatedFrom(tag: string, from: string, to: string)
    | AlreadyUpToDate(tag: string, version: string)
    | FailedDueTo(tag: string, reason: Reason)
    | UnexpectedError(tag: string, error: Reason)

  /** The report line for one chart; an update from no local chart reads "never". */
  function ReportLine(chartName: string, o: Outcome): (line: Report)
    ensures line.tag == "[" + chartName + "]"
    ensures line.UpdatedFrom? <==> IsUpdated(o)
    ensures line.UpdatedFrom? ==>
      line.to == o.result.toVersion &&
      line.from == (if o.result.fromVersion.Some? then o.result.fromVersion.value else "never")
    ensures line.FailedDueTo? || line.UnexpectedError? <==> !(o.Returned? && o.result.Success?)
  {
    var tag := "[" + chartName + "]";
    match o
    case Threw(e) => UnexpectedError(tag, e)
    case Returned(Failure(reason)) => FailedDueTo(tag, reason)
    case Returned(Success(updated, from, to)) =>
      if updated then UpdatedFrom(tag, if from.Some? then from.value else "never", to)
      else AlreadyUpToDate(tag, to)
  }

  /** The checks the command makes before updating anything. */
  datatype Preflight = Preflight(chartsPathExists: bool, typesPathExists: bool, manifestHasDefault: bool)

  /**
   * The manifest's charts in key order and, for each chart name, its remote
   * source, the state of its local chart directory and the values schema the
   * update writes along with it.
   */
  datatype Charts = Charts(names: seq<string>, remote: string -> RemoteChartConfig, dir: string -> ChartDir,
                           incoming: string -> Value)

  /** What updating one chart yields when its repository index comes straight from the network. */
  function ChartOutcome(charts: Charts, name: string, env: Env): Outcome {
    var remote := charts.remote(name);
    ChartRun(name, remote, charts.dir(name), env.net(RepoUrl(remote)), charts.incoming(name), env).outcome
  }

  /**
   * The `update` command: exit One when a preflight check fails, before any
   * chart is touched; otherwise one report line per selected chart, in
   * manifest order, and exit Zero, even when some charts failed.
   */
  function UpdateCommand(pre: Preflight, charts: Charts, only: Option<string>, env: Env): (r: (ExitCode, seq<Report>))
    ensures r.0 == One <==> !(pre.chartsPathExists && pre.typesPathExists && pre.manifestHasDefault)
    ensures r.0 == One ==> r.1 == []
    ensures r.0 == Zero ==>
      var selected := SelectCharts(charts.names, only);
      |r.1| == |selected| &&
      forall i :: 0 <= i < |selected| ==>
        && r.1[i].tag == "[" + selected[i] + "]"
        && (r.1[i].UpdatedFrom? <==> IsUpdated(ChartOutcome(charts, selected[i], env)))
        && ((r.1[i].FailedDueTo? || r.1[i].UnexpectedError?) <==>
              !(ChartOutcome(charts, selected[i], env).Returned? && ChartOutcome(charts, selected[i], env).result.Success?))
  {
    if !pre.chartsPathExists || !pre.typesPathExists || !pre.manifestHasDefault then (One, [])
    else
      (Zero, Reports(charts, SelectCharts(charts.names, only), env))
  }

  /** The report lines of the charts `selected`, in order. */
  function Reports(charts: Charts, selected: seq<string>, env: Env): seq<Report> {
    seq(|selected|, i requires 0 <= i < |selected| => ReportLine(selected[i], ChartOutcome(charts, selected[i], env)))
  }

  /** One more chart adds its report line at the end. */
  lemma ReportsSnoc(charts: Charts, selected: seq<string>, name: string, env: Env)
    ensures Reports(charts, selected + [name], env) == Reports(charts, selected, env) + [ReportLine(name, ChartOutcome(charts, name, env))]
  {
  }

  /** The repository URLs of the Helm-repository charts among `names`. */
  function RepoUrls(names: seq<string>, remote: string -> RemoteChartConfig): set<string> {
    set n | n in names && remote(n).HelmRepo? :: remote(n).remoteRepoUrl
  }

  /**
   * The per-chart task of the command: update the chart in its own
   * directory through the shared cache and turn the outcome into its report
   * line. The cache requests at most this chart's repository URL.
   */
  method UpdateAndReport(charts: Charts, name: string, env: Env, cache: IndexCache) returns (line: Report)
    requires cache.Valid() && cache.Agrees(env.net)
    modifies cache
    ensures cache.Valid() && cache.Agrees(env.net)
    ensures line == ReportLine(name, ChartOutcome(charts, name, env))
    ensures cache.requests == old(cache.requests) ||
      (charts.remote(name).HelmRepo? && cache.requests == old(cache.requests) + [charts.remote(name).remoteRepoUrl])
  {
    var remote := charts.remote(name);
    var workspace := new ChartWorkspace(charts.dir(name));
    var o := workspace.UpdateChart(name, remote, charts.incoming(name), env, cache);
    line := ReportLine(name, o);
  }

  /**
   * Runs the command: after the preflight checks every selected chart is
   * updated in its own directory, all of them sharing one index cache. The
   * reports are those of `UpdateCommand`; no index URL is requested twice,
   * and only the index URLs of selected Helm-repository charts are requested.
   */
  method RunUpdate(pre: Preflight, charts: Charts, only: Option<string>, env: Env)
    returns (code: ExitCode, reports: seq<Report>, cache: IndexCache)
    ensures (code, reports) == UpdateCommand(pre, charts, only, env)
    ensures cache.Valid() && Distinct(cache.requests)
    ensures forall u :: u in cache.requests ==> u in RepoUrls(SelectCharts(charts.names, only), charts.remote)
  {
    cache := new IndexCache();
    if !pre.chartsPathExists || !pre.typesPathExists || !pre.manifestHasDefault {
      return One, [], cache;
    }
    reports := UpdateEach(charts, SelectCharts(charts.names, only), env, cache);
    code := Zero;
  }

  /**
   * The charts `selected` updated one after another through the shared
   * cache, each adding its report line; only their repository URLs are
   * requested.
   */
  method UpdateEach(charts: Charts, selected: seq<string>, env: Env, cache: IndexCache) returns (reports: seq<Report>)
    requires cache.Valid() && cache.Agrees(env.net)
    modifies cache
    ensures cache.Valid() && cache.Agrees(env.net)
    ensures reports == Reports(charts, selected, env)
    ensures forall u :: u in cache.requests ==> u in old(cache.requests) || u in RepoUrls(selected, charts.remote)
  {
    reports := [];
    var i := 0;
    while i < |selected|
      invariant 0 <= i <= |selected|
      invariant cache.Valid() && cache.Agrees(env.net)
      invariant reports == Reports(charts, selected[..i], env)
      invariant forall u :: u in cache.requests ==> u in old(cache.requests) || u in RepoUrls(selected, charts.remote)
    {
      var line := UpdateAndReport(charts, selected[i], env, cache);
      assert selected[i] in selected;
      assert selected[..i + 1] == selected[..i] + [selected[i]];
      ReportsSnoc(charts, selected[..i], selected[i], env);
      reports := reports + [line];
      i := i + 1;
    }
    assert selected[..i] == selected;
  }
}
