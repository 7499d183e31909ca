/**
 * `helmet install`: applying a compiled bundle to a cluster. The rendered
 * CRDs are applied with `kubectl` when there are any, then the namespaces
 * release and then the resources release are installed or upgraded with
 * `helm`, each after asking `helm ls` whether the release already exists.
 *
 * Commands are not run here: a command is its argv, whether it exits
 * successfully is the parameter `ok`, given per phase so that the two
 * releases' identical `helm ls` commands can fare differently, and what
 * `helm ls` prints (already parsed from JSON) is a parameter per release.
 */
module Install {
  import opened Common
  import opened Strings
  import opened JsValues

  // ---------------------------------------------------------------------------
  // helm ls

  /** The properties every `helm ls -o=json` entry must carry, all strings. */
  const HelmLsFields: seq<string> := ["name", "namespace", "revision", "updated", "status", "chart", "app_version"]

  predicate HelmLsEntry(v: Value) {
    v.Obj? && forall k :: k in HelmLsFields ==> Get(v.fields, k).Str?
  }

  /** The `HelmLsResultSchema` check, giving the listed release names. */
  function HelmLsNames(v: Value): (r: Option<seq<string>>)
    ensures r.Some? <==> v.Arr? && forall e :: e in v.items ==> HelmLsEntry(e)
    ensures r.Some? ==>
      |r.value| == |v.items| && forall i :: 0 <= i < |v.items| ==> v.items[i].Obj? && Get(v.items[i].fields, "name") == Str(r.value[i])
  {
    if v.Arr? && forall e :: e in v.items ==> HelmLsEntry(e) then
      assert "name" in HelmLsFields;
      assert forall i :: 0 <= i < |v.items| ==> HelmLsEntry(v.items[i]);
      Some(seq(|v.items|, i requires 0 <= i < |v.items| => Get(v.items[i].fields, "name").s))
    else None
  }

  function LsArgv(namespace: string): seq<string> {
    ["helm", "ls", "-a", "-n", namespace, "-o=json"]
  }

  // ---------------------------------------------------------------------------
  // helm install / upgrade argv

  /** The options every helm step of one install shares. */
  datatype HelmFlags = HelmFlags(wait: bool, cleanupOnFail: bool, atomic: bool, timeout: Option<string>,
                                 force: bool, createNamespace: bool, debug: bool)

  /** An optional flag of `helm install` or `helm upgrade`. */
  datatype Flag = Wait | CleanupOnFail | Atomic | Timeout(value: string) | Force | CreateNamespace | Debug

  function FlagText(fl: Flag): string {
    match fl
    case Wait => "--wait"
    case CleanupOnFail => "--cleanup-on-fail"
    case Atomic => "--atomic"
    case Timeout(t) => "--timeout=" + t
    case Force => "--force"
    case CreateNamespace => "--create-namespace"
    case Debug => "--debug"
  }

  /** Different flags are different words on the command line. */
  lemma FlagTextInjective(a: Flag, b: Flag)
    ensures FlagText(a) == FlagText(b) ==> a == b
  {
    if FlagText(a) == FlagText(b) {
      var t := FlagText(a);
      assert t[2] == FlagText(b)[2] && t[3] == FlagText(b)[3];
      if a.Timeout? && b.Timeout? {
        assert a.value == t[10..] == b.value;
      }
    }
  }

  function Texts(flags: seq<Flag>): (r: seq<string>)
    ensures |r| == |flags| && forall i :: 0 <= i < |flags| ==> r[i] == FlagText(flags[i])
  {
    seq(|flags|, i requires 0 <= i < |flags| => FlagText(flags[i]))
  }

  function Opt(on: bool, fl: Flag): (r: seq<Flag>)
    ensures forall y :: y in r <==> on && y == fl
  {
    if on then [fl] else []
  }

  /** `...(timeout ? [`--timeout=${timeout}`] : [])`: only a non-empty timeout is passed. */
  function TimeoutFlag(timeout: Option<string>): (r: seq<Flag>)
    ensures forall y :: y in r <==> y.Timeout? && timeout == Some(y.value) && y.value != ""
  {
    if timeout.Some? && timeout.value != "" then [Timeout(timeout.value)] else []
  }

  /** The optional flags of `helm upgrade`. */
  function UpgradeFlags(f: HelmFlags): seq<Flag> {
    Opt(f.wait, Wait) + (Opt(f.cleanupOnFail, CleanupOnFail) + (Opt(f.atomic, Atomic) + (TimeoutFlag(f.timeout) +
    (Opt(f.force, Force) + (Opt(f.createNamespace, CreateNamespace) + Opt(f.debug, Debug))))))
  }

  /** The optional flags of `helm install`. */
  function InstallFlags(f: HelmFlags): seq<Flag> {
    Opt(f.wait, Wait) + (Opt(f.atomic, Atomic) + (TimeoutFlag(f.timeout) + (Opt(f.createNamespace, CreateNamespace) +
    Opt(f.debug, Debug))))
  }

  function UpgradeArgv(name: string, namespace: string, chartPath: string, f: HelmFlags): seq<string> {
    ["helm", "upgrade", "-n", namespace, "--history-max=2"] + Texts(UpgradeFlags(f)) + [name, chartPath]
  }

  function InstallArgv(name: string, namespace: string, chartPath: string, f: HelmFlags): seq<string> {
    ["helm", "install", "-n", namespace] + Texts(InstallFlags(f)) + [name, chartPath]
  }

  /** Upgrade a release `helm ls` lists under exactly this name; install it otherwise. */
  function HelmArgv(listed: seq<string>, name: string, namespace: string, chartPath: string, f: HelmFlags)
    : (argv: seq<string>)
    ensures |argv| >= 6 && argv[0] == "helm" && argv[2..4] == ["-n", namespace]
    ensures argv[1] == "upgrade" <==> name in listed
    ensures argv[1] == "install" <==> name !in listed
    ensures argv[|argv| - 2..] == [name, chartPath]
  {
    if name in listed then UpgradeArgv(name, namespace, chartPath, f) else InstallArgv(name, namespace, chartPath, f)
  }

  /** Where a flag sits in the fixed order. */
  function Rank(fl: Flag): nat {
    match fl
    case Wait => 0
    case CleanupOnFail => 1
    case Atomic => 2
    case Timeout(_) => 3
    case Force => 4
    case CreateNamespace => 5
    case Debug => 6
  }

  predicate InFixedOrder(flags: seq<Flag>) {
    forall i, j :: 0 <= i < j < |flags| ==> Rank(flags[i]) < Rank(flags[j])
  }

  /** An optional flag in front of flags that all rank after it keeps the order. */
  lemma ConsOrdered(on: bool, fl: Flag, rest: seq<Flag>)
    requires InFixedOrder(rest) && forall y :: y in rest ==> Rank(fl) < Rank(y)
    ensures InFixedOrder(Opt(on, fl) + rest)
    ensures forall y :: y in Opt(on, fl) + rest ==> Rank(fl) <= Rank(y)
  {
    if on {
      var s := [fl] + rest;
      forall i, j | 0 <= i < j < |s| ensures Rank(s[i]) < Rank(s[j]) {
        assert s[j] == rest[j - 1];
        if i > 0 {
          assert s[i] == rest[i - 1];
        } else {
          assert rest[j - 1] in rest;
        }
      }
    }
  }

  /**
   * The upgrade flags come in the fixed order wait, cleanup-on-fail, atomic,
   * timeout, force, create-namespace, debug.
   */
  lemma UpgradeFlagsOrdered(f: HelmFlags)
    ensures InFixedOrder(UpgradeFlags(f))
  {
    var w, c, a, t := Opt(f.wait, Wait), Opt(f.cleanupOnFail, CleanupOnFail), Opt(f.atomic, Atomic), TimeoutFlag(f.timeout);
    var fo, n, d := Opt(f.force, Force), Opt(f.createNamespace, CreateNamespace), Opt(f.debug, Debug);
    ConsOrdered(f.createNamespace, CreateNamespace, d);
    ConsOrdered(f.force, Force, n + d);
    var tail := fo + (n + d);
    if f.timeout.Some? && f.timeout.value != "" {
      ConsOrdered(true, Timeout(f.timeout.value), tail);
    } else {
      ConsOrdered(false, Timeout(""), tail);
    }
    ConsOrdered(f.atomic, Atomic, t + tail);
    ConsOrdered(f.cleanupOnFail, CleanupOnFail, a + (t + tail));
    ConsOrdered(f.wait, Wait, c + (a + (t + tail)));
  }

  /** Each upgrade flag is present exactly when its option is on, the timeout exactly when it is a non-empty string. */
  lemma UpgradeFlagsPresent(f: HelmFlags)
    ensures Wait in UpgradeFlags(f) <==> f.wait
    ensures CleanupOnFail in UpgradeFlags(f) <==> f.cleanupOnFail
    ensures Atomic in UpgradeFlags(f) <==> f.atomic
    ensures Force in UpgradeFlags(f) <==> f.force
    ensures CreateNamespace in UpgradeFlags(f) <==> f.createNamespace
    ensures Debug in UpgradeFlags(f) <==> f.debug
    ensures forall t :: Timeout(t) in UpgradeFlags(f) <==> f.timeout == Some(t) && t != ""
  {
    UpgradeFlagIn(f, Wait);
    UpgradeFlagIn(f, CleanupOnFail);
    UpgradeFlagIn(f, Atomic);
    UpgradeFlagIn(f, Force);
    UpgradeFlagIn(f, CreateNamespace);
    UpgradeFlagIn(f, Debug);
    forall t ensures Timeout(t) in UpgradeFlags(f) <==> f.timeout == Some(t) && t != "" {
      UpgradeFlagIn(f, Timeout(t));
    }
  }

  /** Whether the options ask for a flag. */
  predicate Enabled(f: HelmFlags, fl: Flag) {
    match fl
    case Wait => f.wait
    case CleanupOnFail => f.cleanupOnFail
    case Atomic => f.atomic
    case Timeout(t) => f.timeout == Some(t) && t != ""
    case Force => f.force
    case CreateNamespace => f.createNamespace
    case Debug => f.debug
  }

  lemma UpgradeFlagIn(f: HelmFlags, fl: Flag)
    ensures fl in UpgradeFlags(f) <==> Enabled(f, fl)
  {
    var w, c, a, t := Opt(f.wait, Wait), Opt(f.cleanupOnFail, CleanupOnFail), Opt(f.atomic, Atomic), TimeoutFlag(f.timeout);
    var fo, n, d := Opt(f.force, Force), Opt(f.createNamespace, CreateNamespace), Opt(f.debug, Debug);
    assert fl in UpgradeFlags(f) <==> fl in w || fl in c || fl in a || fl in t || fl in fo || fl in n || fl in d;
  }

  /**
   * `helm install` gets the upgrade flags minus cleanup-on-fail and force,
   * in the same order.
   */
  lemma InstallFlagsAreUpgradeFlags(f: HelmFlags)
    ensures InstallFlags(f) == UpgradeFlags(f.(cleanupOnFail := false, force := false))
    ensures CleanupOnFail !in InstallFlags(f) && Force !in InstallFlags(f)
  {
    var g := f.(cleanupOnFail := false, force := false);
    var n, d := Opt(f.createNamespace, CreateNamespace), Opt(f.debug, Debug);
    var t := TimeoutFlag(f.timeout);
    assert Opt(g.force, Force) + (n + d) == n + d;
    assert Opt(g.cleanupOnFail, CleanupOnFail) + (Opt(f.atomic, Atomic) + (t + (n + d))) == Opt(f.atomic, Atomic) + (t + (n + d));
    UpgradeFlagIn(g, CleanupOnFail);
    UpgradeFlagIn(g, Force);
  }

  /** `--history-max=2` is passed to upgrades and never to installs. */
  lemma HistoryMaxOnlyOnUpgrade(name: string, namespace: string, chartPath: string, f: HelmFlags)
    ensures UpgradeArgv(name, namespace, chartPath, f)[4] == "--history-max=2"
    ensures forall x :: x in Texts(InstallFlags(f)) ==> x != "--history-max=2"
  {
    forall x | x in Texts(InstallFlags(f)) ensures x != "--history-max=2" {
      var i :| 0 <= i < |InstallFlags(f)| && x == FlagText(InstallFlags(f)[i]);
      NotHistoryMax(InstallFlags(f)[i]);
    }
  }

  lemma NotHistoryMax(fl: Flag)
    ensures FlagText(fl) != "--history-max=2"
  {
    assert FlagText(fl)[2] != "--history-max=2"[2];
  }

  // ---------------------------------------------------------------------------
  // The stdout of helm

  const ValuesMarker: string := "USER-SUPPLIED VALUES:"

  /**
   * The redaction loop of `helmInstall` as written: the flag is raised when
   * it is not yet raised or the line starts the values dump, and a line is
   * echoed only while the flag is down. The first line raises it, so nothing
   * is ever echoed.
   */
  method EchoedAsWritten(lines: seq<string>) returns (echoed: seq<string>)
    ensures echoed == []
  {
    var redacting := false;
    echoed := [];
    var i := 0;
    while i < |lines|
      invariant 0 <= i <= |lines|
      invariant i > 0 ==> redacting
      invariant echoed == []
    {
      var line := lines[i];
      if !redacting || StartsWith(line, ValuesMarker) {
        redacting := true;
      }
      if !redacting {
        echoed := echoed + [line];
      }
      i := i + 1;
    }
  }

  /** The index of the first line starting the values dump, or the number of lines. */
  function FirstMarker(lines: seq<string>): (n: nat)
    ensures n <= |lines|
    ensures n < |lines| ==> StartsWith(lines[n], ValuesMarker)
    ensures forall i :: 0 <= i < n ==> !StartsWith(lines[i], ValuesMarker)
  {
    if lines == [] then 0
    else if StartsWith(lines[0], ValuesMarker) then 0
    else
      var n := FirstMarker(lines[1..]);
      assert forall i :: 1 <= i < n + 1 ==> lines[i] == lines[1..][i - 1];
      n + 1
  }

  /**
   * The loop as its guard evidently intends: the flag is raised by the first
   * line starting the values dump and never lowered, so exactly the lines
   * before it are echoed.
   */
  method EchoedIntended(lines: seq<string>) returns (echoed: seq<string>)
    ensures echoed == lines[..FirstMarker(lines)]
  {
    var redacting := false;
    echoed := [];
    var i := 0;
    while i < |lines|
      invariant 0 <= i <= |lines|
      invariant redacting <==> FirstMarker(lines) < i
      invariant echoed == lines[..if redacting then FirstMarker(lines) else i]
    {
      var line := lines[i];
      if !redacting && StartsWith(line, ValuesMarker) {
        redacting := true;
      }
      if !redacting {
        assert lines[..i + 1] == lines[..i] + [line];
        echoed := echoed + [line];
      }
      i := i + 1;
    }
  }

  /**
   * Output with no values dump: run on the same single ordinary line, the
   * loop as written echoes nothing and the intended loop echoes the line.
   */
  method RedactionDiscrepancy(line: string) returns (asWritten: seq<string>, intended: seq<string>)
    requires !StartsWith(line, ValuesMarker)
    ensures asWritten == [] && intended == [line]
    ensures asWritten != intended
  {
    asWritten := EchoedAsWritten([line]);
    intended := EchoedIntended([line]);
  }

  // ---------------------------------------------------------------------------
  // install

  datatype InstallError = HelmLsInvalid(release: string) | CommandFailed(argv: seq<string>)

  /** What running some commands came to: the commands started, in order, and the first failure. */
  datatype Run = Run(ran: seq<seq<string>>, failure: Option<InstallError>)

  /** `helmInstall` for one release: list, check the listing, then install or upgrade. */
  function HelmInstallRun(name: string, namespace: string, chartPath: string, f: HelmFlags, lsOutput: Value,
                          ok: seq<string> -> bool): (r: Run)
    ensures |r.ran| >= 1 && r.ran[0] == LsArgv(namespace)
    ensures HelmLsNames(lsOutput).None? && ok(LsArgv(namespace)) ==> r == Run([LsArgv(namespace)], Some(HelmLsInvalid(name)))
    ensures |r.ran| == 2 <==> ok(LsArgv(namespace)) && HelmLsNames(lsOutput).Some?
    ensures |r.ran| == 2 ==> r.ran[1] == HelmArgv(HelmLsNames(lsOutput).value, name, namespace, chartPath, f)
    ensures r.failure.None? <==> |r.ran| == 2 && ok(r.ran[1])
  {
    var ls := LsArgv(namespace);
    if !ok(ls) then Run([ls], Some(CommandFailed(ls)))
    else
      var listed := HelmLsNames(lsOutput);
      if listed.None? then Run([ls], Some(HelmLsInvalid(name)))
      else
        var argv := HelmArgv(listed.value, name, namespace, chartPath, f);
        Run([ls, argv], if ok(argv) then None else Some(CommandFailed(argv)))
  }

  /** The three phases of `install`; each runs its own commands, which succeed or fail on their own. */
  datatype Phase = ApplyCrds | NamespacesRelease | ResourcesRelease

  /** Whether each command of one phase exits successfully. */
  function PhaseOk(ok: (Phase, seq<string>) -> bool, phase: Phase): seq<string> -> bool {
    argv => ok(phase, argv)
  }

  function CrdApplyArgv(resolvedSource: string): seq<string> {
    ["kubectl", "apply", "--server-side", "--force-conflicts", "-f", resolvedSource + "/crds/rendered"]
  }

  /** The whole of `install` as a specification: CRDs, then the namespaces release, then the resources release. */
  function InstallRun(name: string, namespace: string, resolvedSource: string, f: HelmFlags, hasCrds: bool,
                      lsNamespaces: Value, lsResources: Value, ok: (Phase, seq<string>) -> bool): Run
  {
    var crds := if hasCrds then [CrdApplyArgv(resolvedSource)] else [];
    if hasCrds && !ok(ApplyCrds, CrdApplyArgv(resolvedSource)) then Run(crds, Some(CommandFailed(CrdApplyArgv(resolvedSource))))
    else
      var releases := ReleasesRun(name, namespace, resolvedSource, f, lsNamespaces, lsResources, ok);
      Run(crds + releases.ran, releases.failure)
  }

  /** The two helm releases of `install`: the namespaces release, then, if it went through, the resources release. */
  function ReleasesRun(name: string, namespace: string, resolvedSource: string, f: HelmFlags,
                       lsNamespaces: Value, lsResources: Value, ok: (Phase, seq<string>) -> bool): Run
  {
    var nsRun := HelmInstallRun(name + "-namespaces", namespace, resolvedSource + "/namespaces", f, lsNamespaces, PhaseOk(ok, NamespacesRelease));
    if nsRun.failure.Some? then nsRun
    else
      var resRun := HelmInstallRun(name + "-resources", namespace, resolvedSource + "/resources", f, lsResources, PhaseOk(ok, ResourcesRelease));
      Run(nsRun.ran + resRun.ran, resRun.failure)
  }

  /** `install`: the steps one after the other, stopping at the first that fails. */
  method RunInstall(name: string, namespace: string, resolvedSource: string, f: HelmFlags, hasCrds: bool,
                    lsNamespaces: Value, lsResources: Value, ok: (Phase, seq<string>) -> bool) returns (r: Run)
    ensures r == InstallRun(name, namespace, resolvedSource, f, hasCrds, lsNamespaces, lsResources, ok)
  {
    var ran: seq<seq<string>> := [];
    if hasCrds {
      var apply := CrdApplyArgv(resolvedSource);
      ran := ran + [apply];
      if !ok(ApplyCrds, apply) {
        return Run(ran, Some(CommandFailed(apply)));
      }
    }
    var nsRun := HelmInstallRun(name + "-namespaces", namespace, resolvedSource + "/namespaces", f, lsNamespaces, PhaseOk(ok, NamespacesRelease));
    ran := ran + nsRun.ran;
    if nsRun.failure.Some? {
      return Run(ran, nsRun.failure);
    }
    var resRun := HelmInstallRun(name + "-resources", namespace, resolvedSource + "/resources", f, lsResources, PhaseOk(ok, ResourcesRelease));
    assert ran + resRun.ran == (if hasCrds then [CrdApplyArgv(resolvedSource)] else []) + (nsRun.ran + resRun.ran);
    ran := ran + resRun.ran;
    return Run(ran, resRun.failure);
  }

  /**
   * The two releases list with the same `helm ls` argv, yet the second
   * listing can fail after the namespaces release went through.
   */
  lemma ResourcesListingCanFail(name: string, namespace: string, resolvedSource: string, f: HelmFlags,
                                lsNamespaces: Value, lsResources: Value)
    requires HelmLsNames(lsNamespaces).Some?
    ensures var r := InstallRun(name, namespace, resolvedSource, f, false, lsNamespaces, lsResources,
                                (phase: Phase, argv: seq<string>) => phase != ResourcesRelease);
      && |r.ran| == 3 && r.ran[0] == r.ran[2] == LsArgv(namespace)
      && r.ran[1] == HelmArgv(HelmLsNames(lsNamespaces).value, name + "-namespaces", namespace, resolvedSource + "/namespaces", f)
      && r.failure == Some(CommandFailed(LsArgv(namespace)))
  {
  }

  /**
   * CRDs are applied server-side, first, exactly when the bundle has rendered
   * CRDs; every other command is a helm command.
   */
  lemma CrdsAppliedFirst(name: string, namespace: string, resolvedSource: string, f: HelmFlags, hasCrds: bool,
                         lsNamespaces: Value, lsResources: Value, ok: (Phase, seq<string>) -> bool)
    ensures var r := InstallRun(name, namespace, resolvedSource, f, hasCrds, lsNamespaces, lsResources, ok);
      && (hasCrds <==> r.ran[0][0] == "kubectl")
      && (hasCrds ==> r.ran[0] == CrdApplyArgv(resolvedSource) && "--server-side" in r.ran[0] && "--force-conflicts" in r.ran[0])
      && forall i :: 0 < i < |r.ran| ==> r.ran[i][0] == "helm"
  {
    var crds := if hasCrds then [CrdApplyArgv(resolvedSource)] else [];
    var releases := ReleasesRun(name, namespace, resolvedSource, f, lsNamespaces, lsResources, ok);
    ReleasesAreHelm(name, namespace, resolvedSource, f, lsNamespaces, lsResources, ok);
    var r := InstallRun(name, namespace, resolvedSource, f, hasCrds, lsNamespaces, lsResources, ok);
    if hasCrds && !ok(ApplyCrds, CrdApplyArgv(resolvedSource)) {
      assert r.ran == crds;
    } else {
      assert r.ran == crds + releases.ran;
      forall i | 0 < i < |r.ran| ensures r.ran[i][0] == "helm" {
        assert r.ran[i] == releases.ran[i - |crds|];
      }
      if !hasCrds {
        assert r.ran[0] == releases.ran[0];
      }
    }
  }

  /** Both releases run helm commands only, and at least one. */
  lemma ReleasesAreHelm(name: string, namespace: string, resolvedSource: string, f: HelmFlags,
                        lsNamespaces: Value, lsResources: Value, ok: (Phase, seq<string>) -> bool)
    ensures var r := ReleasesRun(name, namespace, resolvedSource, f, lsNamespaces, lsResources, ok);
      |r.ran| > 0 && forall i :: 0 <= i < |r.ran| ==> |r.ran[i]| > 0 && r.ran[i][0] == "helm"
  {
    var nsRun := HelmInstallRun(name + "-namespaces", namespace, resolvedSource + "/namespaces", f, lsNamespaces, PhaseOk(ok, NamespacesRelease));
    var resRun := HelmInstallRun(name + "-resources", namespace, resolvedSource + "/resources", f, lsResources, PhaseOk(ok, ResourcesRelease));
    HelmCommands(name + "-namespaces", namespace, resolvedSource + "/namespaces", f, lsNamespaces, PhaseOk(ok, NamespacesRelease));
    HelmCommands(name + "-resources", namespace, resolvedSource + "/resources", f, lsResources, PhaseOk(ok, ResourcesRelease));
    var r := ReleasesRun(name, namespace, resolvedSource, f, lsNamespaces, lsResources, ok);
    forall i | 0 <= i < |r.ran| ensures |r.ran[i]| > 0 && r.ran[i][0] == "helm" {
      assert r.ran[i] in nsRun.ran || r.ran[i] in resRun.ran;
    }
  }

  /** Every command of one release's step is a helm command. */
  lemma HelmCommands(name: string, namespace: string, chartPath: string, f: HelmFlags, lsOutput: Value,
                     ok: seq<string> -> bool)
    ensures forall c :: c in HelmInstallRun(name, namespace, chartPath, f, lsOutput, ok).ran ==> |c| > 0 && c[0] == "helm"
  {
  }

  /**
   * The resources release is only reached once the namespaces release went
   * through; a listing that fails validation stops its release before any
   * install or upgrade of it.
   */
  lemma ReleasesInOrder(name: string, namespace: string, resolvedSource: string, f: HelmFlags, hasCrds: bool,
                        lsNamespaces: Value, lsResources: Value, ok: (Phase, seq<string>) -> bool)
    ensures var r := InstallRun(name, namespace, resolvedSource, f, hasCrds, lsNamespaces, lsResources, ok);
      var crds := if hasCrds then 1 else 0;
      && (r.failure.None? ==>
            |r.ran| == crds + 4 &&
            r.ran[crds + 1] == HelmArgv(HelmLsNames(lsNamespaces).value, name + "-namespaces", namespace, resolvedSource + "/namespaces", f) &&
            r.ran[crds + 3] == HelmArgv(HelmLsNames(lsResources).value, name + "-resources", namespace, resolvedSource + "/resources", f))
      && (HelmLsNames(lsNamespaces).None? ==> |r.ran| <= crds + 1 && r.failure.Some?)
  {
    var r := InstallRun(name, namespace, resolvedSource, f, hasCrds, lsNamespaces, lsResources, ok);
    var nsRun := HelmInstallRun(name + "-namespaces", namespace, resolvedSource + "/namespaces", f, lsNamespaces, PhaseOk(ok, NamespacesRelease));
    var resRun := HelmInstallRun(name + "-resources", namespace, resolvedSource + "/resources", f, lsResources, PhaseOk(ok, ResourcesRelease));
    var c := if hasCrds then [CrdApplyArgv(resolvedSource)] else [];
    if r.failure.None? {
      assert r.ran == c + (nsRun.ran + resRun.ran);
      assert r.ran[|c| + 1] == nsRun.ran[1];
      assert r.ran[|c| + 3] == resRun.ran[1];
    }
  }
}
