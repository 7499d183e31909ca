/**
 * The whitelist of bundle instances a cluster accepts: a ConfigMap whose data
 * maps every whitelisted instance id to "yes". `helmet whitelist-instance`
 * adds an id, `helmet blacklist-instance` removes one (two variants of that
 * action exist, one with its guard inverted), and
 * `helmet ensure-instance-whitelisted` is a membership gate.
 *
 * The kubectl calls are not run: their outcome is a parameter, and JSON
 * parsing is an oracle that may fail. The JavaScript `Set` the actions work on
 * is a class whose field lists the members in insertion order.
 */
module Whitelist {
  import opened Common
  import opened Strings
  import opened JsValues

  const ConfigMapName: string := "helmet-whitelist"
  const ConfigMapNamespace: string := "default"
  const Yes: string := "yes"
  const NotFound: string := "not found"

  /** `kubectl get configmap/helmet-whitelist -n default -o=jsonpath={.data}`. */
  const FetchArgv: seq<string> :=
    ["kubectl", "get", "configmap/" + ConfigMapName, "-n", ConfigMapNamespace, "-o=jsonpath={.data}"]

  /** The new ConfigMap goes to `kubectl apply -f -` on stdin. */
  const ApplyArgv: seq<string> := ["kubectl", "apply", "-f", "-"]

  /** `kubectl config current-context`, asked only to explain a refusal. */
  const ContextArgv: seq<string> := ["kubectl", "config", "current-context"]

  datatype KubectlOutput = KubectlOutput(code: int, stdout: string, stderr: string)

  datatype FetchError =
    | KubectlFailed(stderr: string)
    | InvalidJson(stdout: string)
    | NotAnObject(data: Value)

  // ---------------------------------------------------------------------------
  // Sequences as JavaScript sets

  /** The members after `set.add(x)`: a new member goes last. */
  function Added(xs: seq<string>, x: string): seq<string> {
    if x in xs then xs else xs + [x]
  }

  /** The members after `set.delete(x)`: every member but `x`, in the same order. */
  function Remove(xs: seq<string>, x: string): seq<string> {
    if xs == [] then []
    else (if xs[0] == x then [] else [xs[0]]) + Remove(xs[1..], x)
  }

  lemma {:induction false} RemoveMembers(xs: seq<string>, x: string, y: string)
    ensures y in Remove(xs, x) <==> y in xs && y != x
  {
    if xs != [] {
      RemoveMembers(xs[1..], x, y);
      assert xs == [xs[0]] + xs[1..];
    }
  }

  lemma {:induction false} RemoveAbsent(xs: seq<string>, x: string)
    requires x !in xs
    ensures Remove(xs, x) == xs
  {
    if xs != [] {
      assert xs[1..] + [] == xs[1..];
      RemoveAbsent(xs[1..], x);
      assert xs == [xs[0]] + xs[1..];
    }
  }

  /** Deleting a member of a set cuts it out where it stands. */
  lemma {:induction false} RemoveAt(xs: seq<string>, k: nat)
    requires Distinct(xs) && k < |xs|
    ensures Remove(xs, xs[k]) == xs[..k] + xs[k + 1..]
  {
    if k == 0 {
      assert xs[0] !in xs[1..];
      RemoveAbsent(xs[1..], xs[0]);
    } else {
      RemoveAt(xs[1..], k - 1);
      assert xs[1..][k - 1] == xs[k];
      assert xs[1..][..k - 1] == xs[1..k];
      assert xs[1..][k..] == xs[k + 1..];
      assert [xs[0]] + xs[1..k] == xs[..k];
    }
  }

  /** A JavaScript `Set<string>` updated in place: `items` lists the members in insertion order. */
  class StringSet {
    var items: seq<string>

    ghost predicate Valid()
      reads this
    {
      Distinct(items)
    }

    /** `new Set(xs)`: starts empty and adds each value in turn. */
    constructor FromSeq(xs: seq<string>)
      ensures Valid() && items == Dedup(xs)
    {
      items := [];
      new;
      var i := 0;
      while i < |xs|
        invariant 0 <= i <= |xs|
        invariant Valid() && items == Dedup(xs[..i])
      {
        assert xs[..i + 1][..i] == xs[..i];
        Add(xs[i]);
        i := i + 1;
      }
      assert xs[..i] == xs;
    }

    /** `set.add(x)`. */
    method Add(x: string)
      requires Valid()
      modifies this
      ensures Valid() && items == Added(old(items), x)
    {
      if x !in items {
        items := items + [x];
      }
    }

    /** `set.delete(x)`. */
    method Delete(x: string)
      requires Valid()
      modifies this
      ensures Valid() && items == Remove(old(items), x)
    {
      var k := 0;
      while k < |items| && items[k] != x
        invariant 0 <= k <= |items|
        invariant x !in items[..k]
      {
        k := k + 1;
      }
      if k < |items| {
        RemoveAt(items, k);
        items := items[..k] + items[k + 1..];
      } else {
        assert items[..k] == items;
        RemoveAbsent(items, x);
      }
    }
  }

  // ---------------------------------------------------------------------------
  // The ConfigMap data

  /** `Object.keys(data).filter((k) => data[k] === "yes")` over the keys `ks`. */
  function YesKeys(ks: seq<string>, data: seq<Field>): seq<string> {
    if ks == [] then []
    else (if Get(data, ks[0]) == Str(Yes) then [ks[0]] else []) + YesKeys(ks[1..], data)
  }

  /** The ids the ConfigMap data whitelists: exactly the keys whose value is "yes". */
  function DecodeData(data: Value): Result<seq<string>, FetchError> {
    if data.Obj? then Ok(YesKeys(Keys(data.fields), data.fields)) else Err(NotAnObject(data))
  }

  lemma {:induction false} YesKeysMembers(ks: seq<string>, data: seq<Field>, k: string)
    ensures k in YesKeys(ks, data) <==> k in ks && Get(data, k) == Str(Yes)
  {
    if ks != [] {
      YesKeysMembers(ks[1..], data, k);
      assert ks == [ks[0]] + ks[1..];
    }
  }

  /** An id is whitelisted exactly when the data maps it to "yes"; any other value does not whitelist it. */
  lemma DecodedMembers(fields: seq<Field>, k: string)
    ensures DecodeData(Obj(fields)).Ok?
    ensures k in DecodeData(Obj(fields)).value <==> Get(fields, k) == Str(Yes)
  {
    YesKeysMembers(Keys(fields), fields, k);
  }

  /** `updateWhitelist`'s data: `Object.fromEntries` of every member paired with "yes". */
  function EncodeData(items: seq<string>): (r: seq<Field>)
    ensures Keys(r) == items
    ensures forall i :: 0 <= i < |r| ==> r[i].val == Str(Yes)
  {
    seq(|items|, i requires 0 <= i < |items| => Field(items[i], Str(Yes)))
  }

  lemma {:induction false} YesKeysAll(ks: seq<string>, data: seq<Field>)
    requires forall k :: k in ks ==> Get(data, k) == Str(Yes)
    ensures YesKeys(ks, data) == ks
  {
    if ks != [] {
      YesKeysAll(ks[1..], data);
      assert ks == [ks[0]] + ks[1..];
    }
  }

  /** Decoding what `updateWhitelist` writes gives back the members, in order. */
  lemma DecodeEncode(items: seq<string>)
    requires Distinct(items)
    ensures DecodeData(Obj(EncodeData(items))) == Ok(items)
  {
    var fs := EncodeData(items);
    forall k | k in items ensures Get(fs, k) == Str(Yes) {
      var i :| 0 <= i < |items| && items[i] == k;
      GetAt(fs, i);
    }
    YesKeysAll(items, fs);
  }

  /**
   * `fetchCurrentWhitelist`: a failed `kubectl get` means an empty whitelist
   * when it reports the ConfigMap not found and is an error otherwise; empty
   * output is an empty whitelist; otherwise the output is parsed as JSON and
   * decoded.
   */
  function FetchCurrentWhitelist(out: KubectlOutput, parse: string -> Option<Value>): Result<seq<string>, FetchError> {
    if out.code != 0 then
      if IndexOf(out.stderr, NotFound) == -1 then Err(KubectlFailed(out.stderr)) else Ok([])
    else if |out.stdout| == 0 then Ok([])
    else
      match parse(out.stdout)
      case None => Err(InvalidJson(out.stdout))
      case Some(data) => DecodeData(data)
  }

  /** The ways a fetch ends. */
  lemma FetchOutcomes(out: KubectlOutput, parse: string -> Option<Value>)
    ensures var r := FetchCurrentWhitelist(out, parse);
      && (out.code != 0 ==> (r.Ok? <==> Contains(out.stderr, NotFound)))
      && (out.code != 0 && r.Err? ==> r.error == KubectlFailed(out.stderr))
      && (out.code != 0 || out.stdout == "" ==> r.Ok? ==> r.value == [])
      && (out.code == 0 && out.stdout == "" ==> r == Ok([]))
      && (out.code == 0 && out.stdout != "" && parse(out.stdout).Some? && parse(out.stdout).value.Obj? ==>
            r.Ok? && forall k :: k in r.value <==> Get(parse(out.stdout).value.fields, k) == Str(Yes))
  {
    if out.code == 0 && out.stdout != "" && parse(out.stdout).Some? && parse(out.stdout).value.Obj? {
      var fields := parse(out.stdout).value.fields;
      forall k ensures k in FetchCurrentWhitelist(out, parse).value <==> Get(fields, k) == Str(Yes) {
        DecodedMembers(fields, k);
      }
    }
  }

  /** What `updateWhitelist` applies: the fixed ConfigMap whose data whitelists the members. */
  datatype ConfigMap = ConfigMap(name: string, namespace: string, data: seq<Field>)

  function WhitelistConfigMap(items: seq<string>): ConfigMap {
    ConfigMap(ConfigMapName, ConfigMapNamespace, EncodeData(items))
  }

  /** The ids a written ConfigMap whitelists. */
  function Whitelisted(cm: ConfigMap): seq<string> {
    YesKeys(Keys(cm.data), cm.data)
  }

  lemma WrittenWhitelist(items: seq<string>)
    requires Distinct(items)
    ensures Whitelisted(WhitelistConfigMap(items)) == items
    ensures WhitelistConfigMap(items).name == "helmet-whitelist" && WhitelistConfigMap(items).namespace == "default"
  {
    DecodeEncode(items);
  }

  // ---------------------------------------------------------------------------
  // The actions

  /**
   * How an action ends: its exit code (or the error the fetch threw), the
   * ConfigMap it applied if any, whether it asked kubectl for the current
   * context, and what it printed to stdout.
   */
  datatype Outcome = Outcome(exit: Result<ExitCode, FetchError>, written: Option<ConfigMap>,
                             contextQueried: bool, printed: seq<string>)

  function Failed(e: FetchError): Outcome {
    Outcome(Err(e), None, false, [])
  }

  /** `helmet whitelist-instance`: the fetched whitelist plus the release id, written back. */
  function WhitelistOutcome(releaseId: string, fetched: Result<seq<string>, FetchError>): Outcome {
    match fetched
    case Err(e) => Failed(e)
    case Ok(ids) => Outcome(Ok(Zero), Some(WhitelistConfigMap(Added(Dedup(ids), releaseId))), false, [])
  }

  method WhitelistInstance(releaseId: string, out: KubectlOutput, parse: string -> Option<Value>) returns (o: Outcome)
    ensures o == WhitelistOutcome(releaseId, FetchCurrentWhitelist(out, parse))
  {
    var fetched := FetchCurrentWhitelist(out, parse);
    if fetched.Err? {
      return Failed(fetched.error);
    }
    var whitelistedSet := new StringSet.FromSeq(fetched.value);
    whitelistedSet.Add(releaseId);
    return Outcome(Ok(Zero), Some(WhitelistConfigMap(whitelistedSet.items)), false, []);
  }

  /** After `whitelist-instance` the cluster whitelists the fetched ids and the release id, and nothing else. */
  lemma WhitelistAdds(releaseId: string, ids: seq<string>)
    ensures var o := WhitelistOutcome(releaseId, Ok(ids));
      && o.exit == Ok(Zero) && o.written.Some?
      && forall y :: y in Whitelisted(o.written.value) <==> y in ids || y == releaseId
  {
    WrittenWhitelist(Added(Dedup(ids), releaseId));
  }

  /** Whitelisting an id that is already there writes the whitelist back as it was. */
  lemma WhitelistIdempotent(releaseId: string, ids: seq<string>)
    requires releaseId in ids
    ensures WhitelistOutcome(releaseId, Ok(ids)).written == Some(WhitelistConfigMap(Dedup(ids)))
    ensures Whitelisted(WhitelistOutcome(releaseId, Ok(ids)).written.value) == Dedup(ids)
  {
    WrittenWhitelist(Dedup(ids));
  }

  /** `helmet blacklist-instance`: refuses an id that is not whitelisted, otherwise writes the whitelist without it. */
  function BlacklistOutcome(instanceId: string, fetched: Result<seq<string>, FetchError>): Outcome {
    match fetched
    case Err(e) => Failed(e)
    case Ok(ids) =>
      if instanceId !in ids then Outcome(Ok(One), None, false, [])
      else Outcome(Ok(Zero), Some(WhitelistConfigMap(Remove(Dedup(ids), instanceId))), false, [])
  }

  method BlacklistInstance(instanceId: string, out: KubectlOutput, parse: string -> Option<Value>) returns (o: Outcome)
    ensures o == BlacklistOutcome(instanceId, FetchCurrentWhitelist(out, parse))
  {
    var fetched := FetchCurrentWhitelist(out, parse);
    if fetched.Err? {
      return Failed(fetched.error);
    }
    var whitelistedSet := new StringSet.FromSeq(fetched.value);
    if instanceId !in whitelistedSet.items {
      return Outcome(Ok(One), None, false, []);
    }
    whitelistedSet.Delete(instanceId);
    return Outcome(Ok(Zero), Some(WhitelistConfigMap(whitelistedSet.items)), false, []);
  }

  /**
   * An id that is not whitelisted exits One and writes nothing; a whitelisted
   * one exits Zero and the written whitelist drops it and keeps every other id.
   */
  lemma BlacklistRemoves(instanceId: string, ids: seq<string>)
    ensures var o := BlacklistOutcome(instanceId, Ok(ids));
      && (o.exit == Ok(One) <==> instanceId !in ids)
      && (o.exit == Ok(One) ==> o.written.None?)
      && (o.exit == Ok(Zero) ==>
            o.written.Some? && forall y :: y in Whitelisted(o.written.value) <==> y in ids && y != instanceId)
  {
    var o := BlacklistOutcome(instanceId, Ok(ids));
    if instanceId in ids {
      var rest := Remove(Dedup(ids), instanceId);
      forall y ensures y in rest <==> y in ids && y != instanceId {
        RemoveMembers(Dedup(ids), instanceId, y);
      }
      assert Distinct(rest) by {
        var k :| 0 <= k < |Dedup(ids)| && Dedup(ids)[k] == instanceId;
        RemoveAt(Dedup(ids), k);
      }
      WrittenWhitelist(rest);
    }
  }

  /**
   * The legacy `blacklist-instance` action as written: it refuses an id that
   * IS whitelisted, and for one that is not it deletes nothing and writes the
   * fetched whitelist back.
   */
  function LegacyBlacklistOutcome(instanceId: string, fetched: Result<seq<string>, FetchError>): Outcome {
    match fetched
    case Err(e) => Failed(e)
    case Ok(ids) =>
      if instanceId in ids then Outcome(Ok(One), None, false, [])
      else Outcome(Ok(Zero), Some(WhitelistConfigMap(Remove(Dedup(ids), instanceId))), false, [])
  }

  method LegacyBlacklistInstance(instanceId: string, out: KubectlOutput, parse: string -> Option<Value>) returns (o: Outcome)
    ensures o == LegacyBlacklistOutcome(instanceId, FetchCurrentWhitelist(out, parse))
  {
    var fetched := FetchCurrentWhitelist(out, parse);
    if fetched.Err? {
      return Failed(fetched.error);
    }
    var whitelistedSet := new StringSet.FromSeq(fetched.value);
    if instanceId in whitelistedSet.items {
      return Outcome(Ok(One), None, false, []);
    }
    whitelistedSet.Delete(instanceId);
    return Outcome(Ok(Zero), Some(WhitelistConfigMap(whitelistedSet.items)), false, []);
  }

  /**
   * The legacy action never takes an id off the whitelist: when it writes, it
   * writes exactly the fetched whitelist, and the id was not on it.
   */
  lemma LegacyNeverRemoves(instanceId: string, ids: seq<string>)
    ensures var o := LegacyBlacklistOutcome(instanceId, Ok(ids));
      && (o.exit == Ok(One) <==> instanceId in ids)
      && (o.written.Some? ==> instanceId !in ids && Whitelisted(o.written.value) == Dedup(ids))
  {
    if instanceId !in ids {
      RemoveAbsent(Dedup(ids), instanceId);
      WrittenWhitelist(Dedup(ids));
    }
  }

  /** With the whitelist ["a"], the legacy action refuses to blacklist "a", where the other one removes it. */
  lemma LegacyRefusesWhitelisted()
    ensures LegacyBlacklistOutcome("a", Ok(["a"])) == Outcome(Ok(One), None, false, [])
    ensures BlacklistOutcome("a", Ok(["a"])).written == Some(WhitelistConfigMap([]))
  {
    assert Dedup(["a"]) == ["a"];
  }

  /**
   * `helmet ensure-instance-whitelisted`: prints the id and exits Zero when
   * it is whitelisted; otherwise asks kubectl for the current context (to
   * report it) and exits One. It never writes.
   */
  function EnsureWhitelisted(instanceId: string, fetched: Result<seq<string>, FetchError>): (o: Outcome)
    ensures o.written.None?
    ensures fetched.Ok? ==> (o.exit == Ok(One) <==> instanceId !in fetched.value)
    ensures fetched.Ok? ==> (o.contextQueried <==> instanceId !in fetched.value)
    ensures o.exit == Ok(Zero) ==> o.printed == [instanceId]
    ensures fetched.Err? ==> o.exit == Err(fetched.error) && !o.contextQueried
  {
    match fetched
    case Err(e) => Failed(e)
    case Ok(ids) =>
      if instanceId !in Dedup(ids) then Outcome(Ok(One), None, true, [])
      else Outcome(Ok(Zero), None, false, [instanceId])
  }
}
