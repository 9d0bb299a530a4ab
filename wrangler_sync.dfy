/**
  Pushing a local env record to the secrets of a Cloudflare Worker through
  `wrangler`. The secret listing gives names only, so every kept key the
  Worker already holds counts as updated; the kept entries go up in one bulk
  upload, after which the stale secrets are deleted one by one. The Worker is
  modelled as an in-memory store that logs every call made to it.
*/
module WranglerSync {
  import opened Collections
  import opened Text

  /** `EnvType` */
  datatype EnvType = Dev | Prod

  /** `envMapping`: the Wrangler environment name to use for each env. */
  datatype EnvMapping = EnvMapping(dev: Option<string>, prod: Option<string>)

  /** The parts of the `sync.wrangler` configuration the sync reads. */
  datatype WranglerConfig = WranglerConfig(exclude: Option<seq<string>>, envMapping: Option<EnvMapping>)

  /** `config.exclude ?? []` */
  function ExcludePatterns(config: WranglerConfig): seq<string> {
    if config.exclude.Some? then config.exclude.value else []
  }

  /** `env ? config.envMapping?.[env] : undefined` */
  function MappedEnv(config: WranglerConfig, env: Option<EnvType>): Option<string> {
    if env.None? || config.envMapping.None? then None
    else match env.value
      case Dev => config.envMapping.value.dev
      case Prod => config.envMapping.value.prod
  }

  /** `buildWranglerArgs`: the base arguments, followed by `--env` and the mapped name when there is one. */
  function BuildWranglerArgs(base: seq<string>, config: WranglerConfig, env: Option<EnvType>): (args: seq<string>)
    ensures |base| <= |args| && args[..|base|] == base
  {
    var name := MappedEnv(config, env);
    if name.Some? && name.value != "" then base + ["--env", name.value] else base
  }

  /**
    The arguments gain exactly `--env` and the mapped name when an env is
    given and its mapping is a non-empty string, and are the base otherwise.
  */
  lemma BuildWranglerArgsSpec(base: seq<string>, config: WranglerConfig, env: Option<EnvType>)
    ensures var args := BuildWranglerArgs(base, config, env);
      (args != base <==>
        (env.Some? && config.envMapping.Some? &&
         var name := if env.value == Dev then config.envMapping.value.dev else config.envMapping.value.prod;
         name.Some? && name.value != "")) &&
      (args != base ==> args == base + ["--env", MappedEnv(config, env).value])
  {
    var args := BuildWranglerArgs(base, config, env);
    if args != base {
      assert |args| == |base| + 2;
    }
  }

  /**
    `getWranglerSecrets`: the secret names, each once, in listing order; no
    names when the process failed (`exitCode` non-zero) or its output was not
    a JSON array of entries (`names` is `None`).
  */
  function SecretNames(exitCode: int, names: Option<seq<string>>): (r: seq<string>)
    ensures NoDup(r)
    ensures exitCode != 0 || names.None? ==> r == []
    ensures names.Some? && exitCode == 0 ==> forall k :: k in r <==> k in names.value
  {
    if exitCode != 0 then []
    else if names.None? then []
    else Distinct(names.value)
  }

  /** The keys the sync manages: those the exclude patterns do not name. */
  function KeepTest(excluded: (string, seq<string>) -> bool, patterns: seq<string>): string -> bool {
    k => !excluded(k, patterns)
  }

  /** `toSync`: the entries of the local record the patterns do not exclude. */
  function Kept(excluded: (string, seq<string>) -> bool, patterns: seq<string>, local: Record): (r: Record)
    requires local.Valid()
    ensures r.Valid()
  {
    FilterRecord(local, KeepTest(excluded, patterns))
  }

  /** The three lists the sync reports. */
  datatype Plan = Plan(added: seq<string>, updated: seq<string>, removed: seq<string>)

  /** The lists `syncToWrangler` returns for a local record and the listed secret names. */
  function WranglerPlan(excluded: (string, seq<string>) -> bool, patterns: seq<string>, local: Record, current: seq<string>): Plan
    requires local.Valid()
  {
    var kept := Kept(excluded, patterns, local);
    Plan(Outside(kept.keys, Elems(current)),
         Inside(kept.keys, Elems(current)),
         Outside(Filter(current, KeepTest(excluded, patterns)), kept.values.Keys))
  }

  /**
    Added: kept local keys the Worker lacks. Updated: kept local keys it
    holds, whatever their value. Removed: listed names that are not excluded
    and not kept locally.
  */
  lemma WranglerPlanSpec(excluded: (string, seq<string>) -> bool, patterns: seq<string>, local: Record, current: seq<string>)
    requires local.Valid()
    ensures var p := WranglerPlan(excluded, patterns, local, current);
      (forall k :: k in p.added <==> k in local.values && !excluded(k, patterns) && k !in current) &&
      (forall k :: k in p.updated <==> k in local.values && !excluded(k, patterns) && k in current) &&
      (forall k :: k in p.removed <==> k in current && !excluded(k, patterns) && k !in local.values)
  {
    var keep := KeepTest(excluded, patterns);
    var kept := Kept(excluded, patterns, local);
    var p := WranglerPlan(excluded, patterns, local, current);
    FilterRecordSpec(local, keep);
    assert forall k :: k in kept.values <==> k in local.values && !excluded(k, patterns);
    assert forall k :: k in p.added <==> k in local.values && !excluded(k, patterns) && k !in current by {
      OutsideSpec(kept.keys, Elems(current));
    }
    assert forall k :: k in p.updated <==> k in local.values && !excluded(k, patterns) && k in current by {
      InsideSpec(kept.keys, Elems(current));
    }
    assert forall k :: k in p.removed <==> k in current && !excluded(k, patterns) && k !in local.values by {
      FilterSpec(current, keep);
      OutsideSpec(Filter(current, keep), kept.values.Keys);
    }
  }

  /**
    The lists have no repetitions and keep the order of the local record
    (added, updated) and of the listing (removed).
  */
  lemma WranglerPlanOrder(excluded: (string, seq<string>) -> bool, patterns: seq<string>, local: Record, current: seq<string>)
    requires local.Valid() && NoDup(current)
    ensures var p := WranglerPlan(excluded, patterns, local, current);
      NoDup(p.added) && NoDup(p.updated) && NoDup(p.removed) &&
      SubseqOf(p.added, local.keys) && SubseqOf(p.updated, local.keys) && SubseqOf(p.removed, current)
  {
    var keep := KeepTest(excluded, patterns);
    var kept := Kept(excluded, patterns, local);
    FilterRecordSpec(local, keep);
    FilterSpec(current, keep);
    OutsideSpec(kept.keys, Elems(current));
    InsideSpec(kept.keys, Elems(current));
    OutsideSpec(Filter(current, keep), kept.values.Keys);
    SubseqOfTransitive(Outside(kept.keys, Elems(current)), kept.keys, local.keys);
    SubseqOfTransitive(Inside(kept.keys, Elems(current)), kept.keys, local.keys);
    SubseqOfTransitive(Outside(Filter(current, keep), kept.values.Keys), Filter(current, keep), current);
  }

  /** Added and updated split the kept keys between them, and no key is in two of the lists. */
  lemma WranglerPlanPartition(excluded: (string, seq<string>) -> bool, patterns: seq<string>, local: Record, current: seq<string>)
    requires local.Valid()
    ensures var p := WranglerPlan(excluded, patterns, local, current);
      |p.added| + |p.updated| == |Kept(excluded, patterns, local).keys| &&
      Elems(p.added) !! Elems(p.updated) && Elems(p.added) !! Elems(p.removed) && Elems(p.updated) !! Elems(p.removed)
  {
    var kept := Kept(excluded, patterns, local);
    InsideOutsidePartition(kept.keys, Elems(current));
    WranglerPlanSpec(excluded, patterns, local, current);
  }

  /** With no names listed, nothing is removed and every kept key counts as added. */
  lemma WranglerFailedListing(excluded: (string, seq<string>) -> bool, patterns: seq<string>, local: Record,
                              exitCode: int, names: Option<seq<string>>)
    requires local.Valid()
    requires exitCode != 0 || names.None?
    ensures var p := WranglerPlan(excluded, patterns, local, SecretNames(exitCode, names));
      p.removed == [] && p.updated == [] && p.added == Kept(excluded, patterns, local).keys
  {
    var kept := Kept(excluded, patterns, local);
    assert Elems(SecretNames(exitCode, names)) == {};
    OutsideSpec(kept.keys, {});
    InsideSpec(kept.keys, {});
    OutsideAll(kept.keys);
    EmptyWithoutElements(Inside(kept.keys, {}));
  }

  /** Filtering out nothing keeps the sequence. */
  lemma {:induction false} OutsideAll(s: seq<string>)
    ensures Outside(s, {}) == s
  {
    if |s| > 0 {
      OutsideAll(s[..|s| - 1]);
      assert s[..|s| - 1] + [s[|s| - 1]] == s;
    }
  }

  /** One command sent to the Worker. */
  datatype WranglerCall =
    | BulkPut(secrets: Record, args: seq<string>)
    | DeleteSecret(key: string, args: seq<string>)

  /** The arguments of `wrangler secret bulk` for the temporary file `tempFile`. */
  function BulkArgs(config: WranglerConfig, env: EnvType, tempFile: string): seq<string> {
    BuildWranglerArgs(["wrangler", "secret", "bulk", tempFile], config, Some(env))
  }

  /** The arguments of `wrangler secret delete`. */
  function DeleteArgs(config: WranglerConfig, env: EnvType, key: string): seq<string> {
    BuildWranglerArgs(["wrangler", "secret", "delete", key, "--force"], config, Some(env))
  }

  /** The delete calls for `keys`, in order. */
  function DeleteCalls(config: WranglerConfig, env: EnvType, keys: seq<string>): seq<WranglerCall> {
    if |keys| == 0 then []
    else DeleteCalls(config, env, keys[..|keys| - 1]) + [DeleteSecret(keys[|keys| - 1], DeleteArgs(config, env, keys[|keys| - 1]))]
  }

  /** One more removed key adds its delete call at the end. */
  lemma DeleteCallsSnoc(config: WranglerConfig, env: EnvType, keys: seq<string>, k: string)
    ensures DeleteCalls(config, env, keys + [k]) == DeleteCalls(config, env, keys) + [DeleteSecret(k, DeleteArgs(config, env, k))]
  {
    assert (keys + [k])[..|keys|] == keys;
  }

  /** Every call a non-dry sync makes, in the order it makes them. */
  function WranglerCalls(excluded: (string, seq<string>) -> bool, config: WranglerConfig, env: EnvType, tempFile: string,
                         local: Record, current: seq<string>): seq<WranglerCall>
    requires local.Valid()
  {
    var patterns := ExcludePatterns(config);
    var p := WranglerPlan(excluded, patterns, local, current);
    var bulk := if |p.added| > 0 || |p.updated| > 0
      then [BulkPut(Kept(excluded, patterns, local), BulkArgs(config, env, tempFile))] else [];
    bulk + DeleteCalls(config, env, p.removed)
  }

  /**
    A non-dry sync makes one bulk upload of the whole kept record exactly when
    that record is non-empty, and then one delete per removed key, in removed
    order, each with the environment's arguments.
  */
  lemma WranglerCallsOrder(excluded: (string, seq<string>) -> bool, config: WranglerConfig, env: EnvType, tempFile: string,
                           local: Record, current: seq<string>)
    requires local.Valid()
    ensures var patterns := ExcludePatterns(config);
      var p := WranglerPlan(excluded, patterns, local, current);
      var kept := Kept(excluded, patterns, local);
      var cs := WranglerCalls(excluded, config, env, tempFile, local, current);
      var b := if kept.keys != [] then 1 else 0;
      |cs| == b + |p.removed| &&
      (kept.keys != [] ==> cs[0] == BulkPut(kept, BulkArgs(config, env, tempFile))) &&
      (forall i :: 0 <= i < |p.removed| ==> cs[b + i] == DeleteSecret(p.removed[i], DeleteArgs(config, env, p.removed[i])))
  {
    var patterns := ExcludePatterns(config);
    var p := WranglerPlan(excluded, patterns, local, current);
    var kept := Kept(excluded, patterns, local);
    var bulk := if |p.added| > 0 || |p.updated| > 0 then [BulkPut(kept, BulkArgs(config, env, tempFile))] else [];
    assert WranglerCalls(excluded, config, env, tempFile, local, current) == bulk + DeleteCalls(config, env, p.removed);
    InsideOutsideLength(kept.keys, Elems(current));
    ThenDeletes(bulk, config, env, p.removed);
  }

  /** Some calls followed by the deletes of `keys`. */
  lemma ThenDeletes(first: seq<WranglerCall>, config: WranglerConfig, env: EnvType, keys: seq<string>)
    ensures var cs := first + DeleteCalls(config, env, keys);
      |cs| == |first| + |keys| &&
      (forall i :: 0 <= i < |first| ==> cs[i] == first[i]) &&
      (forall i :: 0 <= i < |keys| ==> cs[|first| + i] == DeleteSecret(keys[i], DeleteArgs(config, env, keys[i])))
  {
    DeleteCallsSpec(config, env, keys);
  }

  /** One delete call per key, in key order. */
  lemma {:induction false} DeleteCallsSpec(config: WranglerConfig, env: EnvType, keys: seq<string>)
    ensures |DeleteCalls(config, env, keys)| == |keys|
    ensures forall i :: 0 <= i < |keys| ==> DeleteCalls(config, env, keys)[i] == DeleteSecret(keys[i], DeleteArgs(config, env, keys[i]))
  {
    if |keys| > 0 {
      DeleteCallsSpec(config, env, keys[..|keys| - 1]);
    }
  }

  /** What one call does to the Worker's secrets. */
  function Apply(secrets: map<string, string>, c: WranglerCall): map<string, string> {
    match c
    case BulkPut(r, _) => secrets + r.values
    case DeleteSecret(k, _) => secrets - {k}
  }

  /** The Worker's secrets after a sequence of calls. */
  function Replay(secrets: map<string, string>, cs: seq<WranglerCall>): map<string, string> {
    if |cs| == 0 then secrets else Apply(Replay(secrets, cs[..|cs| - 1]), cs[|cs| - 1])
  }

  /** Replaying one more call applies it to the state so far. */
  lemma ReplayStep(secrets: map<string, string>, cs: seq<WranglerCall>, c: WranglerCall)
    ensures Replay(secrets, cs + [c]) == Apply(Replay(secrets, cs), c)
  {
    assert (cs + [c])[..|cs|] == cs;
  }

  /** The delete calls remove exactly their keys. */
  lemma {:induction false} ReplayDeleteCalls(secrets: map<string, string>, config: WranglerConfig, env: EnvType, keys: seq<string>)
    ensures Replay(secrets, DeleteCalls(config, env, keys)) == secrets - Elems(keys)
  {
    if |keys| > 0 {
      var p := keys[..|keys| - 1];
      var k := keys[|keys| - 1];
      ReplayDeleteCalls(secrets, config, env, p);
      ReplayStep(secrets, DeleteCalls(config, env, p), DeleteSecret(k, DeleteArgs(config, env, k)));
      assert keys == p + [k];
    }
  }

  /** Replaying a bulk upload and then some deletes. */
  lemma ReplayBulkThenDeletes(secrets: map<string, string>, bulk: seq<WranglerCall>, config: WranglerConfig, env: EnvType, keys: seq<string>)
    requires |bulk| <= 1
    ensures Replay(secrets, bulk + DeleteCalls(config, env, keys)) ==
      Replay(secrets, bulk) - Elems(keys)
    decreases |keys|
  {
    if |keys| == 0 {
      assert bulk + DeleteCalls(config, env, keys) == bulk;
    } else {
      var p := keys[..|keys| - 1];
      var k := keys[|keys| - 1];
      var c := DeleteSecret(k, DeleteArgs(config, env, k));
      ReplayBulkThenDeletes(secrets, bulk, config, env, p);
      assert bulk + DeleteCalls(config, env, keys) == (bulk + DeleteCalls(config, env, p)) + [c];
      ReplayStep(secrets, bulk + DeleteCalls(config, env, p), c);
      assert keys == p + [k];
    }
  }

  /** A non-dry sync leaves the Worker with the listed secrets overwritten by the kept record, less the removed keys. */
  lemma WranglerAfter(excluded: (string, seq<string>) -> bool, config: WranglerConfig, env: EnvType, tempFile: string,
                      local: Record, current: seq<string>, secrets: map<string, string>)
    requires local.Valid()
    ensures var patterns := ExcludePatterns(config);
      Replay(secrets, WranglerCalls(excluded, config, env, tempFile, local, current)) ==
        (secrets + Kept(excluded, patterns, local).values) - Elems(WranglerPlan(excluded, patterns, local, current).removed)
  {
    var patterns := ExcludePatterns(config);
    var p := WranglerPlan(excluded, patterns, local, current);
    var kept := Kept(excluded, patterns, local);
    InsideOutsidePartition(kept.keys, Elems(current));
    var bulk := if |p.added| > 0 || |p.updated| > 0 then [BulkPut(kept, BulkArgs(config, env, tempFile))] else [];
    ReplayBulkThenDeletes(secrets, bulk, config, env, p.removed);
    if bulk != [] {
      ReplayStep(secrets, [], bulk[0]);
      assert [] + [bulk[0]] == bulk;
    } else {
      assert kept.values.Keys == Elems(kept.keys) == {};
      assert secrets + kept.values == secrets;
    }
  }

  /**
    The effect of a non-dry sync on the Worker: every kept key holds its
    local value, removed keys are gone, and every other secret is untouched.
  */
  lemma WranglerEffect(excluded: (string, seq<string>) -> bool, config: WranglerConfig, env: EnvType, tempFile: string,
                       local: Record, current: seq<string>, secrets: map<string, string>)
    requires local.Valid()
    ensures var patterns := ExcludePatterns(config);
      var p := WranglerPlan(excluded, patterns, local, current);
      var after := Replay(secrets, WranglerCalls(excluded, config, env, tempFile, local, current));
      (forall k :: k in local.values && !excluded(k, patterns) ==> k in after && after[k] == local.values[k]) &&
      (forall k :: k in p.removed ==> k !in after) &&
      (forall k :: (k !in local.values || excluded(k, patterns)) && k !in p.removed ==>
        (k in after <==> k in secrets) && (k in secrets ==> after[k] == secrets[k]))
  {
    var patterns := ExcludePatterns(config);
    var p := WranglerPlan(excluded, patterns, local, current);
    var kept := Kept(excluded, patterns, local);
    var after := Replay(secrets, WranglerCalls(excluded, config, env, tempFile, local, current));
    assert after == (secrets + kept.values) - Elems(p.removed) by {
      WranglerAfter(excluded, config, env, tempFile, local, current, secrets);
    }
    assert forall k :: k in kept.values <==> k in local.values && !excluded(k, patterns) by {
      FilterRecordSpec(local, KeepTest(excluded, patterns));
    }
    assert forall k :: k in kept.values ==> kept.values[k] == local.values[k] by {
      FilterRecordSpec(local, KeepTest(excluded, patterns));
    }
    assert forall k :: k in p.removed ==> k !in kept.values by {
      OutsideSpec(Filter(current, KeepTest(excluded, patterns)), kept.values.Keys);
    }
  }

  /**
    If the listing showed the Worker's secrets, then after a non-dry sync a
    second run lists nothing as added or removed, yet lists every kept key as
    updated and so uploads again.
  */
  lemma WranglerRerun(excluded: (string, seq<string>) -> bool, config: WranglerConfig, env: EnvType, tempFile: string,
                      local: Record, current: seq<string>, secrets: map<string, string>, next: seq<string>)
    requires local.Valid()
    requires forall k :: k in current <==> k in secrets
    requires forall k :: k in next <==> k in Replay(secrets, WranglerCalls(excluded, config, env, tempFile, local, current))
    ensures var patterns := ExcludePatterns(config);
      var q := WranglerPlan(excluded, patterns, local, next);
      q.added == [] && q.removed == [] && q.updated == Kept(excluded, patterns, local).keys
  {
    var patterns := ExcludePatterns(config);
    var p := WranglerPlan(excluded, patterns, local, current);
    var q := WranglerPlan(excluded, patterns, local, next);
    var kept := Kept(excluded, patterns, local);
    WranglerEffect(excluded, config, env, tempFile, local, current, secrets);
    WranglerPlanSpec(excluded, patterns, local, current);
    WranglerPlanSpec(excluded, patterns, local, next);
    FilterRecordSpec(local, KeepTest(excluded, patterns));
    assert forall k :: k !in q.added && k !in q.removed;
    EmptyWithoutElements(q.added);
    EmptyWithoutElements(q.removed);
    InsideAll(kept.keys, Elems(next));
  }

  /** Keeping the elements of a set that holds all of them keeps the sequence. */
  lemma {:induction false} InsideAll(s: seq<string>, m: set<string>)
    requires forall x :: x in s ==> x in m
    ensures Inside(s, m) == s
  {
    if |s| > 0 {
      assert s[..|s| - 1] + [s[|s| - 1]] == s;
      InsideAll(s[..|s| - 1], m);
    }
  }

  /** The Worker's secrets, with a log of the commands it received. */
  class WranglerStore {
    var secrets: map<string, string>
    var calls: seq<WranglerCall>

    constructor (initial: map<string, string>)
      ensures secrets == initial && calls == []
    {
      secrets := initial;
      calls := [];
    }

    /** `wrangler secret bulk` with a file holding `payload`: every entry is written. */
    method Bulk(payload: Record, args: seq<string>)
      modifies this
      ensures secrets == old(secrets) + payload.values
      ensures calls == old(calls) + [BulkPut(payload, args)]
    {
      secrets := secrets + payload.values;
      calls := calls + [BulkPut(payload, args)];
    }

    /** `wrangler secret delete key --force` */
    method Delete(key: string, args: seq<string>)
      modifies this
      ensures secrets == old(secrets) - {key}
      ensures calls == old(calls) + [DeleteSecret(key, args)]
    {
      secrets := secrets - {key};
      calls := calls + [DeleteSecret(key, args)];
    }
  }

  /** The loop building `toSync`. */
  method KeepUnexcluded(excluded: (string, seq<string>) -> bool, patterns: seq<string>, local: Record)
    returns (toSync: Record)
    requires local.Valid()
    ensures toSync == Kept(excluded, patterns, local)
  {
    assert local.keys[..|local.keys|] == local.keys;
    toSync := EmptyRecord;
    for i := 0 to |local.keys|
      invariant toSync == FilterPrefix(local, KeepTest(excluded, patterns), i)
    {
      var key := local.keys[i];
      if excluded(key, patterns) {
        continue;
      }
      toSync := toSync.Put(key, local.values[key]);
    }
  }

  /** The comparison loop: a kept key is added when the Worker lacks it and updated otherwise. */
  method Classify(toSync: Record, current: seq<string>) returns (added: seq<string>, updated: seq<string>)
    ensures added == Outside(toSync.keys, Elems(current))
    ensures updated == Inside(toSync.keys, Elems(current))
  {
    added, updated := [], [];
    for i := 0 to |toSync.keys|
      invariant added == Outside(toSync.keys[..i], Elems(current))
      invariant updated == Inside(toSync.keys[..i], Elems(current))
    {
      var key := toSync.keys[i];
      assert toSync.keys[..i + 1][..i] == toSync.keys[..i];
      if key !in current {
        added := added + [key];
      } else {
        updated := updated + [key];
      }
    }
    assert toSync.keys[..|toSync.keys|] == toSync.keys;
  }

  /** The loop collecting listed names that are neither excluded nor kept. */
  method Stale(excluded: (string, seq<string>) -> bool, patterns: seq<string>, toSync: Record, current: seq<string>)
    returns (removed: seq<string>)
    ensures removed == Outside(Filter(current, KeepTest(excluded, patterns)), toSync.values.Keys)
  {
    removed := [];
    for i := 0 to |current|
      invariant removed == Outside(Filter(current[..i], KeepTest(excluded, patterns)), toSync.values.Keys)
    {
      var key := current[i];
      assert current[..i + 1] == current[..i] + [key];
      FilterSnoc(current[..i], key, KeepTest(excluded, patterns));
      if excluded(key, patterns) {
        continue;
      }
      OutsideSnoc(Filter(current[..i], KeepTest(excluded, patterns)), key, toSync.values.Keys);
      if key !in toSync.values {
        removed := removed + [key];
      }
    }
    assert current[..|current|] == current;
  }

  /** The delete loop, one call per key in order. */
  method DeleteAll(config: WranglerConfig, env: EnvType, keys: seq<string>, store: WranglerStore)
    modifies store
    ensures store.calls == old(store.calls) + DeleteCalls(config, env, keys)
    ensures store.secrets == old(store.secrets) - Elems(keys)
  {
    for i := 0 to |keys|
      invariant store.calls == old(store.calls) + DeleteCalls(config, env, keys[..i])
      invariant store.secrets == old(store.secrets) - Elems(keys[..i])
    {
      var key := keys[i];
      assert keys[..i + 1] == keys[..i] + [key];
      DeleteCallsSnoc(config, env, keys[..i], key);
      store.Delete(key, BuildWranglerArgs(["wrangler", "secret", "delete", key, "--force"], config, Some(env)));
    }
    assert keys[..|keys|] == keys;
  }

  /** The calls of the non-dry part: the bulk upload when `changed`, then one delete per removed key. */
  function PushCalls(toSync: Record, changed: bool, removed: seq<string>, config: WranglerConfig, env: EnvType,
                     tempFile: string): seq<WranglerCall>
  {
    (if changed then [BulkPut(toSync, BulkArgs(config, env, tempFile))] else []) + DeleteCalls(config, env, removed)
  }

  /** The non-dry part of `syncToWrangler`: the bulk upload when anything changed, then the deletes. */
  method PushSecrets(toSync: Record, changed: bool, removed: seq<string>, config: WranglerConfig, env: EnvType,
                     tempFile: string, store: WranglerStore)
    modifies store
    ensures store.calls == old(store.calls) + PushCalls(toSync, changed, removed, config, env, tempFile)
    ensures store.secrets == Replay(old(store.secrets), PushCalls(toSync, changed, removed, config, env, tempFile))
  {
    ghost var bulk: seq<WranglerCall> := if changed then [BulkPut(toSync, BulkArgs(config, env, tempFile))] else [];
    if changed {
      store.Bulk(toSync, BuildWranglerArgs(["wrangler", "secret", "bulk", tempFile], config, Some(env)));
      assert store.secrets == Replay(old(store.secrets), bulk) by {
        ReplayStep(old(store.secrets), [], bulk[0]);
        assert [] + bulk == bulk;
      }
    }
    DeleteAll(config, env, removed, store);
    ReplayBulkThenDeletes(old(store.secrets), bulk, config, env, removed);
  }

  /**
    `syncToWrangler`: `exitCode` and `names` describe the `wrangler secret
    list` run, `tempFile` is the bulk file's name, `store` the Worker the bulk
    and delete commands reach, and `excluded` the exclusion test.
  */
  method SyncToWrangler(excluded: (string, seq<string>) -> bool, local: Record, env: EnvType, config: WranglerConfig,
                        exitCode: int, names: Option<seq<string>>, tempFile: string, dryRun: bool, store: WranglerStore)
    returns (added: seq<string>, updated: seq<string>, removed: seq<string>)
    requires local.Valid()
    modifies store
    ensures Plan(added, updated, removed) == WranglerPlan(excluded, ExcludePatterns(config), local, SecretNames(exitCode, names))
    ensures dryRun ==> store.secrets == old(store.secrets) && store.calls == old(store.calls)
    ensures !dryRun ==> store.calls == old(store.calls) + WranglerCalls(excluded, config, env, tempFile, local, SecretNames(exitCode, names))
    ensures !dryRun ==> store.secrets == Replay(old(store.secrets), WranglerCalls(excluded, config, env, tempFile, local, SecretNames(exitCode, names)))
  {
    var patterns := ExcludePatterns(config);
    var current := SecretNames(exitCode, names);
    var toSync := KeepUnexcluded(excluded, patterns, local);
    added, updated := Classify(toSync, current);
    removed := Stale(excluded, patterns, toSync, current);
    var changed := |added| > 0 || |updated| > 0;
    assert WranglerCalls(excluded, config, env, tempFile, local, current) ==
      PushCalls(toSync, changed, removed, config, env, tempFile);
    if !dryRun {
      PushSecrets(toSync, changed, removed, config, env, tempFile, store);
    }
  }
}
