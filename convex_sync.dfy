/**
  Pushing a local env record to a Convex deployment. The deployment's
  variables are read through `convex env list`, compared key by key with the
  local record, and brought in line with `convex env set` and
  `convex env remove`. The deployment is modelled as an in-memory store that
  logs every call made to it.
*/
module ConvexSync {
  import opened Collections
  import opened Text
  import opened Listing

  /** Deployment variables Convex provides itself; the sync never touches them. */
  const ConvexPrefix: string := "CONVEX_"

  /** A key the sync manages: the exclude patterns do not name it and it is not Convex's own. */
  predicate Managed(excluded: (string, seq<string>) -> bool, patterns: seq<string>, k: string) {
    !excluded(k, patterns) && !StartsWith(k, ConvexPrefix)
  }

  /** `Managed` as a test on keys alone. */
  function ManagedTest(excluded: (string, seq<string>) -> bool, patterns: seq<string>): string -> bool {
    k => Managed(excluded, patterns, k)
  }

  /** `toSync`: the managed entries of the local record, in its order. */
  function Kept(excluded: (string, seq<string>) -> bool, patterns: seq<string>, local: Record): (r: Record)
    requires local.Valid()
    ensures r.Valid()
  {
    FilterRecord(local, ManagedTest(excluded, patterns))
  }

  /** `toSync` holds exactly the managed local keys, with their local values, in local order. */
  lemma KeptSpec(excluded: (string, seq<string>) -> bool, patterns: seq<string>, local: Record)
    requires local.Valid()
    ensures var r := Kept(excluded, patterns, local);
      (forall k :: k in r.values <==> k in local.values && Managed(excluded, patterns, k)) &&
      (forall k :: k in r.values ==> r.values[k] == local.values[k]) &&
      SubseqOf(r.keys, local.keys)
  {
    FilterRecordSpec(local, ManagedTest(excluded, patterns));
  }

  /** The keys of `keys` that `have` holds with a value other than the one `want` gives. */
  function Changed(keys: seq<string>, want: map<string, string>, have: map<string, string>): seq<string>
    requires forall k :: k in keys ==> k in want
  {
    if |keys| == 0 then []
    else
      var q := keys[..|keys| - 1];
      var k := keys[|keys| - 1];
      assert forall x :: x in q ==> x in keys;
      var p := Changed(q, want, have);
      if k in have && have[k] != want[k] then p + [k] else p
  }

  /** The changed keys are the listed keys whose remote value differs from the wanted one. */
  lemma {:induction false} ChangedSpec(keys: seq<string>, want: map<string, string>, have: map<string, string>)
    requires forall k :: k in keys ==> k in want
    ensures var r := Changed(keys, want, have);
      (forall k :: k in r <==> k in keys && k in have && have[k] != want[k]) &&
      (NoDup(keys) ==> NoDup(r)) && SubseqOf(r, keys)
  {
    if |keys| > 0 {
      var q := keys[..|keys| - 1];
      var k := keys[|keys| - 1];
      assert q + [k] == keys;
      ChangedSpec(q, want, have);
      if NoDup(keys) { NoDupPrefix(keys, |keys| - 1); }
      SubseqOfExtend(Changed(q, want, have), q, k);
    }
  }

  /** The three lists the sync reports. */
  datatype Plan = Plan(added: seq<string>, updated: seq<string>, removed: seq<string>)

  /**
    The lists `syncToConvex` returns for a local record and the deployment's
    variables.
  */
  function ConvexPlan(excluded: (string, seq<string>) -> bool, patterns: seq<string>, local: Record, remote: Record): Plan
    requires local.Valid() && remote.Valid()
  {
    var kept := Kept(excluded, patterns, local);
    Plan(Outside(kept.keys, remote.values.Keys),
         Changed(kept.keys, kept.values, remote.values),
         Outside(Filter(remote.keys, ManagedTest(excluded, patterns)), kept.values.Keys))
  }

  /**
    Added: managed local keys the deployment lacks. Updated: managed local
    keys it holds with another value. Removed: managed deployment keys absent
    locally. The lists have no repetitions, share no key, and keep the order
    of the local record (added, updated) and of the listing (removed).
  */
  lemma ConvexPlanSpec(excluded: (string, seq<string>) -> bool, patterns: seq<string>, local: Record, remote: Record)
    requires local.Valid() && remote.Valid()
    ensures var p := ConvexPlan(excluded, patterns, local, remote);
      (forall k :: k in p.added <==>
        k in local.values && Managed(excluded, patterns, k) && k !in remote.values) &&
      (forall k :: k in p.updated <==>
        k in local.values && Managed(excluded, patterns, k) && k in remote.values && remote.values[k] != local.values[k]) &&
      (forall k :: k in p.removed <==>
        k in remote.values && Managed(excluded, patterns, k) && k !in local.values) &&
      NoDup(p.added) && NoDup(p.updated) && NoDup(p.removed) &&
      SubseqOf(p.added, local.keys) && SubseqOf(p.updated, local.keys) && SubseqOf(p.removed, remote.keys)
  {
    var kept := Kept(excluded, patterns, local);
    var managed := Filter(remote.keys, ManagedTest(excluded, patterns));
    KeptSpec(excluded, patterns, local);
    FilterSpec(remote.keys, ManagedTest(excluded, patterns));
    OutsideSpec(kept.keys, remote.values.Keys);
    ChangedSpec(kept.keys, kept.values, remote.values);
    OutsideSpec(managed, kept.values.Keys);
    SubseqOfTransitive(Outside(kept.keys, remote.values.Keys), kept.keys, local.keys);
    SubseqOfTransitive(Changed(kept.keys, kept.values, remote.values), kept.keys, local.keys);
    SubseqOfTransitive(Outside(managed, kept.values.Keys), managed, remote.keys);
  }

  /** No key is in two of the lists, and none of them holds an excluded or `CONVEX_` key. */
  lemma ConvexPlanDisjoint(excluded: (string, seq<string>) -> bool, patterns: seq<string>, local: Record, remote: Record)
    requires local.Valid() && remote.Valid()
    ensures var p := ConvexPlan(excluded, patterns, local, remote);
      Elems(p.added) !! Elems(p.updated) && Elems(p.added) !! Elems(p.removed) && Elems(p.updated) !! Elems(p.removed) &&
      forall k :: k in p.added + p.updated + p.removed ==> !excluded(k, patterns) && !StartsWith(k, ConvexPrefix)
  {
    ConvexPlanSpec(excluded, patterns, local, remote);
  }

  /** One command sent to the deployment. */
  datatype StoreCall = SetVar(key: string, value: string) | RemoveVar(key: string)

  /** A key whose value the comparison loop writes: the deployment lacks it or holds another value. */
  predicate Differs(want: map<string, string>, have: map<string, string>, k: string)
    requires k in want
  {
    k !in have || have[k] != want[k]
  }

  /** The `convex env set` calls of the comparison loop over `keys`. */
  function SetCalls(keys: seq<string>, want: map<string, string>, have: map<string, string>): seq<StoreCall>
    requires forall k :: k in keys ==> k in want
  {
    if |keys| == 0 then []
    else
      var p := keys[..|keys| - 1];
      var k := keys[|keys| - 1];
      assert forall x :: x in p ==> x in keys;
      var before := SetCalls(p, want, have);
      if Differs(want, have, k) then before + [SetVar(k, want[k])] else before
  }

  /** Each call of `cs` sets a key of `keys` that differs to its wanted value. */
  predicate SetsWanted(cs: seq<StoreCall>, keys: seq<string>, want: map<string, string>, have: map<string, string>)
    requires forall k :: k in keys ==> k in want
  {
    forall i :: 0 <= i < |cs| ==>
      cs[i].SetVar? && cs[i].key in keys && cs[i].value == want[cs[i].key] && Differs(want, have, cs[i].key)
  }

  /** Each set call writes the wanted value of a key that differs. */
  lemma {:induction false} SetCallsSpec(keys: seq<string>, want: map<string, string>, have: map<string, string>)
    requires forall k :: k in keys ==> k in want
    ensures SetsWanted(SetCalls(keys, want, have), keys, want, have)
  {
    if |keys| > 0 {
      var p := keys[..|keys| - 1];
      var k := keys[|keys| - 1];
      assert keys == p + [k];
      SetCallsSpec(p, want, have);
      var before := SetCalls(p, want, have);
      var cs := SetCalls(keys, want, have);
      forall i | 0 <= i < |cs|
        ensures cs[i].SetVar? && cs[i].key in keys && cs[i].value == want[cs[i].key] && Differs(want, have, cs[i].key)
      {
        if i < |before| {
          assert cs[i] == before[i];
          assert before[i].key in p;
        }
      }
    }
  }

  /** One set call per added key and per updated key. */
  lemma {:induction false} SetCallsCount(keys: seq<string>, want: map<string, string>, have: map<string, string>)
    requires forall k :: k in keys ==> k in want
    ensures |SetCalls(keys, want, have)| == |Outside(keys, have.Keys)| + |Changed(keys, want, have)|
  {
    if |keys| > 0 {
      var p := keys[..|keys| - 1];
      assert forall x :: x in p ==> x in keys;
      SetCallsCount(p, want, have);
    }
  }

  /** Every key that differs gets its set call. */
  lemma {:induction false} SetCallsCover(keys: seq<string>, want: map<string, string>, have: map<string, string>, k: string)
    requires forall k :: k in keys ==> k in want
    requires k in keys && Differs(want, have, k)
    ensures SetVar(k, want[k]) in SetCalls(keys, want, have)
  {
    var p := keys[..|keys| - 1];
    assert keys == p + [keys[|keys| - 1]];
    if k != keys[|keys| - 1] {
      SetCallsCover(p, want, have, k);
    }
  }

  /** No two calls name the same key. */
  predicate DistinctKeys(cs: seq<StoreCall>) {
    forall i, j :: 0 <= i < j < |cs| ==> cs[i].key != cs[j].key
  }

  /** Over keys without repetitions, no key gets two set calls. */
  lemma {:induction false} SetCallsDistinct(keys: seq<string>, want: map<string, string>, have: map<string, string>)
    requires forall k :: k in keys ==> k in want
    requires NoDup(keys)
    ensures DistinctKeys(SetCalls(keys, want, have))
  {
    if |keys| > 0 {
      var p := keys[..|keys| - 1];
      var k := keys[|keys| - 1];
      NoDupPrefix(keys, |keys| - 1);
      assert k !in p;
      SetCallsDistinct(p, want, have);
      SetCallsSpec(p, want, have);
      var before := SetCalls(p, want, have);
      assert SetsWanted(before, p, want, have);
      if Differs(want, have, k) {
        var cs := before + [SetVar(k, want[k])];
        assert SetCalls(keys, want, have) == cs;
        forall i, j | 0 <= i < j < |cs| ensures cs[i].key != cs[j].key {
          if j == |before| {
            assert cs[j] == SetVar(k, want[k]);
            assert cs[i] == before[i];
            assert before[i].key in p;
          } else {
            assert cs[i] == before[i] && cs[j] == before[j];
          }
        }
      }
    }
  }

  /** The `convex env remove` calls for `keys`, in order. */
  function RemoveCalls(keys: seq<string>): seq<StoreCall> {
    if |keys| == 0 then [] else RemoveCalls(keys[..|keys| - 1]) + [RemoveVar(keys[|keys| - 1])]
  }

  lemma RemoveCallsSnoc(keys: seq<string>, k: string)
    ensures RemoveCalls(keys + [k]) == RemoveCalls(keys) + [RemoveVar(k)]
  {
    assert (keys + [k])[..|keys|] == keys;
  }

  lemma {:induction false} RemoveCallsSpec(keys: seq<string>)
    ensures |RemoveCalls(keys)| == |keys|
    ensures forall i :: 0 <= i < |keys| ==> RemoveCalls(keys)[i] == RemoveVar(keys[i])
  {
    if |keys| > 0 {
      RemoveCallsSpec(keys[..|keys| - 1]);
    }
  }

  /** Every call a non-dry sync makes, in the order it makes them. */
  function ConvexCalls(excluded: (string, seq<string>) -> bool, patterns: seq<string>, local: Record, remote: Record): seq<StoreCall>
    requires local.Valid() && remote.Valid()
  {
    var kept := Kept(excluded, patterns, local);
    SetCalls(kept.keys, kept.values, remote.values) + RemoveCalls(ConvexPlan(excluded, patterns, local, remote).removed)
  }

  /** What one call does to the deployment's variables. */
  function Apply(vars: map<string, string>, c: StoreCall): map<string, string> {
    match c
    case SetVar(k, v) => vars[k := v]
    case RemoveVar(k) => vars - {k}
  }

  /** The deployment's variables after a sequence of calls. */
  function Replay(vars: map<string, string>, cs: seq<StoreCall>): map<string, string> {
    if |cs| == 0 then vars else Apply(Replay(vars, cs[..|cs| - 1]), cs[|cs| - 1])
  }

  lemma ReplayStep(vars: map<string, string>, cs: seq<StoreCall>, c: StoreCall)
    ensures Replay(vars, cs + [c]) == Apply(Replay(vars, cs), c)
  {
    assert (cs + [c])[..|cs|] == cs;
  }

  /** Replaying two batches one after the other is replaying them joined. */
  lemma {:induction false} ReplayConcat(vars: map<string, string>, a: seq<StoreCall>, b: seq<StoreCall>)
    ensures Replay(vars, a + b) == Replay(Replay(vars, a), b)
  {
    if |b| == 0 {
      assert a + b == a;
    } else {
      var b' := b[..|b| - 1];
      ReplayConcat(vars, a, b');
      assert a + b == (a + b') + [b[|b| - 1]];
      ReplayStep(vars, a + b', b[|b| - 1]);
      ReplayStep(Replay(vars, a), b', b[|b| - 1]);
      assert b == b' + [b[|b| - 1]];
    }
  }

  /** `after` is `vars` with the wanted value written for every key of `keys` that differs. */
  ghost predicate WrittenFrom(after: map<string, string>, vars: map<string, string>, keys: seq<string>,
                              want: map<string, string>, have: map<string, string>)
    requires forall k :: k in keys ==> k in want
  {
    forall k :: if k in keys && Differs(want, have, k) then k in after && after[k] == want[k]
      else (k in after <==> k in vars) && (k in vars ==> after[k] == vars[k])
  }

  /** The set calls write the wanted value of every key that differs, and nothing else. */
  lemma {:induction false} ReplaySetCalls(vars: map<string, string>, keys: seq<string>, want: map<string, string>, have: map<string, string>)
    requires forall k :: k in keys ==> k in want
    ensures WrittenFrom(Replay(vars, SetCalls(keys, want, have)), vars, keys, want, have)
  {
    if |keys| > 0 {
      var p := keys[..|keys| - 1];
      var k := keys[|keys| - 1];
      assert keys == p + [k];
      ReplaySetCalls(vars, p, want, have);
      var mid := Replay(vars, SetCalls(p, want, have));
      var after := Replay(vars, SetCalls(keys, want, have));
      if Differs(want, have, k) {
        ReplayStep(vars, SetCalls(p, want, have), SetVar(k, want[k]));
        assert after == mid[k := want[k]];
      } else {
        assert after == mid;
      }
      forall x ensures if x in keys && Differs(want, have, x) then x in after && after[x] == want[x]
        else (x in after <==> x in vars) && (x in vars ==> after[x] == vars[x])
      {
        assert x in keys <==> x in p || x == k;
      }
    }
  }

  /** The remove calls delete exactly their keys. */
  lemma {:induction false} ReplayRemoveCalls(vars: map<string, string>, keys: seq<string>)
    ensures Replay(vars, RemoveCalls(keys)) == vars - Elems(keys)
  {
    if |keys| > 0 {
      var p := keys[..|keys| - 1];
      ReplayRemoveCalls(vars, p);
      ReplayStep(vars, RemoveCalls(p), RemoveVar(keys[|keys| - 1]));
      assert keys == p + [keys[|keys| - 1]];
    }
  }

  /**
    The calls of a non-dry sync: first one set per added or updated key, then
    one remove per removed key, in removed order.
  */
  lemma ConvexCallsOrder(excluded: (string, seq<string>) -> bool, patterns: seq<string>, local: Record, remote: Record)
    requires local.Valid() && remote.Valid()
    ensures var p := ConvexPlan(excluded, patterns, local, remote);
      var cs := ConvexCalls(excluded, patterns, local, remote);
      |cs| == |p.added| + |p.updated| + |p.removed| &&
      (forall i :: 0 <= i < |p.added| + |p.updated| ==> cs[i].SetVar?) &&
      (forall i :: 0 <= i < |p.removed| ==> cs[|p.added| + |p.updated| + i] == RemoveVar(p.removed[i]))
  {
    var p := ConvexPlan(excluded, patterns, local, remote);
    var kept := Kept(excluded, patterns, local);
    var sets := SetCalls(kept.keys, kept.values, remote.values);
    assert ConvexCalls(excluded, patterns, local, remote) == sets + RemoveCalls(p.removed);
    assert |sets| == |p.added| + |p.updated| by {
      SetCallsCount(kept.keys, kept.values, remote.values);
    }
    assert forall i :: 0 <= i < |sets| ==> sets[i].SetVar? by {
      SetCallsSpec(kept.keys, kept.values, remote.values);
      assert SetsWanted(sets, kept.keys, kept.values, remote.values);
    }
    SetsThenRemoves(sets, p.removed);
  }

  /** Set calls followed by the remove calls for `removed`. */
  lemma SetsThenRemoves(sets: seq<StoreCall>, removed: seq<string>)
    requires forall i :: 0 <= i < |sets| ==> sets[i].SetVar?
    ensures var cs := sets + RemoveCalls(removed);
      |cs| == |sets| + |removed| &&
      (forall i :: 0 <= i < |sets| ==> cs[i].SetVar?) &&
      (forall i :: 0 <= i < |removed| ==> cs[|sets| + i] == RemoveVar(removed[i]))
  {
    RemoveCallsSpec(removed);
  }

  /** Each set call of a non-dry sync writes an added or updated key with its local value. */
  lemma ConvexSetCallsSound(excluded: (string, seq<string>) -> bool, patterns: seq<string>, local: Record, remote: Record, i: nat)
    requires local.Valid() && remote.Valid()
    requires i < |ConvexPlan(excluded, patterns, local, remote).added| + |ConvexPlan(excluded, patterns, local, remote).updated|
    ensures i < |ConvexCalls(excluded, patterns, local, remote)|
    ensures var p := ConvexPlan(excluded, patterns, local, remote);
      var c := ConvexCalls(excluded, patterns, local, remote)[i];
      c.SetVar? && (c.key in p.added || c.key in p.updated) && c.key in local.values && c.value == local.values[c.key]
  {
    var kept := Kept(excluded, patterns, local);
    var sets := SetCalls(kept.keys, kept.values, remote.values);
    KeptSpec(excluded, patterns, local);
    OutsideSpec(kept.keys, remote.values.Keys);
    ChangedSpec(kept.keys, kept.values, remote.values);
    SetCallsSpec(kept.keys, kept.values, remote.values);
    SetCallsCount(kept.keys, kept.values, remote.values);
    assert SetsWanted(sets, kept.keys, kept.values, remote.values);
    assert ConvexCalls(excluded, patterns, local, remote)[i] == sets[i];
  }

  /** Every added or updated key gets a set call with its local value, and no key gets two. */
  lemma ConvexSetCallsComplete(excluded: (string, seq<string>) -> bool, patterns: seq<string>, local: Record, remote: Record, k: string)
    requires local.Valid() && remote.Valid()
    ensures var p := ConvexPlan(excluded, patterns, local, remote);
      var cs := ConvexCalls(excluded, patterns, local, remote);
      var n := |p.added| + |p.updated|;
      n <= |cs| && DistinctKeys(cs[..n]) &&
      (k in p.added || k in p.updated ==>
        k in local.values && exists i :: 0 <= i < n && cs[i] == SetVar(k, local.values[k]))
  {
    var p := ConvexPlan(excluded, patterns, local, remote);
    var kept := Kept(excluded, patterns, local);
    var sets := SetCalls(kept.keys, kept.values, remote.values);
    var cs := ConvexCalls(excluded, patterns, local, remote);
    KeptSpec(excluded, patterns, local);
    OutsideSpec(kept.keys, remote.values.Keys);
    ChangedSpec(kept.keys, kept.values, remote.values);
    SetCallsCount(kept.keys, kept.values, remote.values);
    SetCallsDistinct(kept.keys, kept.values, remote.values);
    assert cs[..|sets|] == sets;
    if k in p.added || k in p.updated {
      SetCallsCover(kept.keys, kept.values, remote.values, k);
      var i :| 0 <= i < |sets| && sets[i] == SetVar(k, kept.values[k]);
      assert cs[i] == sets[i];
    }
  }

  /**
    The effect of a non-dry sync on the deployment, whatever it held: added
    and updated keys take the local value, removed keys are gone, and every
    other variable is untouched.
  */
  lemma ConvexEffect(excluded: (string, seq<string>) -> bool, patterns: seq<string>, local: Record, remote: Record, vars: map<string, string>)
    requires local.Valid() && remote.Valid()
    ensures var p := ConvexPlan(excluded, patterns, local, remote);
      var after := Replay(vars, ConvexCalls(excluded, patterns, local, remote));
      (forall k :: k in p.added || k in p.updated ==> k in local.values && k in after && after[k] == local.values[k]) &&
      (forall k :: k in p.removed ==> k !in after) &&
      (forall k :: k !in p.added && k !in p.updated && k !in p.removed ==>
        (k in after <==> k in vars) && (k in vars ==> after[k] == vars[k]))
  {
    var p := ConvexPlan(excluded, patterns, local, remote);
    var kept := Kept(excluded, patterns, local);
    var sets := SetCalls(kept.keys, kept.values, remote.values);
    var mid := Replay(vars, sets);
    var after := Replay(vars, ConvexCalls(excluded, patterns, local, remote));
    assert after == mid - Elems(p.removed) by {
      ReplayConcat(vars, sets, RemoveCalls(p.removed));
      ReplayRemoveCalls(mid, p.removed);
    }
    assert WrittenFrom(mid, vars, kept.keys, kept.values, remote.values) by {
      KeptSpec(excluded, patterns, local);
      ReplaySetCalls(vars, kept.keys, kept.values, remote.values);
    }
    KeptSpec(excluded, patterns, local);
    ConvexPlanSpec(excluded, patterns, local, remote);
    forall k | k in p.added || k in p.updated
      ensures k in local.values && k in after && after[k] == local.values[k]
    {
      assert k in kept.keys && Differs(kept.values, remote.values, k);
      assert k !in p.removed;
    }
    forall k | k !in p.added && k !in p.updated && k !in p.removed
      ensures (k in after <==> k in vars) && (k in vars ==> after[k] == vars[k])
    {
      assert !(k in kept.keys && Differs(kept.values, remote.values, k));
    }
  }

  /**
    Once the calls have gone through, planning again against the new
    deployment state finds nothing to add, update or remove.
  */
  lemma ConvexIdempotent(excluded: (string, seq<string>) -> bool, patterns: seq<string>, local: Record, remote: Record, next: Record)
    requires local.Valid() && remote.Valid() && next.Valid()
    requires next.values == Replay(remote.values, ConvexCalls(excluded, patterns, local, remote))
    ensures ConvexPlan(excluded, patterns, local, next) == Plan([], [], [])
  {
    var p := ConvexPlan(excluded, patterns, local, remote);
    var q := ConvexPlan(excluded, patterns, local, next);
    ConvexEffect(excluded, patterns, local, remote, remote.values);
    ConvexPlanSpec(excluded, patterns, local, remote);
    ConvexPlanSpec(excluded, patterns, local, next);
    forall k ensures k !in q.added && k !in q.updated && k !in q.removed {
      if k in p.added || k in p.updated {
        assert k in next.values && next.values[k] == local.values[k];
      } else if k in p.removed {
        assert k !in next.values;
      } else {
        assert (k in next.values <==> k in remote.values);
      }
    }
    EmptyWithoutElements(q.added);
    EmptyWithoutElements(q.updated);
    EmptyWithoutElements(q.removed);
  }

  /**
    The re-run the tool performs: the deployment after the calls is listed
    again with `convex env list` and parsed. When every managed local key is
    an identifier and its value one line, and the first plan came from a
    parsed listing too, that second plan is empty.
  */
  lemma ConvexRerun(excluded: (string, seq<string>) -> bool, patterns: seq<string>, local: Record, res: ProcessResult, next: Record)
    requires local.Valid() && next.Valid()
    requires forall k :: k in local.values && Managed(excluded, patterns, k) ==> IsKey(k) && OnOneLine(local.values[k])
    requires next.values == Replay(ParseListing(res).values, ConvexCalls(excluded, patterns, local, ParseListing(res)))
    ensures ConvexPlan(excluded, patterns, local, ParseListing(ProcessResult(0, FormatListing(next)))) == Plan([], [], [])
  {
    var remote := ParseListing(res);
    var p := ConvexPlan(excluded, patterns, local, remote);
    ConvexEffect(excluded, patterns, local, remote, remote.values);
    ConvexPlanSpec(excluded, patterns, local, remote);
    forall k | k in next.values
      ensures IsKey(k) && OnOneLine(next.values[k])
    {
      if k in p.added || k in p.updated {
        assert next.values[k] == local.values[k];
      } else {
        assert k in remote.values && next.values[k] == remote.values[k];
      }
    }
    RoundTrip(next);
    ConvexIdempotent(excluded, patterns, local, remote, next);
  }

  /**
    A managed local key that is no identifier, or whose value spans lines,
    never survives the listing parser unchanged: whatever `convex env list`
    prints, the plan sets that key again, so such a sync never settles.
  */
  lemma ConvexUnsettled(excluded: (string, seq<string>) -> bool, patterns: seq<string>, local: Record, res: ProcessResult, k: string)
    requires local.Valid()
    requires k in local.values && Managed(excluded, patterns, k)
    requires !IsKey(k) || !OnOneLine(local.values[k])
    ensures var p := ConvexPlan(excluded, patterns, local, ParseListing(res));
      k in p.added || k in p.updated
  {
    ConvexPlanSpec(excluded, patterns, local, ParseListing(res));
  }

  /** The deployment's variables, with a log of the commands it received. */
  class ConvexStore {
    var vars: map<string, string>
    var calls: seq<StoreCall>

    constructor (initial: map<string, string>)
      ensures vars == initial && calls == []
    {
      vars := initial;
      calls := [];
    }

    /** `convex env set key value` */
    method Set(k: string, v: string)
      modifies this
      ensures vars == old(vars)[k := v]
      ensures calls == old(calls) + [SetVar(k, v)]
    {
      vars := vars[k := v];
      calls := calls + [SetVar(k, v)];
    }

    /** `convex env remove key` */
    method Remove(k: string)
      modifies this
      ensures vars == old(vars) - {k}
      ensures calls == old(calls) + [RemoveVar(k)]
    {
      vars := vars - {k};
      calls := calls + [RemoveVar(k)];
    }
  }

  /** The store holds the calls `calls0` then `done`, and the variables `done` makes of `vars0`. */
  ghost predicate Logged(store: ConvexStore, calls0: seq<StoreCall>, vars0: map<string, string>, done: seq<StoreCall>)
    reads store
  {
    store.calls == calls0 + done && store.vars == Replay(vars0, done)
  }

  /** Sends one more call to the deployment after the calls `done` of a batch. */
  method Send(store: ConvexStore, c: StoreCall, ghost calls0: seq<StoreCall>, ghost vars0: map<string, string>, ghost done: seq<StoreCall>)
    requires Logged(store, calls0, vars0, done)
    modifies store
    ensures Logged(store, calls0, vars0, done + [c])
  {
    ReplayStep(vars0, done, c);
    match c
    case SetVar(k, v) => store.Set(k, v);
    case RemoveVar(k) => store.Remove(k);
  }

  /** The loop building `toSync` from the local record. */
  method KeepManaged(excluded: (string, seq<string>) -> bool, patterns: seq<string>, local: Record)
    returns (toSync: Record)
    requires local.Valid()
    ensures toSync == Kept(excluded, patterns, local)
  {
    assert local.keys[..|local.keys|] == local.keys;
    toSync := EmptyRecord;
    for i := 0 to |local.keys|
      invariant toSync == FilterPrefix(local, ManagedTest(excluded, patterns), i)
    {
      var key := local.keys[i];
      if excluded(key, patterns) {
        continue;
      }
      if StartsWith(key, ConvexPrefix) {
        continue;
      }
      toSync := toSync.Put(key, local.values[key]);
    }
  }

  /** The comparison loop: classifies each kept key and, unless dry, sets the ones that differ. */
  method PushChanges(toSync: Record, current: Record, dryRun: bool, store: ConvexStore)
    returns (added: seq<string>, updated: seq<string>)
    requires toSync.Valid()
    modifies store
    ensures added == Outside(toSync.keys, current.values.Keys)
    ensures updated == Changed(toSync.keys, toSync.values, current.values)
    ensures dryRun ==> store.vars == old(store.vars) && store.calls == old(store.calls)
    ensures !dryRun ==> store.calls == old(store.calls) + SetCalls(toSync.keys, toSync.values, current.values)
    ensures !dryRun ==> store.vars == Replay(old(store.vars), SetCalls(toSync.keys, toSync.values, current.values))
  {
    added, updated := [], [];
    assert old(store.calls) + [] == old(store.calls);
    for i := 0 to |toSync.keys|
      invariant added == Outside(toSync.keys[..i], current.values.Keys)
      invariant updated == Changed(toSync.keys[..i], toSync.values, current.values)
      invariant Logged(store, old(store.calls), old(store.vars), if dryRun then [] else SetCalls(toSync.keys[..i], toSync.values, current.values))
    {
      var key := toSync.keys[i];
      var value := toSync.values[key];
      assert toSync.keys[..i + 1][..i] == toSync.keys[..i];
      ghost var before := SetCalls(toSync.keys[..i], toSync.values, current.values);
      if key !in current.values {
        added := added + [key];
        if !dryRun {
          Send(store, SetVar(key, value), old(store.calls), old(store.vars), before);
        }
      } else if current.values[key] != value {
        updated := updated + [key];
        if !dryRun {
          Send(store, SetVar(key, value), old(store.calls), old(store.vars), before);
        }
      }
    }
    assert toSync.keys[..|toSync.keys|] == toSync.keys;
  }

  /** The removal loop: managed deployment keys that are not kept locally, removed unless dry. */
  method PushRemovals(excluded: (string, seq<string>) -> bool, patterns: seq<string>, toSync: Record,
                      current: Record, dryRun: bool, store: ConvexStore)
    returns (removed: seq<string>)
    modifies store
    ensures removed == Outside(Filter(current.keys, ManagedTest(excluded, patterns)), toSync.values.Keys)
    ensures dryRun ==> store.vars == old(store.vars) && store.calls == old(store.calls)
    ensures !dryRun ==> store.calls == old(store.calls) + RemoveCalls(removed)
    ensures !dryRun ==> store.vars == Replay(old(store.vars), RemoveCalls(removed))
  {
    removed := [];
    assert old(store.calls) + [] == old(store.calls);
    for i := 0 to |current.keys|
      invariant removed == Outside(Filter(current.keys[..i], ManagedTest(excluded, patterns)), toSync.values.Keys)
      invariant Logged(store, old(store.calls), old(store.vars), if dryRun then [] else RemoveCalls(removed))
    {
      var key := current.keys[i];
      ghost var managed := Filter(current.keys[..i], ManagedTest(excluded, patterns));
      assert current.keys[..i + 1] == current.keys[..i] + [key];
      FilterSnoc(current.keys[..i], key, ManagedTest(excluded, patterns));
      if excluded(key, patterns) {
        continue;
      }
      if StartsWith(key, ConvexPrefix) {
        continue;
      }
      OutsideSnoc(managed, key, toSync.values.Keys);
      if key !in toSync.values {
        ghost var before := removed;
        removed := removed + [key];
        RemoveCallsSnoc(before, key);
        if !dryRun {
          Send(store, RemoveVar(key), old(store.calls), old(store.vars), RemoveCalls(before));
        }
      }
    }
    assert current.keys[..|current.keys|] == current.keys;
  }

  /** The calls of a sync are the set calls over `toSync` followed by the remove calls. */
  lemma ConvexCallsUnfold(excluded: (string, seq<string>) -> bool, patterns: seq<string>, local: Record, remote: Record,
                          toSync: Record, removed: seq<string>)
    requires local.Valid() && remote.Valid()
    requires toSync == Kept(excluded, patterns, local)
    requires removed == ConvexPlan(excluded, patterns, local, remote).removed
    ensures ConvexCalls(excluded, patterns, local, remote) ==
      SetCalls(toSync.keys, toSync.values, remote.values) + RemoveCalls(removed)
  {
  }

  /** Two batches applied one after the other, as one batch. */
  lemma ComposeBatches(calls0: seq<StoreCall>, vars0: map<string, string>, a: seq<StoreCall>, b: seq<StoreCall>,
                       calls1: seq<StoreCall>, vars1: map<string, string>, calls2: seq<StoreCall>, vars2: map<string, string>)
    requires calls1 == calls0 + a && vars1 == Replay(vars0, a)
    requires calls2 == calls1 + b && vars2 == Replay(vars1, b)
    ensures calls2 == calls0 + (a + b) && vars2 == Replay(vars0, a + b)
  {
    ReplayConcat(vars0, a, b);
  }

  /**
    `syncToConvex`: `listing` is what `convex env list` reported, `store` the
    deployment the set and remove commands reach, and `excluded` the
    exclusion test applied to `patterns`.
  */
  method SyncToConvex(excluded: (string, seq<string>) -> bool, patterns: seq<string>, local: Record,
                      listing: ProcessResult, dryRun: bool, store: ConvexStore)
    returns (added: seq<string>, updated: seq<string>, removed: seq<string>)
    requires local.Valid()
    modifies store
    ensures Plan(added, updated, removed) == ConvexPlan(excluded, patterns, local, ParseListing(listing))
    ensures dryRun ==> store.vars == old(store.vars) && store.calls == old(store.calls)
    ensures !dryRun ==> store.calls == old(store.calls) + ConvexCalls(excluded, patterns, local, ParseListing(listing))
    ensures !dryRun ==> store.vars == Replay(old(store.vars), ConvexCalls(excluded, patterns, local, ParseListing(listing)))
  {
    var current := GetConvexEnv(listing);
    var toSync := KeepManaged(excluded, patterns, local);
    added, updated := PushChanges(toSync, current, dryRun, store);
    ghost var mid := store.vars;
    ghost var midCalls := store.calls;
    removed := PushRemovals(excluded, patterns, toSync, current, dryRun, store);
    if !dryRun {
      ConvexCallsUnfold(excluded, patterns, local, current, toSync, removed);
      ComposeBatches(old(store.calls), old(store.vars), SetCalls(toSync.keys, toSync.values, current.values),
                     RemoveCalls(removed), midCalls, mid, store.calls, store.vars);
    }
  }
}
