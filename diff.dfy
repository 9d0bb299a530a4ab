/**
  The `diff` command: for every key known locally, to the Convex deployment
  or to the Worker, decide whether the targets agree with the local record,
  and print a table of the keys that do not. The Convex listing comes in as
  a process result, the Worker's secret names as a sequence; the printed
  lines are the result.
*/
module Diff {
  import opened Collections
  import opened Text
  import opened Listing
  import opened Color

  const RemovedLocally: string := "removed locally"
  const MissingInConvex: string := "missing in convex"
  const ConvexDiffers: string := "convex differs"
  const MissingInWrangler: string := "missing in wrangler"

  /** The options of `checkSyncStatus` for one key; `None` stands for `undefined`. */
  datatype Probe = Probe(envVal: Option<string>, convexVal: Option<string>, wranglerExists: Option<bool>,
                         hasConvex: bool, hasWrangler: bool)

  /** `{ synced, issues }` */
  datatype Status = Status(synced: bool, issues: seq<string>)

  /** `wranglerExists` is truthy. */
  predicate Holds(o: Probe) {
    o.wranglerExists == Some(true)
  }

  /**
    The issues of one key. A key missing locally has at most the single issue
    `removed locally`; a key present locally can have a Convex issue and a
    Worker issue, in that order.
  */
  function Issues(o: Probe): seq<string> {
    if o.envVal.None? then
      if (o.hasConvex && o.convexVal.Some?) || (o.hasWrangler && Holds(o)) then [RemovedLocally] else []
    else
      (if o.hasConvex && o.convexVal != o.envVal then [if o.convexVal.None? then MissingInConvex else ConvexDiffers] else []) +
      (if o.hasWrangler && !Holds(o) then [MissingInWrangler] else [])
  }

  /**
    `checkSyncStatus`: the issues are pushed one at a time and, for a key
    missing locally, collapsed through a `Set`; the key is in sync exactly
    when there is no issue.
  */
  method CheckSyncStatus(o: Probe) returns (status: Status)
    ensures status.issues == Issues(o)
    ensures status.synced <==> status.issues == []
  {
    var issues: seq<string> := [];
    if o.envVal.None? {
      if o.hasConvex && o.convexVal.Some? {
        issues := issues + [RemovedLocally];
      }
      if o.hasWrangler && Holds(o) {
        issues := issues + [RemovedLocally];
      }
      if |issues| == 2 {
        assert issues == [RemovedLocally, RemovedLocally];
        DistinctPair(RemovedLocally);
      } else {
        assert issues == Issues(o);
        DistinctOfNoDup(issues);
      }
      return Status(|issues| == 0, Distinct(issues));
    }
    if o.hasConvex && o.convexVal != o.envVal {
      if o.convexVal.None? {
        issues := issues + [MissingInConvex];
      } else {
        issues := issues + [ConvexDiffers];
      }
    }
    if o.hasWrangler && !Holds(o) {
      issues := issues + [MissingInWrangler];
    }
    return Status(|issues| == 0, issues);
  }

  /** `[...new Set([x, x])]` is `[x]`. */
  lemma DistinctPair(x: string)
    ensures Distinct([x, x]) == [x]
  {
    assert [x, x][..1] == [x];
    DistinctOfNoDup([x]);
  }

  /**
    A key missing locally: `removed locally` when either configured target
    holds it, and in sync otherwise.
  */
  lemma IssuesAbsentLocally(o: Probe)
    requires o.envVal.None?
    ensures Issues(o) == [] || Issues(o) == [RemovedLocally]
    ensures Issues(o) == [RemovedLocally] <==> (o.hasConvex && o.convexVal.Some?) || (o.hasWrangler && Holds(o))
  {
  }

  /**
    A key present locally: with Convex configured, `missing in convex` when
    the deployment lacks it and `convex differs` when it holds another value;
    with the Worker configured, `missing in wrangler` exactly when the Worker
    lacks it. No other issue arises, and none twice.
  */
  lemma IssuesPresentLocally(o: Probe)
    requires o.envVal.Some?
    ensures MissingInConvex in Issues(o) <==> o.hasConvex && o.convexVal.None?
    ensures ConvexDiffers in Issues(o) <==> o.hasConvex && o.convexVal.Some? && o.convexVal != o.envVal
    ensures MissingInWrangler in Issues(o) <==> o.hasWrangler && !Holds(o)
    ensures RemovedLocally !in Issues(o)
    ensures o.convexVal == o.envVal && (!o.hasWrangler || Holds(o)) ==> Issues(o) == []
    ensures NoDup(Issues(o))
  {
  }

  /**
    `formatValue`: `─` dimmed for a missing value, a value of at most 16
    characters as it is, and a longer one as its first six characters, `...`
    and its last six.
  */
  function FormatValue(val: Option<string>): (r: string)
    ensures val.None? ==> r == Dim("\U{2500}")
    ensures val.Some? && |val.value| <= 16 ==> r == val.value
    ensures val.Some? && |val.value| > 16 ==>
      |r| == 15 && r[..6] == val.value[..6] && r[6..9] == "..." && r[9..] == val.value[|val.value| - 6..]
  {
    if val.None? then Dim("\U{2500}")
    else if |val.value| <= 16 then val.value
    else val.value[..6] + "..." + val.value[|val.value| - 6..]
  }

  /** What the diff compares: the local record and what each configured target holds. */
  datatype Sources = Sources(local: Record, convex: Record, wrangler: seq<string>, hasConvex: bool, hasWrangler: bool)

  /**
    The sources as `diffAll` gathers them: the Convex listing is read only
    when Convex is configured and the Worker's names only when the Worker is.
  */
  function Gather(local: Record, hasConvex: bool, convexListing: ProcessResult, hasWrangler: bool, wranglerNames: seq<string>): (src: Sources)
    requires local.Valid()
    ensures src.local.Valid() && src.convex.Valid()
  {
    Sources(local, if hasConvex then ParseListing(convexListing) else EmptyRecord,
            if hasWrangler then wranglerNames else [], hasConvex, hasWrangler)
  }

  /** The options `diffAll` passes to `checkSyncStatus` for `key`. */
  function ProbeOf(src: Sources, key: string): Probe {
    Probe(src.local.Get(key),
          if src.hasConvex then src.convex.Get(key) else None,
          if src.hasWrangler then Some(key in src.wrangler) else None,
          src.hasConvex, src.hasWrangler)
  }

  /** `allKeys`: local keys, then Convex keys, then Worker names, each once. */
  function AllKeys(src: Sources): seq<string> {
    Distinct(src.local.keys + src.convex.keys + src.wrangler)
  }

  /** `excludePatterns`: the Convex exclude list followed by the Worker's, one list for every key. */
  function DiffPatterns(convexExclude: Option<seq<string>>, wranglerExclude: Option<seq<string>>): seq<string> {
    (if convexExclude.Some? then convexExclude.value else []) + (if wranglerExclude.Some? then wranglerExclude.value else [])
  }

  /** A key that gets a row: not excluded and not in sync. */
  predicate Flagged(excluded: (string, seq<string>) -> bool, patterns: seq<string>, src: Sources, key: string) {
    !excluded(key, patterns) && Issues(ProbeOf(src, key)) != []
  }

  /** The flag test as a function of the key alone. */
  function FlaggedTest(excluded: (string, seq<string>) -> bool, patterns: seq<string>, src: Sources): string -> bool {
    k => Flagged(excluded, patterns, src, k)
  }

  /** The keys of the rows, in the order of the sorted keys. */
  function FlaggedKeys(excluded: (string, seq<string>) -> bool, patterns: seq<string>, src: Sources): seq<string> {
    Filter(Sort(AllKeys(src)), FlaggedTest(excluded, patterns, src))
  }

  /** Every element is less than every later one. */
  predicate Increasing(s: seq<string>) {
    forall i, j :: 0 <= i < j < |s| ==> Less(s[i], s[j])
  }

  /** Filtering keeps an increasing sequence increasing. */
  lemma {:induction false} FilterIncreasing(s: seq<string>, keep: string -> bool)
    requires Increasing(s)
    ensures Increasing(Filter(s, keep))
  {
    if |s| > 0 {
      var q := s[..|s| - 1];
      var x := s[|s| - 1];
      assert Increasing(q);
      FilterIncreasing(q, keep);
      FilterSpec(q, keep);
      var f := Filter(q, keep);
      forall i | 0 <= i < |f| ensures Less(f[i], x) {
        assert f[i] in q;
      }
    }
  }

  /**
    The rows' keys are strictly increasing, so no key has two rows, and a key
    has a row exactly when it is known locally, to Convex or to the Worker, is
    not excluded, and is not in sync.
  */
  lemma FlaggedKeysSpec(excluded: (string, seq<string>) -> bool, patterns: seq<string>, src: Sources)
    requires src.local.Valid() && src.convex.Valid()
    ensures var ks := FlaggedKeys(excluded, patterns, src);
      Increasing(ks) &&
      forall k :: k in ks <==>
        (k in src.local.values || k in src.convex.values || k in src.wrangler) &&
        !excluded(k, patterns) && Issues(ProbeOf(src, k)) != []
  {
    var all := AllKeys(src);
    SortElements(all);
    SortedStrictly(Sort(all));
    FilterIncreasing(Sort(all), FlaggedTest(excluded, patterns, src));
    FilterSpec(Sort(all), FlaggedTest(excluded, patterns, src));
    assert forall k :: k in src.local.keys + src.convex.keys + src.wrangler <==>
      k in src.local.values || k in src.convex.values || k in src.wrangler;
  }

  /** The table's columns: key, the env file, Convex and the Worker when configured, then the status. */
  function Columns(envFileName: string, hasConvex: bool, hasWrangler: bool): seq<Column> {
    [Column("key", "KEY", None), Column("env", envFileName, Some(20))] +
    (if hasConvex then [Column("convex", "convex", Some(20))] else []) +
    (if hasWrangler then [Column("wrangler", "wrangler", Some(10))] else []) +
    [Column("synced", "synced", None)]
  }

  /** `envPath.split('/').pop()`: the last path segment, never `undefined`. */
  function EnvFileName(envPath: string): string {
    var parts := Split(envPath, '/');
    parts[|parts| - 1]
  }

  /** The row of one out-of-sync key. */
  function DiffRow(p: Palette, src: Sources, key: string): (row: Row)
    ensures "key" in row && "env" in row && "synced" in row
    ensures row["key"] == key && row["env"] == FormatValue(src.local.Get(key))
    ensures row["synced"] == Paint(p.red, "\U{2717} " + Join(Issues(ProbeOf(src, key)), ", "))
    ensures ("convex" in row <==> src.hasConvex) && ("wrangler" in row <==> src.hasWrangler)
  {
    var o := ProbeOf(src, key);
    var base := map["key" := key, "env" := FormatValue(o.envVal)];
    var withConvex := if src.hasConvex then
        base["convex" := if o.envVal == o.convexVal then FormatValue(o.convexVal) else Paint(p.yellow, FormatValue(o.convexVal))]
      else base;
    var withWrangler := if src.hasWrangler then
        withConvex["wrangler" := if Holds(o) then Paint(if o.envVal.Some? then p.green else p.yellow, "\U{2713}") else Dim("\U{2500}")]
      else withConvex;
    withWrangler["synced" := Paint(p.red, "\U{2717} " + Join(Issues(o), ", "))]
  }

  /** One row per key, in key order. */
  function DiffRows(p: Palette, src: Sources, keys: seq<string>): (rows: seq<Row>)
    ensures |rows| == |keys|
    ensures forall i :: 0 <= i < |keys| ==> rows[i] == DiffRow(p, src, keys[i])
  {
    seq(|keys|, i requires 0 <= i < |keys| => DiffRow(p, src, keys[i]))
  }

  /** One more out-of-sync key adds its row at the end. */
  lemma DiffRowsSnoc(p: Palette, src: Sources, keys: seq<string>, key: string)
    ensures DiffRows(p, src, keys + [key]) == DiffRows(p, src, keys) + [DiffRow(p, src, key)]
  {
    var ks := keys + [key];
    assert forall i :: 0 <= i < |keys| ==> ks[i] == keys[i];
  }

  /** What `diffAll` logs. */
  function DiffOutput(p: Palette, excluded: (string, seq<string>) -> bool, patterns: seq<string>, src: Sources, envPath: string): seq<string> {
    var rows := DiffRows(p, src, FlaggedKeys(excluded, patterns, src));
    Report(p, |AllKeys(src)|, |rows|, Table(Columns(EnvFileName(envPath), src.hasConvex, src.hasWrangler), rows))
  }

  /** The log for `count` out-of-sync keys among `total` keys, with `table` the lines of their table. */
  function Report(p: Palette, total: nat, count: nat, table: seq<string>): seq<string> {
    if count == 0 then [InSyncLine(p, total)]
    else [OutOfSyncLine(p, count)] + table + [""]
  }

  /** The success line for `total` keys, all in sync. */
  function InSyncLine(p: Palette, total: nat): string {
    Success(p, "All " + NatToString(total) + " keys are in sync")
  }

  /** The warning line, set off by empty lines, for `count` keys out of sync. */
  function OutOfSyncLine(p: Palette, count: nat): string {
    "\n" + Warn(p, NatToString(count) + " keys out of sync") + "\n"
  }

  /**
    With every key in sync, one success line counting all keys. Otherwise a
    warning counting the rows, the table header and separator, one line per
    out-of-sync key in increasing key order, and an empty line.
  */
  lemma DiffOutputShape(p: Palette, excluded: (string, seq<string>) -> bool, patterns: seq<string>, src: Sources, envPath: string)
    ensures var ks := FlaggedKeys(excluded, patterns, src);
      var lines := DiffOutput(p, excluded, patterns, src, envPath);
      var cols := Columns(EnvFileName(envPath), src.hasConvex, src.hasWrangler);
      var rows := DiffRows(p, src, ks);
      (ks == [] ==> lines == [InSyncLine(p, |AllKeys(src)|)]) &&
      (ks != [] ==>
        |lines| == |ks| + 4 && lines[|lines| - 1] == "" &&
        lines[0] == OutOfSyncLine(p, |ks|) &&
        forall i :: 0 <= i < |ks| ==> lines[3 + i] == RowLine(cols, ColumnWidths(cols, rows), DiffRow(p, src, ks[i])))
  {
    var ks := FlaggedKeys(excluded, patterns, src);
    if ks != [] {
      ReportLines(p, src, ks, |AllKeys(src)|, Columns(EnvFileName(envPath), src.hasConvex, src.hasWrangler));
    }
  }

  /** The log for the rows of some out-of-sync keys. */
  lemma ReportLines(p: Palette, src: Sources, ks: seq<string>, total: nat, cols: seq<Column>)
    requires ks != []
    ensures var rows := DiffRows(p, src, ks);
      var lines := Report(p, total, |ks|, Table(cols, rows));
      |lines| == |ks| + 4 && lines[|lines| - 1] == "" && lines[0] == OutOfSyncLine(p, |ks|) &&
      forall i :: 0 <= i < |ks| ==> lines[3 + i] == RowLine(cols, ColumnWidths(cols, rows), DiffRow(p, src, ks[i]))
  {
    var rows := DiffRows(p, src, ks);
    var t := Table(cols, rows);
    forall i | 0 <= i < |ks| ensures Report(p, total, |ks|, t)[3 + i] == RowLine(cols, ColumnWidths(cols, rows), DiffRow(p, src, ks[i])) {
      TableLine(cols, rows, i);
      ReportLine(p, total, |ks|, t, i);
    }
  }

  /** The lines of the table follow the warning line. */
  lemma ReportLine(p: Palette, total: nat, count: nat, t: seq<string>, i: nat)
    requires count > 0 && 2 + i < |t|
    ensures Report(p, total, count, t)[3 + i] == t[2 + i]
  {
  }

  /**
    `diffAll`, from the point where the sources are known: `convexListing`
    is the `convex env list` result, `wranglerNames` the Worker's secret
    names, `envPath` the env file's path and `excluded` the exclusion test.
  */
  method DiffAll(p: Palette, excluded: (string, seq<string>) -> bool,
                 convexExclude: Option<seq<string>>, wranglerExclude: Option<seq<string>>,
                 local: Record, hasConvex: bool, convexListing: ProcessResult,
                 hasWrangler: bool, wranglerNames: seq<string>, envPath: string)
    returns (lines: seq<string>)
    requires local.Valid()
    ensures lines == DiffOutput(p, excluded, DiffPatterns(convexExclude, wranglerExclude),
                                Gather(local, hasConvex, convexListing, hasWrangler, wranglerNames), envPath)
  {
    var convex := EmptyRecord;
    if hasConvex {
      convex := GetConvexEnv(convexListing);
    }
    var wrangler := if hasWrangler then wranglerNames else [];
    var src := Sources(local, convex, wrangler, hasConvex, hasWrangler);
    var allKeys := Distinct(local.keys + convex.keys + wrangler);
    var patterns := DiffPatterns(convexExclude, wranglerExclude);
    var cols := Columns(EnvFileName(envPath), hasConvex, hasWrangler);

    var rows := CollectRows(p, excluded, patterns, src, Sort(allKeys));
    if |rows| == 0 {
      lines := [InSyncLine(p, |allKeys|)];
    } else {
      var table := PrintTable(cols, rows);
      lines := [OutOfSyncLine(p, |rows|)] + table + [""];
    }
  }

  /** The loop over the sorted keys: a row for each key that is not excluded and not in sync. */
  method CollectRows(p: Palette, excluded: (string, seq<string>) -> bool, patterns: seq<string>, src: Sources, sorted: seq<string>)
    returns (rows: seq<Row>)
    ensures rows == DiffRows(p, src, Filter(sorted, FlaggedTest(excluded, patterns, src)))
  {
    rows := [];
    ghost var flagged: seq<string> := [];
    for i := 0 to |sorted|
      invariant flagged == Filter(sorted[..i], FlaggedTest(excluded, patterns, src))
      invariant rows == DiffRows(p, src, flagged)
    {
      var key := sorted[i];
      assert sorted[..i + 1] == sorted[..i] + [key];
      FilterSnoc(sorted[..i], key, FlaggedTest(excluded, patterns, src));
      if excluded(key, patterns) {
        continue;
      }
      var status := CheckSyncStatus(ProbeOf(src, key));
      if status.synced {
        continue;
      }
      DiffRowsSnoc(p, src, flagged, key);
      rows := rows + [DiffRow(p, src, key)];
      flagged := flagged + [key];
    }
    assert sorted[..|sorted|] == sorted;
  }
}
