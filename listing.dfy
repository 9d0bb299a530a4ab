/**
  The parser for the output of `convex env list`: one `KEY=value` line per
  variable. The same parser appears in the sync command and in the diff
  command; both read the process result as a record.
*/
module Listing {
  import opened Collections
  import opened Text

  /** What a finished child process reports: its exit code and its output. */
  datatype ProcessResult = ProcessResult(exitCode: int, stdout: string)

  predicate IsKeyStart(c: char) {
    'A' <= c <= 'Z' || c == '_'
  }

  predicate IsKeyChar(c: char) {
    IsKeyStart(c) || '0' <= c <= '9'
  }

  /** `[A-Z_][A-Z0-9_]*` matches all of `s`. */
  predicate IsKey(s: string) {
    |s| > 0 && IsKeyStart(s[0]) && forall i :: 1 <= i < |s| ==> IsKeyChar(s[i])
  }

  /** The characters a regular-expression `.` does not match. */
  predicate IsLineTerminator(c: char) {
    c == '\n' || c == '\r' || c == '\U{2028}' || c == '\U{2029}'
  }

  /** `.*` matches all of `s`. */
  predicate OnOneLine(s: string) {
    forall i :: 0 <= i < |s| ==> !IsLineTerminator(s[i])
  }

  /**
    `line.match(/^([A-Z_][A-Z0-9_]*)=(.*)$/)`: the key and the value of a
    matching line. No key character is `=`, so the key can only end at the
    first `=`; the value is the rest of the line and may hold further `=`.
  */
  function MatchLine(line: string): (m: Option<(string, string)>)
    ensures m.Some? ==> line == m.value.0 + "=" + m.value.1
    ensures m.Some? ==> IsKey(m.value.0) && OnOneLine(m.value.1)
  {
    var i := FirstIndex(line, '=');
    if i < |line| && IsKey(line[..i]) && OnOneLine(line[i + 1..]) then
      assert line == line[..i] + "=" + line[i + 1..];
      Some((line[..i], line[i + 1..]))
    else None
  }

  /** A line matches exactly when some `=` in it has a key before it and one line of text after it. */
  lemma MatchLineExactly(line: string)
    ensures MatchLine(line).Some? <==>
      exists i :: 0 <= i < |line| && line[i] == '=' && IsKey(line[..i]) && OnOneLine(line[i + 1..])
  {
    var f := FirstIndex(line, '=');
    if i :| 0 <= i < |line| && line[i] == '=' && IsKey(line[..i]) && OnOneLine(line[i + 1..]) {
      if f < i {
        assert line[..i][f] == '=';
      }
    }
  }

  /** The record the loop over the lines builds: a later line for the same key overwrites the value. */
  function ParseLines(lines: seq<string>): (r: Record)
    ensures r.Valid()
    ensures forall k :: k in r.values ==> IsKey(k) && OnOneLine(r.values[k])
  {
    if |lines| == 0 then EmptyRecord
    else
      var r := ParseLines(lines[..|lines| - 1]);
      match MatchLine(lines[|lines| - 1])
      case Some((k, v)) => r.Put(k, v)
      case None => r
  }

  /** `getConvexEnv`: the empty record when the process failed, else the parsed lines. */
  function ParseListing(res: ProcessResult): (r: Record)
    ensures r.Valid()
    ensures res.exitCode != 0 ==> r == EmptyRecord
    ensures forall k :: k in r.values ==> IsKey(k) && OnOneLine(r.values[k])
  {
    if res.exitCode != 0 then EmptyRecord else ParseLines(Split(res.stdout, '\n'))
  }

  /** `getConvexEnv`, with the `convex env list` process result given. */
  method GetConvexEnv(res: ProcessResult) returns (record: Record)
    ensures record == ParseListing(res)
  {
    if res.exitCode != 0 {
      return EmptyRecord;
    }
    var lines := Split(res.stdout, '\n');
    record := EmptyRecord;
    for i := 0 to |lines|
      invariant record == ParseLines(lines[..i])
    {
      assert lines[..i + 1][..i] == lines[..i];
      var m := MatchLine(lines[i]);
      if m.Some? {
        record := record.Put(m.value.0, m.value.1);
      }
    }
    assert lines[..|lines|] == lines;
  }

  /** The keys of the matching lines, in line order, repetitions included. */
  function MatchedKeys(lines: seq<string>): (ks: seq<string>)
    ensures forall k :: k in ks <==> exists i :: 0 <= i < |lines| && MatchLine(lines[i]).Some? && MatchLine(lines[i]).value.0 == k
  {
    if |lines| == 0 then []
    else
      var p := lines[..|lines| - 1];
      assert forall i :: 0 <= i < |p| ==> p[i] == lines[i];
      match MatchLine(lines[|lines| - 1])
      case Some((k, _)) => MatchedKeys(p) + [k]
      case None => MatchedKeys(p)
  }

  /** The parsed keys are the matching lines' keys, each at the place of its first line. */
  lemma {:induction false} ParseLinesKeys(lines: seq<string>)
    ensures ParseLines(lines).keys == Distinct(MatchedKeys(lines))
  {
    if |lines| > 0 {
      var p := lines[..|lines| - 1];
      ParseLinesKeys(p);
      var r := ParseLines(p);
      assert Elems(r.keys) == r.values.Keys;
    }
  }

  /** A key's value is the one on its last matching line. */
  lemma {:induction false} ParseLinesLastWins(lines: seq<string>, i: nat, k: string, v: string)
    requires i < |lines| && MatchLine(lines[i]) == Some((k, v))
    requires forall j :: i < j < |lines| ==> MatchLine(lines[j]).None? || MatchLine(lines[j]).value.0 != k
    ensures k in ParseLines(lines).values && ParseLines(lines).values[k] == v
  {
    if i < |lines| - 1 {
      var p := lines[..|lines| - 1];
      assert forall j :: i < j < |p| ==> p[j] == lines[j];
      ParseLinesLastWins(p, i, k, v);
    }
  }

  /** The lines `KEY=value` of a record, in key order. */
  function EntryLines(keys: seq<string>, m: map<string, string>): (ls: seq<string>)
    requires forall k :: k in keys ==> k in m
    ensures |ls| == |keys|
  {
    if |keys| == 0 then []
    else
      var k := keys[|keys| - 1];
      EntryLines(keys[..|keys| - 1], m) + [k + "=" + m[k]]
  }

  /** What `convex env list` prints for a record. */
  function FormatListing(r: Record): string
    requires Elems(r.keys) <= r.values.Keys
  {
    Join(EntryLines(r.keys, r.values), "\n")
  }

  /** An entry line parses back to its key and value. */
  lemma MatchEntryLine(k: string, v: string)
    requires IsKey(k) && OnOneLine(v)
    ensures MatchLine(k + "=" + v) == Some((k, v))
  {
    var line := k + "=" + v;
    assert FirstIndex(line, '=') == |k| by {
      assert line[|k|] == '=';
      assert forall j :: 0 <= j < |k| ==> line[j] == k[j];
    }
    assert line[..|k|] == k && line[|k| + 1..] == v;
  }

  /** The lines written for some entries parse back to exactly those entries, in order. */
  lemma {:induction false} ParseEntryLines(keys: seq<string>, m: map<string, string>)
    requires NoDup(keys)
    requires forall k :: k in keys ==> k in m && IsKey(k) && OnOneLine(m[k])
    ensures ParseLines(EntryLines(keys, m)) == Record(keys, map k | k in Elems(keys) :: m[k])
  {
    if |keys| > 0 {
      var p := keys[..|keys| - 1];
      var k := keys[|keys| - 1];
      assert keys == p + [k];
      NoDupPrefix(keys, |keys| - 1);
      ParseEntryLines(p, m);
      ParseEntryLine(p, k, m);
    }
  }

  /** One more entry line puts one more key after the others. */
  lemma ParseEntryLine(p: seq<string>, k: string, m: map<string, string>)
    requires k !in p && k in m && IsKey(k) && OnOneLine(m[k])
    requires forall x :: x in p ==> x in m
    requires ParseLines(EntryLines(p, m)) == Record(p, map x | x in Elems(p) :: m[x])
    ensures ParseLines(EntryLines(p + [k], m)) == Record(p + [k], map x | x in Elems(p + [k]) :: m[x])
  {
    var keys := p + [k];
    var ls := EntryLines(keys, m);
    assert keys[..|keys| - 1] == p;
    assert ls[..|ls| - 1] == EntryLines(p, m);
    MatchEntryLine(k, m[k]);
    assert Elems(keys) == Elems(p) + {k};
    RestrictInsert(m, Elems(p), k);
  }

  /** Restricting `m` to one more key is updating the restriction at that key. */
  lemma RestrictInsert(m: map<string, string>, s: set<string>, k: string)
    requires s <= m.Keys && k in m
    ensures (map x | x in s :: m[x])[k := m[k]] == map x | x in s + {k} :: m[x]
  {
  }

  /**
    Printing a record as a listing and parsing it back gives the record,
    provided every key is an identifier and no value spans lines.
  */
  lemma RoundTrip(r: Record)
    requires r.Valid()
    requires forall k :: k in r.values ==> IsKey(k) && OnOneLine(r.values[k])
    ensures ParseListing(ProcessResult(0, FormatListing(r))) == r
  {
    var ls := EntryLines(r.keys, r.values);
    ParseEntryLines(r.keys, r.values);
    assert (map k | k in Elems(r.keys) :: r.values[k]) == r.values;
    if |ls| == 0 {
      assert Split(FormatListing(r), '\n') == [""];
      assert MatchLine("").None?;
      assert [""][..0] == [];
    } else {
      forall i | 0 <= i < |ls| ensures '\n' !in ls[i] {
        EntryLineShape(r.keys, r.values, i);
      }
      SplitJoin(ls, '\n');
    }
  }

  /** Each entry line is a key, `=` and a value, none of which holds a newline. */
  lemma {:induction false} EntryLineShape(keys: seq<string>, m: map<string, string>, i: nat)
    requires forall k :: k in keys ==> k in m && IsKey(k) && OnOneLine(m[k])
    requires i < |keys|
    ensures '\n' !in EntryLines(keys, m)[i]
  {
    if i < |keys| - 1 {
      EntryLineShape(keys[..|keys| - 1], m, i);
    } else {
      var k := keys[i];
      var line := k + "=" + m[k];
      assert EntryLines(keys, m)[i] == line;
      forall j | 0 <= j < |line| ensures line[j] != '\n' {
        if j < |k| { assert line[j] == k[j]; }
        else if j > |k| { assert line[j] == m[k][j - |k| - 1]; }
      }
    }
  }
}
