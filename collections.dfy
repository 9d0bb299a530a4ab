/**
  Sequences and records shared by every part of the model.

  A JavaScript `Record<string, string>` remembers the order in which its keys
  were first assigned (`Object.keys`, `Object.entries`) as long as no key is an
  array index such as `"42"` (those are listed first, in ascending order; the
  tool's keys are identifiers), and a `Set` iterates
  in first-insertion order; both orders are observable in the tool (the order
  of the added/updated/removed lists and of the remote calls), so a record is
  modelled as an ordered key sequence beside a map.
*/
module Collections {

  datatype Option<T> = None | Some(value: T)

  /** No element occurs twice. */
  predicate NoDup(s: seq<string>) {
    forall i, j :: 0 <= i < j < |s| ==> s[i] != s[j]
  }

  /** A sequence with no element is empty. */
  lemma EmptyWithoutElements(s: seq<string>)
    ensures (forall x :: x !in s) ==> s == []
  {
    if |s| > 0 {
      assert s[0] in s;
    }
  }

  /** The elements of a sequence. */
  function Elems(s: seq<string>): set<string> {
    set x | x in s
  }

  /** A prefix of a duplicate-free sequence is duplicate-free, and the rest avoids it. */
  lemma NoDupPrefix(s: seq<string>, n: nat)
    requires NoDup(s) && n <= |s|
    ensures NoDup(s[..n])
    ensures forall i :: n <= i < |s| ==> s[i] !in s[..n]
  {
  }


  /** `r` is `s` with some elements left out, the rest kept in order. */
  predicate SubseqOf(r: seq<string>, s: seq<string>) {
    if |r| == 0 then true
    else if |s| == 0 then false
    else if r[0] == s[0] then SubseqOf(r[1..], s[1..])
    else SubseqOf(r, s[1..])
  }

  /** A subsequence survives appending to the whole, and to both sides. */
  lemma {:induction false} SubseqOfExtend(r: seq<string>, s: seq<string>, x: string)
    requires SubseqOf(r, s)
    ensures SubseqOf(r, s + [x])
    ensures SubseqOf(r + [x], s + [x])
    decreases |s|
  {
    if |s| == 0 {
      assert r == [];
      assert r + [x] == [x];
    } else {
      assert (s + [x])[1..] == s[1..] + [x];
      assert (s + [x])[0] == s[0];
      if |r| == 0 {
        assert r + [x] == [x];
        SubseqOfExtend([], s[1..], x);
      } else {
        assert (r + [x])[1..] == r[1..] + [x];
        assert (r + [x])[0] == r[0];
        if r[0] == s[0] {
          SubseqOfExtend(r[1..], s[1..], x);
        } else {
          SubseqOfExtend(r, s[1..], x);
        }
      }
    }
  }

  /**
    `new Set(s)` followed by spreading it back into an array: the elements of
    `s` without repetitions, kept in the order of `s`
    (`DistinctFirstPlace` adds that each one sits at its first occurrence).
  */
  function Distinct(s: seq<string>): (r: seq<string>)
    ensures NoDup(r)
    ensures forall x :: x in r <==> x in s
    ensures |r| <= |s|
    ensures SubseqOf(r, s)
  {
    if |s| == 0 then []
    else
      var q := s[..|s| - 1];
      var p := Distinct(q);
      var x := s[|s| - 1];
      assert q + [x] == s;
      SubseqOfExtend(p, q, x);
      if x in p then p else p + [x]
  }

  /**
    The elements before place `i` of `Distinct(s)` are exactly those that
    occur in `s` before the first occurrence of `Distinct(s)[i]`.
  */
  lemma {:induction false} DistinctFirstPlace(s: seq<string>, i: nat, j: nat)
    requires i < |Distinct(s)| && j < |s|
    requires s[j] == Distinct(s)[i] && s[j] !in s[..j]
    ensures Elems(Distinct(s)[..i]) == Elems(s[..j])
  {
    var q := s[..|s| - 1];
    var p := Distinct(q);
    var x := s[|s| - 1];
    var r := Distinct(s);
    if j == |s| - 1 {
      assert q == s[..j];
      assert x !in p;
      assert r == p + [x];
      assert r[|p|] == x;
      assert i == |p|;
      assert r[..i] == p;
    } else {
      assert q[j] == s[j] && q[..j] == s[..j];
      assert s[j] in p;
      if r != p {
        assert r == p + [x];
        assert i != |p|;
      }
      assert i < |p| && r[..i] == p[..i];
      DistinctFirstPlace(q, i, j);
    }
  }

  /** A sequence that already has no repetitions is its own `Distinct`. */
  lemma {:induction false} DistinctOfNoDup(s: seq<string>)
    requires NoDup(s)
    ensures Distinct(s) == s
  {
    if |s| > 0 {
      NoDupPrefix(s, |s| - 1);
      DistinctOfNoDup(s[..|s| - 1]);
      assert s[..|s| - 1] + [s[|s| - 1]] == s;
    }
  }

  /** A subsequence survives an element put in front of the whole. */
  lemma {:induction false} SubseqOfCons(r: seq<string>, y: string, t: seq<string>)
    requires SubseqOf(r, t)
    ensures SubseqOf(r, [y] + t)
    decreases |t|, 1
  {
    assert ([y] + t)[1..] == t;
    if |r| > 0 && r[0] == y {
      SubseqOfDrop(r, t);
    }
  }

  /** A subsequence survives losing its first element. */
  lemma {:induction false} SubseqOfDrop(r: seq<string>, t: seq<string>)
    requires |r| > 0 && SubseqOf(r, t)
    ensures SubseqOf(r[1..], t)
    decreases |t|, 0
  {
    assert t == [t[0]] + t[1..];
    if r[0] == t[0] {
      SubseqOfCons(r[1..], t[0], t[1..]);
    } else {
      SubseqOfDrop(r, t[1..]);
      SubseqOfCons(r[1..], t[0], t[1..]);
    }
  }

  /** Being a subsequence is transitive. */
  lemma {:induction false} SubseqOfTransitive(a: seq<string>, b: seq<string>, c: seq<string>)
    requires SubseqOf(a, b) && SubseqOf(b, c)
    ensures SubseqOf(a, c)
    decreases |c|
  {
    if |a| > 0 && |b| > 0 && |c| > 0 {
      if b[0] == c[0] {
        if a[0] == b[0] {
          SubseqOfTransitive(a[1..], b[1..], c[1..]);
        } else {
          SubseqOfTransitive(a, b[1..], c[1..]);
        }
      } else {
        SubseqOfTransitive(a, b, c[1..]);
        if a[0] == c[0] {
          SubseqOfDrop(a, c[1..]);
        }
      }
    }
  }

  /** The elements of `s` that belong to `m`, in the order of `s`. */
  function Inside(s: seq<string>, m: set<string>): seq<string> {
    if |s| == 0 then []
    else
      var p := Inside(s[..|s| - 1], m);
      if s[|s| - 1] in m then p + [s[|s| - 1]] else p
  }

  /** The elements of `s` that do not belong to `m`, in the order of `s`. */
  function Outside(s: seq<string>, m: set<string>): seq<string> {
    if |s| == 0 then []
    else
      var p := Outside(s[..|s| - 1], m);
      if s[|s| - 1] !in m then p + [s[|s| - 1]] else p
  }

  /** Every element of `s` goes to exactly one side. */
  lemma {:induction false} InsideOutsideLength(s: seq<string>, m: set<string>)
    ensures |Inside(s, m)| + |Outside(s, m)| == |s|
  {
    if |s| > 0 {
      InsideOutsideLength(s[..|s| - 1], m);
    }
  }

  /** Extending `s` by one element extends `Outside(s, m)` by it, unless `m` holds it. */
  lemma OutsideSnoc(s: seq<string>, x: string, m: set<string>)
    ensures Outside(s + [x], m) == Outside(s, m) + (if x !in m then [x] else [])
  {
    assert (s + [x])[..|s|] == s;
  }

  /** `Inside` keeps exactly the elements in `m`, without repeating any, in order. */
  lemma {:induction false} InsideSpec(s: seq<string>, m: set<string>)
    ensures forall x :: x in Inside(s, m) <==> x in s && x in m
    ensures |Inside(s, m)| <= |s|
    ensures NoDup(s) ==> NoDup(Inside(s, m))
    ensures SubseqOf(Inside(s, m), s)
  {
    if |s| > 0 {
      var q := s[..|s| - 1];
      var x := s[|s| - 1];
      InsideSpec(q, m);
      if NoDup(s) { NoDupPrefix(s, |s| - 1); }
      SubseqOfExtend(Inside(q, m), q, x);
      assert q + [x] == s;
    }
  }

  /** `Outside` keeps exactly the elements not in `m`, without repeating any, in order. */
  lemma {:induction false} OutsideSpec(s: seq<string>, m: set<string>)
    ensures forall x :: x in Outside(s, m) <==> x in s && x !in m
    ensures |Outside(s, m)| <= |s|
    ensures NoDup(s) ==> NoDup(Outside(s, m))
    ensures SubseqOf(Outside(s, m), s)
  {
    if |s| > 0 {
      var q := s[..|s| - 1];
      var x := s[|s| - 1];
      OutsideSpec(q, m);
      if NoDup(s) { NoDupPrefix(s, |s| - 1); }
      SubseqOfExtend(Outside(q, m), q, x);
      assert q + [x] == s;
    }
  }

  /**
    Filtering by `m` and by its complement splits a sequence without
    repetitions into two disjoint parts that together hold every element once.
  */
  lemma {:induction false} InsideOutsidePartition(s: seq<string>, m: set<string>)
    requires NoDup(s)
    ensures |Inside(s, m)| + |Outside(s, m)| == |s|
    ensures Elems(Inside(s, m)) !! Elems(Outside(s, m))
    ensures Elems(Inside(s, m)) + Elems(Outside(s, m)) == Elems(s)
  {
    InsideSpec(s, m);
    OutsideSpec(s, m);
    if |s| > 0 {
      NoDupPrefix(s, |s| - 1);
      InsideOutsidePartition(s[..|s| - 1], m);
      InsideSpec(s[..|s| - 1], m);
      OutsideSpec(s[..|s| - 1], m);
    }
  }

  /** A string-keyed record that remembers the order of its keys. */
  datatype Record = Record(keys: seq<string>, values: map<string, string>) {

    /** Each key is listed once, and the listed keys are exactly the map's. */
    ghost predicate Valid() {
      NoDup(keys) && Elems(keys) == values.Keys
    }

    /** `record[k] = v`: a new key goes last, an existing key keeps its place. */
    function Put(k: string, v: string): (r: Record)
      ensures Valid() ==> r.Valid()
      ensures r.values == values[k := v]
      ensures k in values ==> r.keys == keys
      ensures k !in values ==> r.keys == keys + [k]
    {
      if k in values then Record(keys, values[k := v])
      else
        assert Valid() ==> k !in keys;
        Record(keys + [k], values[k := v])
    }

    /** `record[k]`, with `undefined` as `None`. */
    function Get(k: string): Option<string> {
      if k in values then Some(values[k]) else None
    }
  }

  /** `{}` */
  const EmptyRecord: Record := Record([], map[])

  /** The elements of `s` that pass `keep`, in their order. */
  function Filter(s: seq<string>, keep: string -> bool): seq<string> {
    if |s| == 0 then []
    else
      var p := Filter(s[..|s| - 1], keep);
      if keep(s[|s| - 1]) then p + [s[|s| - 1]] else p
  }

  /** Filtering one more element appends it when it is kept. */
  lemma FilterSnoc(s: seq<string>, x: string, keep: string -> bool)
    ensures Filter(s + [x], keep) == Filter(s, keep) + (if keep(x) then [x] else [])
  {
    assert (s + [x])[..|s|] == s;
  }

  /** `Filter` keeps exactly the elements that pass, without repeating any, in order. */
  lemma {:induction false} FilterSpec(s: seq<string>, keep: string -> bool)
    ensures forall x :: x in Filter(s, keep) <==> x in s && keep(x)
    ensures NoDup(s) ==> NoDup(Filter(s, keep))
    ensures SubseqOf(Filter(s, keep), s)
  {
    if |s| > 0 {
      var q := s[..|s| - 1];
      var x := s[|s| - 1];
      assert s == q + [x];
      FilterSpec(q, keep);
      if NoDup(s) { NoDupPrefix(s, |s| - 1); }
      FilterSpecStep(q, x, keep);
    }
  }

  /** The properties of `FilterSpec` carry over to one more element. */
  lemma FilterSpecStep(q: seq<string>, x: string, keep: string -> bool)
    requires forall y :: y in Filter(q, keep) <==> y in q && keep(y)
    requires NoDup(q + [x]) ==> NoDup(Filter(q, keep)) && x !in q
    requires SubseqOf(Filter(q, keep), q)
    ensures forall y :: y in Filter(q + [x], keep) <==> y in q + [x] && keep(y)
    ensures NoDup(q + [x]) ==> NoDup(Filter(q + [x], keep))
    ensures SubseqOf(Filter(q + [x], keep), q + [x])
  {
    FilterSnoc(q, x, keep);
    SubseqOfExtend(Filter(q, keep), q, x);
  }

  /**
    The record a loop over the first `n` entries of `r` builds when it copies
    each entry whose key passes `keep`.
  */
  function FilterPrefix(r: Record, keep: string -> bool, n: nat): (f: Record)
    requires r.Valid() && n <= |r.keys|
    ensures f.Valid()
  {
    if n == 0 then EmptyRecord
    else
      var f := FilterPrefix(r, keep, n - 1);
      var k := r.keys[n - 1];
      if keep(k) then f.Put(k, r.values[k]) else f
  }

  /** After `n` entries the copy holds the passing ones among them, in order, with their values. */
  lemma {:induction false} FilterPrefixSpec(r: Record, keep: string -> bool, n: nat)
    requires r.Valid() && n <= |r.keys|
    ensures FilterPrefix(r, keep, n).keys == Filter(r.keys[..n], keep)
    ensures forall k :: k in FilterPrefix(r, keep, n).values ==>
      k in r.values && FilterPrefix(r, keep, n).values[k] == r.values[k]
  {
    if n > 0 {
      FilterPrefixSpec(r, keep, n - 1);
      var f := FilterPrefix(r, keep, n - 1);
      var k := r.keys[n - 1];
      assert r.keys[..n] == r.keys[..n - 1] + [k];
      FilterSnoc(r.keys[..n - 1], k, keep);
      NoDupPrefix(r.keys, n - 1);
      FilterSpec(r.keys[..n - 1], keep);
      assert k !in f.values;
    }
  }

  /** The entries of `r` whose key passes `keep`, in the order of `r`. */
  function FilterRecord(r: Record, keep: string -> bool): (f: Record)
    requires r.Valid()
    ensures f.Valid()
  {
    FilterPrefix(r, keep, |r.keys|)
  }

  /** The filtered record holds exactly the passing keys, with their values, in order. */
  lemma FilterRecordSpec(r: Record, keep: string -> bool)
    requires r.Valid()
    ensures forall k :: k in FilterRecord(r, keep).values <==> k in r.values && keep(k)
    ensures forall k :: k in FilterRecord(r, keep).values ==> FilterRecord(r, keep).values[k] == r.values[k]
    ensures FilterRecord(r, keep).keys == Filter(r.keys, keep)
    ensures SubseqOf(FilterRecord(r, keep).keys, r.keys)
  {
    assert r.keys[..|r.keys|] == r.keys;
    FilterPrefixSpec(r, keep, |r.keys|);
    FilterSpec(r.keys, keep);
  }
}
