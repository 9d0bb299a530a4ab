/**
  The type-declaration generator: from the variables of an env file it
  writes a TypeScript module with a public and a private block, one field
  per variable, either as valibot or zod schemas or as plain types, followed
  by a commented `env.d.ts` hint.
*/
module Typegen {
  import opened Collections
  import opened Text

  /** `EnvVar`: a variable of the env file and the scope its key gives it. */
  datatype EnvVar = EnvVar(key: string, value: string, scope: string)

  /** The `lib` argument of `inferValidator`. */
  datatype Lib = Valibot | Zod

  /** Which generator `generateTypes` runs. */
  datatype Output = SchemaOutput(lib: Lib) | PlainOutput

  /** `config.schema ?? 'valibot'`, then the choice among the generators. */
  function SelectOutput(schema: Option<string>): (out: Output)
    ensures out == PlainOutput <==> schema == Some("none")
    ensures out == SchemaOutput(Zod) <==> schema == Some("zod")
    ensures out == SchemaOutput(Valibot) <==> schema != Some("none") && schema != Some("zod")
  {
    var name := if schema.Some? then schema.value else "valibot";
    if name == "none" then PlainOutput
    else if name == "zod" then SchemaOutput(Zod)
    else SchemaOutput(Valibot)
  }

  /** The validator of a URL-like key. */
  function UrlValidator(lib: Lib): string {
    match lib
    case Valibot => "v.pipe(v.string(), v.url())"
    case Zod => "z.string().url()"
  }

  /** The validator of any other key. */
  function StringValidator(lib: Lib): string {
    match lib
    case Valibot => "v.string()"
    case Zod => "z.string()"
  }

  /** The key names a URL: its lower-cased form contains `url` or `endpoint`. */
  predicate UrlLike(key: string) {
    Contains(AsciiLower(key), "url") || Contains(AsciiLower(key), "endpoint")
  }

  /** `inferValidator` */
  function InferValidator(key: string, value: string, lib: Lib): string {
    if UrlLike(key) then UrlValidator(lib) else StringValidator(lib)
  }

  /** The URL validator exactly for URL-like keys, the string validator otherwise. */
  lemma InferValidatorSpec(key: string, value: string, lib: Lib)
    ensures InferValidator(key, value, lib) == UrlValidator(lib) <==> UrlLike(key)
    ensures InferValidator(key, value, lib) == StringValidator(lib) <==> !UrlLike(key)
  {
    var u := UrlValidator(lib);
    var s := StringValidator(lib);
    assert u != s by {
      assert |u| != |s|;
    }
  }

  /** The value of a variable never influences its validator. */
  lemma InferValidatorIgnoresValue(key: string, value1: string, value2: string, lib: Lib)
    ensures InferValidator(key, value1, lib) == InferValidator(key, value2, lib)
  {
  }

  /** `vars.filter(v => v.scope === scope)` */
  function ScopeVars(vars: seq<EnvVar>, scope: string): seq<EnvVar> {
    if |vars| == 0 then []
    else
      var p := ScopeVars(vars[..|vars| - 1], scope);
      if vars[|vars| - 1].scope == scope then p + [vars[|vars| - 1]] else p
  }

  /** The filter keeps exactly the variables of the scope. */
  lemma {:induction false} ScopeVarsSpec(vars: seq<EnvVar>, scope: string)
    ensures forall v :: v in ScopeVars(vars, scope) <==> v in vars && v.scope == scope
  {
    if |vars| > 0 {
      var p := vars[..|vars| - 1];
      ScopeVarsSpec(p, scope);
      assert vars == p + [vars[|vars| - 1]];
    }
  }

  /** Filtering a concatenation filters each part. */
  lemma {:induction false} ScopeVarsAppend(a: seq<EnvVar>, b: seq<EnvVar>, scope: string)
    ensures ScopeVars(a + b, scope) == ScopeVars(a, scope) + ScopeVars(b, scope)
  {
    if |b| > 0 {
      var q := b[..|b| - 1];
      ScopeVarsAppend(a, q, scope);
      assert (a + b)[..|a + b| - 1] == a + q;
    } else {
      assert a + b == a;
    }
  }

  /** One field line: `  KEY: validator,` in a schema, `  KEY: string` in plain types. */
  function FieldLine(out: Output, v: EnvVar): string {
    match out
    case SchemaOutput(lib) => "  " + v.key + ": " + InferValidator(v.key, v.value, lib) + ","
    case PlainOutput => "  " + v.key + ": string"
  }

  /**
    A field line is the key after two spaces, then `: ` and the validator of
    the key and a comma in a schema, or `: string` in plain types.
  */
  lemma FieldLineShape(out: Output, v: EnvVar)
    ensures var line := FieldLine(out, v);
      |line| > |v.key| + 2 && line[..2] == "  " && line[2..|v.key| + 2] == v.key &&
      (out.PlainOutput? ==> line[|v.key| + 2..] == ": string") &&
      (out.SchemaOutput? ==>
         line[|line| - 1] == ',' && line[|v.key| + 2..|v.key| + 4] == ": " &&
         line[|v.key| + 4..|line| - 1] == (if UrlLike(v.key) then UrlValidator(out.lib) else StringValidator(out.lib)))
  {
    var line := FieldLine(out, v);
    match out
    case SchemaOutput(lib) =>
      var val := InferValidator(v.key, v.value, lib);
      assert line == "  " + v.key + ": " + val + ",";
      assert line[|v.key| + 4..|line| - 1] == val;
    case PlainOutput =>
  }

  /** The import line of a schema library. */
  function ImportLine(lib: Lib): string {
    if lib == Valibot then "import * as v from 'valibot'" else "import { z } from 'zod'"
  }

  /** The line opening a block. */
  function OpenLine(out: Output, isPublic: bool): string {
    match out
    case SchemaOutput(lib) =>
      "export const " + (if isPublic then "publicEnvSchema" else "privateEnvSchema") + " = " +
      (if lib == Valibot then "v" else "z") + ".object({"
    case PlainOutput => "export type " + (if isPublic then "PublicEnv" else "PrivateEnv") + " = {"
  }

  /** The line closing a block. */
  function CloseLine(out: Output): string {
    if out.PlainOutput? then "}" else "})"
  }

  /** The line that infers a block's type from its schema. */
  function InferLine(lib: Lib, isPublic: bool): string {
    var name := if isPublic then "PublicEnv" else "PrivateEnv";
    var schema := if isPublic then "publicEnvSchema" else "privateEnvSchema";
    if lib == Valibot then "export type " + name + " = v.InferOutput<typeof " + schema + ">"
    else "export type " + name + " = z.infer<typeof " + schema + ">"
  }

  /** The comment lines of `generateEnvDtsHint`, before its final empty line. */
  const HintComments: seq<string> := [
    "// env.d.ts",
    "// import type { PrivateEnv, PublicEnv }" + " from \"@/lib/env\"",
    "// declare global {",
    "//",
    "//   namespace NodeJS {",
    "//     interface ProcessEnv" + " extends PrivateEnv {}",
    "//   }",
    "//",
    "//   interface ImportMetaEnv" + " extends PublicEnv {}",
    "// }"
  ]

  /** An index of a hint comment line. */
  type CommentIndex = n: nat | n < 10

  /**
    A line the generators collect, named by its role: the import, an empty
    line, a block's opening or closing line, an inferred type, a hint
    comment, or the field line of a variable.
  */
  datatype Line =
    | Import(lib: Lib)
    | Blank
    | Open(isPublic: bool)
    | Close
    | Infer(inferPublic: bool)
    | Comment(n: CommentIndex)
    | Field(v: EnvVar)

  /** The text of a collected line. */
  function Render(out: Output, l: Line): string {
    match l
    case Import(lib) => ImportLine(lib)
    case Blank => ""
    case Open(isPublic) => OpenLine(out, isPublic)
    case Close => CloseLine(out)
    case Infer(isPublic) => InferLine(if out.SchemaOutput? then out.lib else Valibot, isPublic)
    case Comment(n) => HintComments[n]
    case Field(v) => FieldLine(out, v)
  }

  /** The texts of collected lines, in order. */
  function RenderAll(out: Output, ls: seq<Line>): (r: seq<string>)
    ensures |r| == |ls|
    ensures forall i :: 0 <= i < |ls| ==> r[i] == Render(out, ls[i])
  {
    seq(|ls|, i requires 0 <= i < |ls| => Render(out, ls[i]))
  }

  /** Rendering a concatenation renders each part. */
  lemma RenderAllAppend(out: Output, a: seq<Line>, b: seq<Line>)
    ensures RenderAll(out, a + b) == RenderAll(out, a) + RenderAll(out, b)
  {
  }

  /** Rendering a single line. */
  lemma RenderOne(out: Output, l: Line)
    ensures RenderAll(out, [l]) == [Render(out, l)]
  {
  }

  /** Pushing the rendering of more lines renders the longer sequence of lines. */
  lemma RenderPush(out: Output, lines: seq<string>, collected: seq<Line>, pushed: seq<string>, more: seq<Line>)
    requires lines == RenderAll(out, collected) && pushed == RenderAll(out, more)
    ensures lines + pushed == RenderAll(out, collected + more)
  {
    RenderAllAppend(out, collected, more);
  }

  /** The field lines of a block, one per variable, in order. */
  function Fields(vars: seq<EnvVar>): (ls: seq<Line>)
    ensures |ls| == |vars|
    ensures forall i :: 0 <= i < |vars| ==> ls[i] == Field(vars[i])
  {
    seq(|vars|, i requires 0 <= i < |vars| => Field(vars[i]))
  }

  /** One more variable adds its field line at the end. */
  lemma FieldsSnoc(vars: seq<EnvVar>, i: nat)
    requires i < |vars|
    ensures Fields(vars[..i + 1]) == Fields(vars[..i]) + [Field(vars[i])]
  {
  }

  /** The lines before the public block: the import and an empty line. */
  function Preamble(out: Output): seq<Line> {
    if out.SchemaOutput? then [Import(out.lib), Blank] else []
  }

  /** The lines after the private block: the inferred types of the schemas. */
  function Trailer(out: Output): seq<Line> {
    if out.SchemaOutput? then [Infer(true), Infer(false), Blank] else []
  }

  /** `generateEnvDtsHint`: the comment lines and an empty line. */
  function Hint(): (h: seq<Line>)
    ensures |h| == 11 && h[10] == Blank
    ensures forall i :: 0 <= i < 10 ==> h[i] == Comment(i)
  {
    seq(10, i requires 0 <= i < 10 => Comment(i)) + [Blank]
  }

  /** A block: its opening line, the field line of each variable, the closing line and an empty line. */
  function Block(isPublic: bool, vars: seq<EnvVar>): (b: seq<Line>)
    ensures |b| == |vars| + 3
  {
    [Open(isPublic)] + Fields(vars) + [Close, Blank]
  }

  /** The lines the generator for `out` collects. */
  function OutputLines(out: Output, publicVars: seq<EnvVar>, privateVars: seq<EnvVar>): seq<Line> {
    Preamble(out) + Block(true, publicVars) + Block(false, privateVars) + Trailer(out) + Hint()
  }

  /** `generateTypes` */
  function TypesText(vars: seq<EnvVar>, schema: Option<string>): string {
    var out := SelectOutput(schema);
    Join(RenderAll(out, OutputLines(out, ScopeVars(vars, "public"), ScopeVars(vars, "private"))), "\n")
  }

  /** The lines besides the field lines: 22 with a schema library, 17 in plain types. */
  function FixedLines(out: Output): (n: nat)
    ensures n == if out.PlainOutput? then 17 else 22
  {
    |Preamble(out)| + 6 + |Trailer(out)| + |Hint()|
  }

  /**
    The public block opens after the preamble and holds one field line per
    public variable in order, then its closing line and an empty line; the
    private block follows in the same form with one field line per private
    variable; the hint lines end the output.
  */
  lemma OutputLinesShape(out: Output, publicVars: seq<EnvVar>, privateVars: seq<EnvVar>)
    ensures var lines := OutputLines(out, publicVars, privateVars);
      var o := |Preamble(out)|;
      var q := o + |publicVars| + 3;
      |lines| == q + |privateVars| + 3 + |Trailer(out)| + |Hint()| &&
      lines[o] == Open(true) &&
      (forall i :: 0 <= i < |publicVars| ==> lines[o + 1 + i] == Field(publicVars[i])) &&
      lines[o + 1 + |publicVars|] == Close && lines[o + 2 + |publicVars|] == Blank &&
      lines[q] == Open(false) &&
      (forall j :: 0 <= j < |privateVars| ==> lines[q + 1 + j] == Field(privateVars[j])) &&
      lines[q + 1 + |privateVars|] == Close && lines[q + 2 + |privateVars|] == Blank &&
      forall i :: 0 <= i < |Hint()| ==> lines[|lines| - |Hint()| + i] == Hint()[i]
  {
    PublicBlockAt(out, publicVars, privateVars);
    PrivateBlockAt(out, publicVars, privateVars);
    HintAtEnd(out, publicVars, privateVars);
  }

  /** The public block sits right after the preamble. */
  lemma PublicBlockAt(out: Output, publicVars: seq<EnvVar>, privateVars: seq<EnvVar>)
    ensures var lines := OutputLines(out, publicVars, privateVars);
      var o := |Preamble(out)|;
      |lines| == o + |publicVars| + |privateVars| + 6 + |Trailer(out)| + |Hint()| &&
      lines[o] == Open(true) && lines[o + 1 + |publicVars|] == Close && lines[o + 2 + |publicVars|] == Blank &&
      forall i :: 0 <= i < |publicVars| ==> lines[o + 1 + i] == Field(publicVars[i])
  {
    var p, b, c, t, h := Preamble(out), Block(true, publicVars), Block(false, privateVars), Trailer(out), Hint();
    Regroup5(p, b, c, t, h);
    BlockIn(p, true, publicVars, c + t + h);
  }

  /** The private block sits right after the public one. */
  lemma PrivateBlockAt(out: Output, publicVars: seq<EnvVar>, privateVars: seq<EnvVar>)
    ensures var lines := OutputLines(out, publicVars, privateVars);
      var q := |Preamble(out)| + |publicVars| + 3;
      q + |privateVars| + 2 < |lines| &&
      lines[q] == Open(false) && lines[q + 1 + |privateVars|] == Close && lines[q + 2 + |privateVars|] == Blank &&
      forall j :: 0 <= j < |privateVars| ==> lines[q + 1 + j] == Field(privateVars[j])
  {
    var p, b, c, t, h := Preamble(out), Block(true, publicVars), Block(false, privateVars), Trailer(out), Hint();
    Regroup5(p, b, c, t, h);
    BlockIn(p + b, false, privateVars, t + h);
  }

  /** The hint lines end the output. */
  lemma HintAtEnd(out: Output, publicVars: seq<EnvVar>, privateVars: seq<EnvVar>)
    ensures var lines := OutputLines(out, publicVars, privateVars);
      |Hint()| <= |lines| &&
      forall i :: 0 <= i < |Hint()| ==> lines[|lines| - |Hint()| + i] == Hint()[i]
  {
    Suffix(Preamble(out) + Block(true, publicVars) + Block(false, privateVars) + Trailer(out), Hint());
  }

  /** The groupings of five concatenated pieces that the block lemmas take. */
  lemma Regroup5<T>(a: seq<T>, b: seq<T>, c: seq<T>, d: seq<T>, e: seq<T>)
    ensures a + b + c + d + e == a + b + (c + d + e)
    ensures a + b + c + d + e == (a + b) + c + (d + e)
  {
  }

  /** Where the lines of a block sit among other lines. */
  lemma BlockIn(pre: seq<Line>, isPublic: bool, vars: seq<EnvVar>, post: seq<Line>)
    ensures var s := pre + Block(isPublic, vars) + post;
      var o := |pre|;
      |s| == o + |vars| + 3 + |post| &&
      s[o] == Open(isPublic) && s[o + 1 + |vars|] == Close && s[o + 2 + |vars|] == Blank &&
      forall i :: 0 <= i < |vars| ==> s[o + 1 + i] == Field(vars[i])
  {
    var b := Block(isPublic, vars);
    var s := pre + b + post;
    BlockShape(isPublic, vars);
    forall i | 0 <= i < |vars| ensures s[|pre| + 1 + i] == Field(vars[i]) {
      assert s[|pre| + 1 + i] == b[1 + i];
    }
  }

  /** The last elements of a concatenation are those of its second part. */
  lemma Suffix<T>(a: seq<T>, b: seq<T>)
    ensures forall i :: 0 <= i < |b| ==> (a + b)[|a + b| - |b| + i] == b[i]
  {
  }

  /** Where the lines of a block sit. */
  lemma BlockShape(isPublic: bool, vars: seq<EnvVar>)
    ensures var b := Block(isPublic, vars);
      b[0] == Open(isPublic) && b[|vars| + 1] == Close && b[|vars| + 2] == Blank &&
      forall i :: 0 <= i < |vars| ==> b[1 + i] == Field(vars[i])
  {
  }

  /** The field lines are exactly those of the variables of the two blocks. */
  lemma OutputLinesFields(out: Output, publicVars: seq<EnvVar>, privateVars: seq<EnvVar>)
    ensures forall v :: Field(v) in OutputLines(out, publicVars, privateVars) <==> v in publicVars || v in privateVars
  {
  }

  /** Joining lines whose last one is empty ends the text with the separator. */
  lemma {:induction false} JoinTrailingEmpty(lines: seq<string>, sep: string)
    requires |lines| >= 2 && lines[|lines| - 1] == ""
    ensures Join(lines, sep) == Join(lines[..|lines| - 1], sep) + sep
  {
    if |lines| > 2 {
      JoinTrailingEmpty(lines[1..], sep);
      assert lines[1..][..|lines| - 2] == lines[..|lines| - 1][1..];
    }
  }

  /** Every generated text ends with a line break, since the hint's last line is empty. */
  lemma TypesTextEndsWithNewline(vars: seq<EnvVar>, schema: Option<string>)
    ensures var text := TypesText(vars, schema); |text| > 0 && text[|text| - 1] == '\n'
  {
    var out := SelectOutput(schema);
    var pub, priv := ScopeVars(vars, "public"), ScopeVars(vars, "private");
    var ls := OutputLines(out, pub, priv);
    var lines := RenderAll(out, ls);
    assert ls[|ls| - 1] == Blank by {
      OutputLinesShape(out, pub, priv);
    }
    JoinTrailingEmpty(lines, "\n");
  }

  /** A variable whose scope is neither public nor private leaves the text unchanged, wherever it stands. */
  lemma UnscopedIgnored(a: seq<EnvVar>, v: EnvVar, b: seq<EnvVar>, schema: Option<string>)
    requires v.scope != "public" && v.scope != "private"
    ensures TypesText(a + [v] + b, schema) == TypesText(a + b, schema)
  {
    ScopeVarsAppend(a + [v], b, "public");
    ScopeVarsAppend(a, [v], "public");
    ScopeVarsAppend(a, b, "public");
    ScopeVarsAppend(a + [v], b, "private");
    ScopeVarsAppend(a, [v], "private");
    ScopeVarsAppend(a, b, "private");
    assert ScopeVars([v], "public") == [] && ScopeVars([v], "private") == [] by {
      assert [v][..0] == [];
    }
  }

  /** The field line of a key without line breaks holds none. */
  lemma FieldLineOnOneLine(out: Output, v: EnvVar)
    requires '\n' !in v.key
    ensures '\n' !in FieldLine(out, v)
  {
    match out
    case SchemaOutput(lib) =>
      ValidatorOnOneLine(v.key, v.value, lib);
      assert '\n' !in "  " && '\n' !in ": " && '\n' !in ",";
    case PlainOutput =>
      assert '\n' !in "  " && '\n' !in ": string";
  }

  /** No validator holds a line break. */
  lemma ValidatorOnOneLine(key: string, value: string, lib: Lib)
    ensures '\n' !in InferValidator(key, value, lib)
  {
    match lib
    case Valibot =>
      assert '\n' !in "v.string()";
      assert '\n' !in "v.pipe(v.string(), v.url())";
    case Zod =>
      assert '\n' !in "z.string()";
      assert '\n' !in "z.string().url()";
  }

  /** No hint comment holds a line break. */
  lemma CommentOnOneLine(n: CommentIndex)
    ensures '\n' !in HintComments[n]
  {
    if n < 5 {
      EarlyCommentOnOneLine(n);
    } else {
      LateCommentOnOneLine(n);
    }
  }

  /** The first five hint comments hold no line break. */
  lemma EarlyCommentOnOneLine(n: CommentIndex)
    requires n < 5
    ensures '\n' !in HintComments[n]
  {
    if n == 0 { assert '\n' !in HintComments[0]; }
    else if n == 1 { assert '\n' !in HintComments[1]; }
    else if n == 2 { assert '\n' !in HintComments[2]; }
    else if n == 3 { assert '\n' !in HintComments[3]; }
    else { assert '\n' !in HintComments[4]; }
  }

  /** The last five hint comments hold no line break. */
  lemma LateCommentOnOneLine(n: CommentIndex)
    requires n >= 5
    ensures '\n' !in HintComments[n]
  {
    if n == 5 { assert '\n' !in HintComments[5]; }
    else if n == 6 { assert '\n' !in HintComments[6]; }
    else if n == 7 { assert '\n' !in HintComments[7]; }
    else if n == 8 { assert '\n' !in HintComments[8]; }
    else { assert '\n' !in HintComments[9]; }
  }

  /** No opening line holds a line break. */
  lemma OpenOnOneLine(out: Output, isPublic: bool)
    ensures '\n' !in OpenLine(out, isPublic)
  {
    var name := if isPublic then "PublicEnv" else "PrivateEnv";
    var schema := if isPublic then "publicEnvSchema" else "privateEnvSchema";
    assert '\n' !in name && '\n' !in schema;
    if out.SchemaOutput? {
      var tag := if out.lib == Valibot then "v" else "z";
      assert OpenLine(out, isPublic) == "export const " + schema + " = " + tag + ".object({";
    } else {
      assert OpenLine(out, isPublic) == "export type " + name + " = {";
    }
  }

  /** No inferred-type line holds a line break. */
  lemma InferOnOneLine(lib: Lib, isPublic: bool)
    ensures '\n' !in InferLine(lib, isPublic)
  {
    var name := if isPublic then "PublicEnv" else "PrivateEnv";
    var schema := if isPublic then "publicEnvSchema" else "privateEnvSchema";
    assert '\n' !in name && '\n' !in schema;
    if lib == Valibot {
      assert '\n' !in " = v.InferOutput<typeof ";
    } else {
      assert '\n' !in " = z.infer<typeof ";
    }
  }

  /** No fixed line holds a line break. */
  lemma FixedOnOneLine(out: Output, l: Line)
    requires !l.Field?
    ensures '\n' !in Render(out, l)
  {
    match l
    case Import(lib) =>
    case Blank =>
    case Open(isPublic) => OpenOnOneLine(out, isPublic);
    case Close =>
    case Infer(isPublic) => InferOnOneLine(if out.SchemaOutput? then out.lib else Valibot, isPublic);
    case Comment(n) => CommentOnOneLine(n);
  }

  /**
    When no key holds a line break, the generated text splits at line breaks
    back into exactly the collected lines, so its line count is the number of
    public and private variables plus a constant of the output kind.
  */
  lemma TypesTextLines(vars: seq<EnvVar>, schema: Option<string>)
    requires forall v :: v in vars ==> '\n' !in v.key
    ensures var out := SelectOutput(schema);
      var pub := ScopeVars(vars, "public");
      var priv := ScopeVars(vars, "private");
      Split(TypesText(vars, schema), '\n') == RenderAll(out, OutputLines(out, pub, priv)) &&
      |Split(TypesText(vars, schema), '\n')| == |pub| + |priv| + FixedLines(out)
  {
    var out := SelectOutput(schema);
    var pub := ScopeVars(vars, "public");
    var priv := ScopeVars(vars, "private");
    var ls := OutputLines(out, pub, priv);
    assert forall l :: l in ls && l.Field? ==> '\n' !in l.v.key by {
      OutputLinesFields(out, pub, priv);
      ScopeVarsSpec(vars, "public");
      ScopeVarsSpec(vars, "private");
    }
    AllOnOneLine(out, ls);
    SplitJoin(RenderAll(out, ls), '\n');
  }

  /** No rendered line holds a line break when no field key holds one. */
  lemma AllOnOneLine(out: Output, ls: seq<Line>)
    requires forall l :: l in ls && l.Field? ==> '\n' !in l.v.key
    ensures forall i :: 0 <= i < |ls| ==> '\n' !in RenderAll(out, ls)[i]
  {
    forall i | 0 <= i < |ls| ensures '\n' !in RenderAll(out, ls)[i] {
      LineOnOneLine(out, ls[i]);
    }
  }

  /** A line holds no line break unless it is the field line of a key that holds one. */
  lemma LineOnOneLine(out: Output, l: Line)
    requires l.Field? ==> '\n' !in l.v.key
    ensures '\n' !in Render(out, l)
  {
    if l.Field? {
      FieldLineOnOneLine(out, l.v);
    } else {
      FixedOnOneLine(out, l);
    }
  }

  /** The loop of a block: the field line of each variable, pushed in order. */
  method PushFields(out: Output, lines: seq<string>, vars: seq<EnvVar>) returns (result: seq<string>)
    ensures result == lines + RenderAll(out, Fields(vars))
  {
    result := lines;
    for i := 0 to |vars|
      invariant result == lines + RenderAll(out, Fields(vars[..i]))
    {
      FieldsSnoc(vars, i);
      RenderAllAppend(out, Fields(vars[..i]), [Field(vars[i])]);
      RenderOne(out, Field(vars[i]));
      result := result + [FieldLine(out, vars[i])];
    }
    assert vars[..|vars|] == vars;
  }

  /** A block: the opening line, the loop over the variables, the closing line and an empty line. */
  method PushBlock(out: Output, lines: seq<string>, isPublic: bool, vars: seq<EnvVar>) returns (result: seq<string>)
    ensures result == lines + RenderAll(out, Block(isPublic, vars))
  {
    var open := [Render(out, Open(isPublic))];
    var close := [Render(out, Close), Render(out, Blank)];
    result := lines + open;
    result := PushFields(out, result, vars);
    result := result + close;
    BlockRender(out, isPublic, vars);
    Regroup(lines, open, RenderAll(out, Fields(vars)), close);
  }

  /** A block renders as its opening line, its field lines, its closing line and an empty line. */
  lemma BlockRender(out: Output, isPublic: bool, vars: seq<EnvVar>)
    ensures RenderAll(out, Block(isPublic, vars)) ==
      [Render(out, Open(isPublic))] + RenderAll(out, Fields(vars)) + [Render(out, Close), Render(out, Blank)]
  {
    var f := Fields(vars);
    RenderAllAppend(out, [Open(isPublic)] + f, [Close, Blank]);
    RenderAllAppend(out, [Open(isPublic)], f);
    RenderOne(out, Open(isPublic));
    assert RenderAll(out, [Close, Blank]) == [Render(out, Close), Render(out, Blank)];
  }

  /** Appending three pieces one at a time appends them joined. */
  lemma Regroup<T>(s: seq<T>, a: seq<T>, b: seq<T>, c: seq<T>)
    ensures s + a + b + c == s + (a + b + c)
  {
  }

  /**
    The generators: the preamble, the public block, the private block, the
    trailer and the hint, joined by line breaks.
  */
  method GenerateOutput(out: Output, publicVars: seq<EnvVar>, privateVars: seq<EnvVar>) returns (text: string)
    ensures text == Join(RenderAll(out, OutputLines(out, publicVars, privateVars)), "\n")
  {
    var lines := RenderAll(out, Preamble(out));
    lines := PushBlock(out, lines, true, publicVars);
    lines := PushBlock(out, lines, false, privateVars);
    lines := lines + RenderAll(out, Trailer(out));
    lines := lines + RenderAll(out, Hint());
    ghost var p, b, c := Preamble(out), Block(true, publicVars), Block(false, privateVars);
    RenderAllAppend(out, p + b + c + Trailer(out), Hint());
    RenderAllAppend(out, p + b + c, Trailer(out));
    RenderAllAppend(out, p + b, c);
    RenderAllAppend(out, p, b);
    text := Join(lines, "\n");
  }

  /** `generateTypes`: split the variables by scope and run the generator the schema names. */
  method GenerateTypes(vars: seq<EnvVar>, schema: Option<string>) returns (text: string)
    ensures text == TypesText(vars, schema)
  {
    var publicVars := ScopeVars(vars, "public");
    var privateVars := ScopeVars(vars, "private");
    var name := if schema.Some? then schema.value else "valibot";
    if name == "none" {
      text := GenerateOutput(PlainOutput, publicVars, privateVars);
      return;
    }
    if name == "zod" {
      text := GenerateOutput(SchemaOutput(Zod), publicVars, privateVars);
      return;
    }
    text := GenerateOutput(SchemaOutput(Valibot), publicVars, privateVars);
  }
}
