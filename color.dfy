/**
  ANSI colouring and the table printer of src/utils/color.ts.

  `Bun.color(name, 'ansi')` produces terminal-dependent escape strings; they
  are opaque here and come in as a `Palette`. The dim code and the reset code
  are the source's own constants. Console output is modelled as the sequence
  of lines `console.log` would receive.
*/
module Color {
  import opened Collections
  import opened Text

  const Esc: char := '\U{1B}'
  /** `RESET`, `ESC[0m` */
  const Reset: string := [Esc] + "[0m"
  /** `dim`, `ESC[2m` */
  const DimCode: string := [Esc] + "[2m"
  /** The box-drawing character `─` of the separator line. */
  const Rule: char := '\U{2500}'

  /** The escape strings `Bun.color` yields for green, red, orange and cyan. */
  datatype Palette = Palette(green: string, red: string, yellow: string, cyan: string)

  /** `${code}${s}${RESET}`: the shape of `c.green`, `c.red`, `c.yellow`, `c.cyan`, `c.dim`. */
  function Paint(code: string, s: string): string {
    code + s + Reset
  }

  /** `c.dim` */
  function Dim(s: string): string {
    Paint(DimCode, s)
  }

  /** `c.success`: a green check mark, then the message. */
  function Success(p: Palette, s: string): string {
    p.green + "\U{2713}" + Reset + " " + s
  }

  /** `c.warn`: an orange warning sign, then the message. */
  function Warn(p: Palette, s: string): string {
    p.yellow + "\U{26A0}" + Reset + " " + s
  }

  /** The characters `[0-9;]` allowed between `ESC[` and `m`. */
  predicate IsParamChar(c: char) {
    '0' <= c <= '9' || c == ';'
  }

  /** The length of the run of parameter characters that starts `s`. */
  function ParamRun(s: string): (n: nat)
    ensures n <= |s|
    ensures forall i :: 0 <= i < n ==> IsParamChar(s[i])
    ensures n < |s| ==> !IsParamChar(s[n])
  {
    if |s| > 0 && IsParamChar(s[0]) then 1 + ParamRun(s[1..]) else 0
  }

  /**
    The length of the match of `/\x1b\[[0-9;]*m/` at the start of `s`, or 0
    when the pattern does not match there. The parameter run is taken
    whole: a shorter run would be followed by a parameter character, not `m`.
  */
  function EscapeLength(s: string): (n: nat)
    ensures n == 0 || 3 <= n <= |s|
  {
    if |s| >= 2 && s[0] == Esc && s[1] == '[' then
      var k := ParamRun(s[2..]);
      if 2 + k < |s| && s[2 + k] == 'm' then 3 + k else 0
    else 0
  }

  /**
    `s.replace(ANSI_REGEX, '')`: a global replace scans from the left, removes
    each match and resumes after it.
  */
  function Strip(s: string): string
    decreases |s|
  {
    if |s| == 0 then ""
    else
      var n := EscapeLength(s);
      if n > 0 then Strip(s[n..]) else [s[0]] + Strip(s[1..])
  }

  /** `visibleWidth` */
  function VisibleWidth(s: string): nat {
    |Strip(s)|
  }

  /** Stripping never lengthens a string, and a string without ESC is kept as it is. */
  lemma {:induction false} StripShape(s: string)
    ensures |Strip(s)| <= |s|
    ensures Esc !in s ==> Strip(s) == s
    decreases |s|
  {
    if |s| > 0 {
      var n := EscapeLength(s);
      if n > 0 {
        StripShape(s[n..]);
      } else {
        StripShape(s[1..]);
        assert Esc !in s ==> Esc !in s[1..];
        assert s == [s[0]] + s[1..];
      }
    }
  }

  /** `visibleWidth(s)` is at most the length of `s`, and equal to it when `s` holds no ESC. */
  lemma VisibleWidthBound(s: string)
    ensures VisibleWidth(s) <= |s|
    ensures Esc !in s ==> VisibleWidth(s) == |s|
  {
    StripShape(s);
  }

  /** A string whose first character cannot continue an escape sequence begun before it. */
  predicate Breaks(t: string) {
    |t| == 0 || !(t[0] == '[' || t[0] == 'm' || IsParamChar(t[0]))
  }

  /** A parameter run stops at the first byte that breaks it. */
  lemma {:induction false} ParamRunAppend(s: string, t: string)
    requires Breaks(t)
    ensures ParamRun(s + t) == ParamRun(s)
    decreases |s|
  {
    if |s| > 0 {
      assert (s + t)[1..] == s[1..] + t;
      ParamRunAppend(s[1..], t);
    }
  }

  /** Appending `t` cannot create or extend a match that starts inside `s`. */
  lemma EscapeLengthAppend(s: string, t: string)
    requires Breaks(t) && |s| > 0
    ensures EscapeLength(s + t) == EscapeLength(s)
  {
    var u := s + t;
    if |s| >= 2 && s[0] == Esc && s[1] == '[' {
      assert u[2..] == s[2..] + t;
      ParamRunAppend(s[2..], t);
      var k := ParamRun(s[2..]);
      if 2 + k == |s| && |t| > 0 {
        assert u[2 + k] == t[0];
      }
    }
  }

  /** Stripping distributes over a concatenation whose right part `Breaks`. */
  lemma {:induction false} StripAppend(s: string, t: string)
    requires Breaks(t)
    ensures Strip(s + t) == Strip(s) + Strip(t)
    decreases |s|
  {
    if |s| == 0 {
      assert s + t == t;
    } else {
      var n := EscapeLength(s);
      EscapeLengthAppend(s, t);
      if n > 0 {
        assert (s + t)[n..] == s[n..] + t;
        StripAppend(s[n..], t);
      } else {
        assert (s + t)[1..] == s[1..] + t;
        StripAppend(s[1..], t);
      }
    }
  }

  /** `visibleWidth(c.dim(s)) = visibleWidth(s)`: both codes it adds are stripped. */
  lemma DimWidth(s: string)
    ensures VisibleWidth(Dim(s)) == VisibleWidth(s)
  {
    var d := Dim(s);
    assert d == DimCode + (s + Reset);
    assert EscapeLength(d) == 4 by {
      assert d[2..][0] == '2' && d[2..][1] == 'm';
    }
    assert d[4..] == s + Reset;
    StripAppend(s, Reset);
    assert EscapeLength(Reset) == 4 by {
      assert Reset[2..][0] == '0' && Reset[2..][1] == 'm';
    }
    assert Reset[4..] == "";
  }

  function Max(a: int, b: int): int {
    if a >= b then a else b
  }

  function Min(a: int, b: int): int {
    if a <= b then a else b
  }

  /** `padEnd`: spaces are added after `str` until it is `width` wide. */
  function PadEnd(str: string, width: int): string {
    var visible := VisibleWidth(str);
    if visible >= width then str else str + Repeat(' ', width - visible)
  }

  /**
    `padEnd` never truncates: `str` stays a prefix, only spaces follow it, it
    is returned unchanged when already wide enough, and otherwise the result
    is exactly `width` wide.
  */
  lemma PadEndSpec(str: string, width: int)
    ensures StartsWith(PadEnd(str, width), str)
    ensures forall i :: |str| <= i < |PadEnd(str, width)| ==> PadEnd(str, width)[i] == ' '
    ensures VisibleWidth(str) >= width ==> PadEnd(str, width) == str
    ensures VisibleWidth(PadEnd(str, width)) == Max(VisibleWidth(str), width)
  {
    var visible := VisibleWidth(str);
    if visible < width {
      var pad := Repeat(' ', width - visible);
      StripAppend(str, pad);
      StripShape(pad);
      assert (str + pad)[..|str|] == str;
    }
  }

  /**
    `TableColumn`; `title` is the source's `label` (a reserved word in Dafny),
    and a `width` of 0 counts as unset, as in the source's truthiness test.
  */
  datatype Column = Column(key: string, title: string, width: Option<nat>)

  /** `TableRow` */
  type Row = map<string, string>

  /** `row[col.key] ?? ''` */
  function Cell(row: Row, key: string): string {
    if key in row then row[key] else ""
  }

  /** The `reduce` over the rows: the widest cell of a column, 0 when there is no row. */
  function MaxCellWidth(rows: seq<Row>, key: string): (w: nat)
    ensures forall i :: 0 <= i < |rows| ==> VisibleWidth(Cell(rows[i], key)) <= w
    ensures w == 0 || exists i :: 0 <= i < |rows| && w == VisibleWidth(Cell(rows[i], key))
  {
    if |rows| == 0 then 0
    else
      var m := MaxCellWidth(rows[..|rows| - 1], key);
      var here := VisibleWidth(Cell(rows[|rows| - 1], key));
      assert forall i :: 0 <= i < |rows| - 1 ==> rows[..|rows| - 1][i] == rows[i];
      if m >= here then m else here
  }

  /** `naturalWidth`: the least width that holds the header and every cell. */
  function NaturalWidth(col: Column, rows: seq<Row>): (w: nat)
    ensures VisibleWidth(col.title) <= w
    ensures forall i :: 0 <= i < |rows| ==> VisibleWidth(Cell(rows[i], col.key)) <= w
    ensures w == VisibleWidth(col.title) || exists i :: 0 <= i < |rows| && w == VisibleWidth(Cell(rows[i], col.key))
  {
    Max(VisibleWidth(col.title), MaxCellWidth(rows, col.key))
  }

  /** Whether the column carries a cap: `col.width` set and non-zero. */
  predicate Capped(col: Column) {
    col.width.Some? && col.width.value != 0
  }

  /** One entry of `colWidths`: the natural width, lowered to the cap when there is one. */
  function ColumnWidth(col: Column, rows: seq<Row>): (w: nat)
    ensures w <= NaturalWidth(col, rows)
    ensures !Capped(col) ==> w == NaturalWidth(col, rows)
    ensures Capped(col) ==> w <= col.width.value
    ensures Capped(col) ==> w == NaturalWidth(col, rows) || w == col.width.value
  {
    if Capped(col) then Min(NaturalWidth(col, rows), col.width.value) else NaturalWidth(col, rows)
  }

  /** `colWidths` */
  function ColumnWidths(cols: seq<Column>, rows: seq<Row>): (ws: seq<nat>)
    ensures |ws| == |cols|
    ensures forall i :: 0 <= i < |cols| ==> ws[i] == ColumnWidth(cols[i], rows)
  {
    seq(|cols|, i requires 0 <= i < |cols| => ColumnWidth(cols[i], rows))
  }

  /** The header line: each label dimmed and padded, joined by two spaces. */
  function Header(cols: seq<Column>, ws: seq<nat>): string
    requires |ws| == |cols|
  {
    Join(seq(|cols|, i requires 0 <= i < |cols| => Dim(PadEnd(cols[i].title, ws[i]))), "  ")
  }

  /** The separator segments: `─` repeated to each column's width. */
  function Segments(ws: seq<nat>): (segs: seq<string>)
    ensures |segs| == |ws|
    ensures forall i :: 0 <= i < |ws| ==> segs[i] == Repeat(Rule, ws[i])
  {
    seq(|ws|, i requires 0 <= i < |ws| => Repeat(Rule, ws[i]))
  }

  /** The separator line before dimming: the segments joined by `──`. */
  function Separator(ws: seq<nat>): string {
    Join(Segments(ws), [Rule, Rule])
  }

  /** The padded cells of one row, one per column in column order. */
  function PaddedCells(cols: seq<Column>, ws: seq<nat>, row: Row): (cells: seq<string>)
    requires |ws| == |cols|
    ensures |cells| == |cols|
    ensures forall i :: 0 <= i < |cols| ==> cells[i] == PadEnd(Cell(row, cols[i].key), ws[i])
  {
    seq(|cols|, i requires 0 <= i < |cols| => PadEnd(Cell(row, cols[i].key), ws[i]))
  }

  /** One data line: the padded cells joined by two spaces. */
  function RowLine(cols: seq<Column>, ws: seq<nat>, row: Row): string
    requires |ws| == |cols|
  {
    Join(PaddedCells(cols, ws, row), "  ")
  }

  /** What `printTable` logs: the header, the dimmed separator, then one line per row. */
  function Table(cols: seq<Column>, rows: seq<Row>): seq<string> {
    var ws := ColumnWidths(cols, rows);
    [Header(cols, ws), Dim(Separator(ws))] + seq(|rows|, i requires 0 <= i < |rows| => RowLine(cols, ws, rows[i]))
  }

  /** The table has a line per row after the header and the separator. */
  lemma TableLine(cols: seq<Column>, rows: seq<Row>, i: nat)
    requires i < |rows|
    ensures |Table(cols, rows)| == |rows| + 2
    ensures Table(cols, rows)[2 + i] == RowLine(cols, ColumnWidths(cols, rows), rows[i])
  {
  }

  /** `printTable`, with the lines it logs as its result. */
  method PrintTable(cols: seq<Column>, rows: seq<Row>) returns (lines: seq<string>)
    ensures lines == Table(cols, rows)
    ensures |lines| == |rows| + 2
  {
    var ws := ColumnWidths(cols, rows);
    var body: seq<string> := [];
    var i := 0;
    while i < |rows|
      invariant 0 <= i <= |rows|
      invariant |body| == i
      invariant forall k :: 0 <= k < i ==> body[k] == RowLine(cols, ws, rows[k])
    {
      body := body + [RowLine(cols, ws, rows[i])];
      i := i + 1;
    }
    assert body == seq(|rows|, k requires 0 <= k < |rows| => RowLine(cols, ws, rows[k]));
    lines := [Header(cols, ws), Dim(Separator(ws))] + body;
  }

  /** The sum of some widths. */
  function Sum(ws: seq<nat>): nat {
    if |ws| == 0 then 0 else ws[0] + Sum(ws[1..])
  }

  /** The stripped form of each string. */
  function StripAll(parts: seq<string>): (r: seq<string>)
    ensures |r| == |parts|
    ensures forall i :: 0 <= i < |parts| ==> r[i] == Strip(parts[i])
  {
    if |parts| == 0 then [] else [Strip(parts[0])] + StripAll(parts[1..])
  }

  /** The total length of strings is the sum of their lengths. */
  lemma {:induction false} LengthsAdd(parts: seq<string>, ws: seq<nat>)
    requires |parts| == |ws|
    requires forall i :: 0 <= i < |ws| ==> |parts[i]| == ws[i]
    ensures TotalLength(parts) == Sum(ws)
  {
    if |ws| > 0 {
      LengthsAdd(parts[1..], ws[1..]);
    }
  }

  /** Stripping a two-space join strips each part and keeps the separators. */
  lemma {:induction false} StripJoin(parts: seq<string>)
    ensures Strip(Join(parts, "  ")) == Join(StripAll(parts), "  ")
  {
    if |parts| == 1 {
    } else if |parts| > 1 {
      var rest := Join(parts[1..], "  ");
      assert Join(parts, "  ") == parts[0] + ("  " + rest);
      StripAppend(parts[0], "  " + rest);
      assert ("  " + rest)[1..] == " " + rest;
      assert (" " + rest)[1..] == rest;
      StripJoin(parts[1..]);
      assert StripAll(parts)[1..] == StripAll(parts[1..]);
    }
  }

  /** The visible width of a two-space join is the sum of the parts' widths plus the gaps. */
  lemma JoinWidth(parts: seq<string>, ws: seq<nat>)
    requires |parts| == |ws| >= 1
    requires forall i :: 0 <= i < |ws| ==> VisibleWidth(parts[i]) == ws[i]
    ensures VisibleWidth(Join(parts, "  ")) == Sum(ws) + 2 * (|ws| - 1)
  {
    StripJoin(parts);
    JoinLength(StripAll(parts), "  ");
    LengthsAdd(StripAll(parts), ws);
  }

  /** The separator consists of `─` only and is as wide as the columns plus their gaps. */
  lemma SeparatorShape(ws: seq<nat>)
    requires |ws| >= 1
    ensures |Separator(ws)| == Sum(ws) + 2 * (|ws| - 1)
    ensures Esc !in Separator(ws)
    ensures VisibleWidth(Dim(Separator(ws))) == |Separator(ws)|
  {
    var segs := Segments(ws);
    JoinLength(segs, [Rule, Rule]);
    LengthsAdd(segs, ws);
    OnlyRule(segs);
    DimWidth(Separator(ws));
    VisibleWidthBound(Separator(ws));
  }

  /** Joining rule segments with rule characters gives only rule characters. */
  lemma {:induction false} OnlyRule(segs: seq<string>)
    requires forall i :: 0 <= i < |segs| ==> forall j :: 0 <= j < |segs[i]| ==> segs[i][j] == Rule
    ensures forall j :: 0 <= j < |Join(segs, [Rule, Rule])| ==> Join(segs, [Rule, Rule])[j] == Rule
  {
    if |segs| > 1 {
      OnlyRule(segs[1..]);
    }
  }

  /**
    When no cap cuts a column below its natural width, the table lines up:
    the header, every data line and the separator all have the same visible
    width, the columns' widths plus two for each gap.
  */
  lemma TableAligned(cols: seq<Column>, rows: seq<Row>)
    requires |cols| >= 1
    requires forall i :: 0 <= i < |cols| ==> ColumnWidth(cols[i], rows) == NaturalWidth(cols[i], rows)
    ensures var t := Table(cols, rows);
      && VisibleWidth(t[0]) == Sum(ColumnWidths(cols, rows)) + 2 * (|cols| - 1)
      && VisibleWidth(t[1]) == Sum(ColumnWidths(cols, rows)) + 2 * (|cols| - 1)
      && forall r :: 2 <= r < |t| ==> VisibleWidth(t[r]) == Sum(ColumnWidths(cols, rows)) + 2 * (|cols| - 1)
  {
    var ws := ColumnWidths(cols, rows);
    var t := Table(cols, rows);
    var total := Sum(ws) + 2 * (|cols| - 1);
    assert forall i :: 0 <= i < |cols| ==> VisibleWidth(cols[i].title) <= ws[i] && ws[i] == NaturalWidth(cols[i], rows);
    assert VisibleWidth(t[0]) == total by {
      assert t[0] == Header(cols, ws);
      HeaderWidth(cols, ws);
    }
    assert VisibleWidth(t[1]) == total by {
      assert t[1] == Dim(Separator(ws));
      SeparatorShape(ws);
    }
    forall r | 2 <= r < |t| ensures VisibleWidth(t[r]) == total {
      TableRowWidth(cols, rows, r - 2);
    }
  }

  /** Without a cap below the natural width, a data line of the table is as wide as the columns plus the gaps. */
  lemma TableRowWidth(cols: seq<Column>, rows: seq<Row>, r: nat)
    requires |cols| >= 1 && r < |rows|
    requires forall i :: 0 <= i < |cols| ==> ColumnWidth(cols[i], rows) == NaturalWidth(cols[i], rows)
    ensures VisibleWidth(Table(cols, rows)[2 + r]) == Sum(ColumnWidths(cols, rows)) + 2 * (|cols| - 1)
  {
    var ws := ColumnWidths(cols, rows);
    TableLine(cols, rows, r);
    forall i | 0 <= i < |cols| ensures VisibleWidth(Cell(rows[r], cols[i].key)) <= ws[i] {
      assert VisibleWidth(Cell(rows[r], cols[i].key)) <= NaturalWidth(cols[i], rows);
    }
    RowLineWidth(cols, ws, rows[r]);
  }

  /** The header is as wide as the columns plus the gaps when no label is wider than its column. */
  lemma HeaderWidth(cols: seq<Column>, ws: seq<nat>)
    requires |ws| == |cols| >= 1
    requires forall i :: 0 <= i < |cols| ==> VisibleWidth(cols[i].title) <= ws[i]
    ensures VisibleWidth(Header(cols, ws)) == Sum(ws) + 2 * (|cols| - 1)
  {
    var heads := seq(|cols|, i requires 0 <= i < |cols| => Dim(PadEnd(cols[i].title, ws[i])));
    forall i | 0 <= i < |cols| ensures VisibleWidth(heads[i]) == ws[i] {
      DimWidth(PadEnd(cols[i].title, ws[i]));
      PadEndSpec(cols[i].title, ws[i]);
    }
    JoinWidth(heads, ws);
  }

  /** A data line is as wide as the columns plus the gaps when no cell is wider than its column. */
  lemma RowLineWidth(cols: seq<Column>, ws: seq<nat>, row: Row)
    requires |ws| == |cols| >= 1
    requires forall i :: 0 <= i < |cols| ==> VisibleWidth(Cell(row, cols[i].key)) <= ws[i]
    ensures VisibleWidth(RowLine(cols, ws, row)) == Sum(ws) + 2 * (|cols| - 1)
  {
    var cells := PaddedCells(cols, ws, row);
    forall i | 0 <= i < |cols| ensures VisibleWidth(cells[i]) == ws[i] {
      PadEndSpec(Cell(row, cols[i].key), ws[i]);
    }
    JoinWidth(cells, ws);
  }
}
