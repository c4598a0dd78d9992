// The pause-baseline table: a markdown writer and the parser that reads it back.
//
// A file is a preamble, a header, a rule, and a line of seven cells per row: the two
// parts of the id and five unsigned numbers.  An id is split at its last slash if only
// digits follow.  The parser takes any line that starts with a bar and has the shape of
// a row, so whether a written file is read back as it was depends on the ids alone: on
// a slash at the end, on bars and newlines inside, on spaces around the first cell, and
// on a first cell that looks like a header.
module PauseBaseline {
  import opened Options
  import opened Strings

  datatype Row = Row(id: string, p50: U64, p95: U64, p99: U64, max: U64, samples: U64)

  // ------------------------------------------------------------------- identifiers

  function LastSlash(s: string): (i: int)
    ensures -1 <= i < |s|
  {
    if s == "" then -1 else if s[|s| - 1] == '/' then |s| - 1 else LastSlash(s[..|s| - 1])
  }

  lemma {:induction false} LastSlashIsLast(s: string)
    ensures var i := LastSlash(s); (i >= 0 ==> s[i] == '/') && forall j :: i < j < |s| ==> s[j] != '/'
  {
    if s != "" && s[|s| - 1] != '/' { LastSlashIsLast(s[..|s| - 1]); }
  }

  datatype Cells = Cells(bench: string, params: string)

  function SplitId(id: string): Cells {
    var i := LastSlash(id);
    if i >= 0 && AllDigits(id[i + 1..]) then Cells(id[..i], id[i + 1..]) else Cells(id, "-")
  }

  function CombineId(bench: string, params: string): string {
    if params == "" || params == "-" then bench else bench + "/" + params
  }

  lemma {:induction false} LastSlashAt(a: string, b: string)
    requires '/' !in b
    ensures LastSlash(a + "/" + b) == |a|
    decreases |b|
  {
    var s := a + "/" + b;
    if b == "" {
      assert s[|s| - 1] == '/';
    } else {
      var b' := b[..|b| - 1];
      assert s[|s| - 1] == b[|b| - 1] && s[..|s| - 1] == a + "/" + b';
      LastSlashAt(a, b');
    }
  }

  /** The last segment becomes the parameters cell exactly when it is made of digits only. */
  lemma SplitAtLastSlash(a: string, b: string)
    requires '/' !in b
    ensures SplitId(a + "/" + b) ==
            if forall i :: 0 <= i < |b| ==> '0' <= b[i] <= '9' then Cells(a, b) else Cells(a + "/" + b, "-")
    ensures SplitId(b) == Cells(b, "-")
  {
    var s := a + "/" + b;
    LastSlashAt(a, b);
    assert s[..|a|] == a && s[|a| + 1..] == b;
    LastSlashIsLast(b);
    assert LastSlash(b) == -1;
  }

  /** Splitting an id and joining the cells again gives the id back, exactly when it does not end in a slash. */
  lemma CombineInvertsSplit(id: string)
    ensures CombineId(SplitId(id).bench, SplitId(id).params) == id <==> (id == "" || id[|id| - 1] != '/')
  {
    var i := LastSlash(id);
    LastSlashIsLast(id);
    if i >= 0 && AllDigits(id[i + 1..]) && i + 1 < |id| {
      assert id[i + 1..][0] != '-';
      assert id == id[..i] + "/" + id[i + 1..];
    }
  }

  // ------------------------------------------------------------------- table rows

  /** Padded cells with bars between them. */
  function Joined(cells: seq<string>): string
    requires cells != []
  {
    if |cells| == 1 then " " + cells[0] + " " else (" " + cells[0] + " ") + "|" + Joined(cells[1..])
  }

  function TableLine(cells: seq<string>): string
    requires cells != []
  {
    "|" + Joined(cells) + "|"
  }

  function TrimAll(cells: seq<string>): (r: seq<string>)
    ensures |r| == |cells|
  {
    if cells == [] then [] else [Trim(cells[0])] + TrimAll(cells[1..])
  }

  /** What the parser makes of a line that starts with a bar. */
  function CellsOf(line: string): (r: seq<string>)
    ensures |r| >= 1
  {
    TrimAll(SplitOn('|', DropWhileEnd(IsBar, DropWhile(IsBar, line))))
  }

  lemma {:induction false} JoinedSplits(cells: seq<string>)
    requires cells != [] && forall cell :: cell in cells ==> '|' !in cell
    ensures TrimAll(SplitOn('|', Joined(cells))) == TrimAll(cells)
    ensures Joined(cells)[0] == ' ' && Joined(cells)[|Joined(cells)| - 1] == ' '
  {
    var head := " " + cells[0] + " ";
    TrimPadded(cells[0]);
    if |cells| == 1 {
      SplitNone('|', head);
    } else {
      JoinedSplits(cells[1..]);
      SplitAt('|', head, Joined(cells[1..]));
      assert ([head] + SplitOn('|', Joined(cells[1..])))[1..] == SplitOn('|', Joined(cells[1..]));
    }
  }

  lemma BarsComeOff(body: string)
    requires body != "" && body[0] != '|' && body[|body| - 1] != '|'
    ensures DropWhileEnd(IsBar, DropWhile(IsBar, "|" + body + "|")) == body
  {
    assert ("|" + body + "|")[1..] == body + "|";
    assert DropWhile(IsBar, body + "|") == body + "|";
    assert (body + "|")[..|body|] == body;
    assert DropWhileEnd(IsBar, body) == body;
  }

  lemma BarsStopTrimming(body: string)
    ensures Trim("|" + body + "|") == "|" + body + "|"
  {
    TrimFixed("|" + body + "|");
  }

  /** The cells of a written line, as read back. */
  lemma LineReadsBack(cells: seq<string>)
    requires cells != [] && forall cell :: cell in cells ==> '|' !in cell
    ensures Trim(TableLine(cells)) == TableLine(cells)
    ensures CellsOf(TableLine(cells)) == TrimAll(cells)
  {
    JoinedSplits(cells);
    BarsComeOff(Joined(cells));
    BarsStopTrimming(Joined(cells));
  }

  // ------------------------------------------------------------------ the two programs

  function Lower(c: char): char { if 'A' <= c <= 'Z' then c + ('a' - 'A') else c }

  predicate EqualsIgnoringCase(a: string, b: string) {
    |a| == |b| && forall i :: 0 <= i < |a| ==> Lower(a[i]) == Lower(b[i])
  }

  /** A first cell that marks the header or the separator line. */
  predicate HeaderCell(c: string) { EqualsIgnoringCase(c, "bench") || "---" <= c }

  function RowOfCells(cells: seq<string>): Option<Row>
    requires cells != []
  {
    if HeaderCell(cells[0]) || |cells| != 7 then None
    else
      match (ParseU64(cells[2]), ParseU64(cells[3]), ParseU64(cells[4]), ParseU64(cells[5]), ParseU64(cells[6]))
      case (Some(p50), Some(p95), Some(p99), Some(max), Some(samples)) =>
        Some(Row(CombineId(cells[0], cells[1]), p50, p95, p99, max, samples))
      case _ => None
  }

  function ParseLine(line: string): Option<Row> {
    var trimmed := Trim(line);
    if trimmed == "" || trimmed[0] != '|' then None else RowOfCells(CellsOf(trimmed))
  }

  function ParsedRows(lines: seq<string>): seq<Row> { FilterMap(ParseLine, lines) }

  method Parse(text: string) returns (out: seq<Row>)
    ensures out == ParsedRows(Lines(text))
  {
    var lines, parse := Lines(text), ParseLine;
    out := [];
    for i := 0 to |lines|
      invariant out == FilterMap(parse, lines[..i])
    {
      FilterMapSnoc(parse, lines, i);
      var row := parse(lines[i]);
      if row.None? {
        continue;
      }
      out := out + [row.value];
    }
    assert lines[..|lines|] == lines;
  }

  const HEADER: seq<string> := ["bench", "parameters", "p50 (ns)", "p95 (ns)", "p99 (ns)", "max (ns)", "samples"]

  const DASHES := "---"

  const SEPARATOR := "|" + (DASHES + "|" + "---|---|---|---|---|---") + "|"

  function RowCells(r: Row): seq<string> {
    var id := SplitId(r.id);
    [id.bench, id.params, Decimal(r.p50), Decimal(r.p95), Decimal(r.p99), Decimal(r.max), Decimal(r.samples)]
  }

  function RowLine(r: Row): string { TableLine(RowCells(r)) }

  // `prose` is the fixed text above the table.
  function Preamble(prose: seq<string>): seq<string> { prose + [TableLine(HEADER), SEPARATOR] }

  function Text(lines: seq<string>): string {
    if lines == [] then "" else lines[0] + "\n" + Text(lines[1..])
  }

  function Render<A>(f: A -> string, xs: seq<A>): seq<string> {
    if xs == [] then [] else [f(xs[0])] + Render(f, xs[1..])
  }

  lemma {:induction false} TextAppend(lines: seq<string>, more: seq<string>)
    ensures Text(lines + more) == Text(lines) + Text(more)
  {
    if lines == [] {
      assert lines + more == more;
    } else {
      assert (lines + more)[1..] == lines[1..] + more;
      TextAppend(lines[1..], more);
      assert Text(lines + more) == (lines[0] + "\n") + (Text(lines[1..]) + Text(more));
    }
  }

  lemma {:induction false} RenderSnoc<A>(f: A -> string, xs: seq<A>, i: nat)
    requires i < |xs|
    ensures Text(Render(f, xs[..i + 1])) == Text(Render(f, xs[..i])) + f(xs[i]) + "\n"
    decreases i
  {
    if i == 0 {
      assert xs[..1][1..] == [] && xs[..0] == [];
    } else {
      RenderSnoc(f, xs[1..], i - 1);
      assert xs[..i + 1][1..] == xs[1..][..i] && xs[..i][1..] == xs[1..][..i - 1];
      assert f(xs[0]) + "\n" + (Text(Render(f, xs[1..][..i - 1])) + f(xs[i]) + "\n")
          == f(xs[0]) + "\n" + Text(Render(f, xs[1..][..i - 1])) + f(xs[i]) + "\n";
    }
  }

  /** The text of a baseline file. */
  function FileText(prose: seq<string>, rows: seq<Row>): string { Text(Preamble(prose)) + Text(Render(RowLine, rows)) }

  method WriteTable<A>(head: string, line: A -> string, rows: seq<A>) returns (f: string)
    ensures f == head + Text(Render(line, rows))
  {
    f := head;
    for i := 0 to |rows|
      invariant f == head + Text(Render(line, rows[..i]))
    {
      RenderSnoc(line, rows, i);
      f := f + line(rows[i]) + "\n";
    }
    assert rows[..|rows|] == rows;
  }

  method Write(prose: seq<string>, rows: seq<Row>) returns (f: string)
    ensures f == FileText(prose, rows)
  {
    f := WriteTable(Text(Preamble(prose)), RowLine, rows);
  }

  // --------------------------------------------------------------------- reading back

  predicate PlainLine(line: string) { '\n' !in line && (line != "" ==> line[|line| - 1] != '\r') }

  lemma {:induction false} TextSplits(lines: seq<string>)
    requires forall line :: line in lines ==> '\n' !in line
    ensures SplitOn('\n', Text(lines)) == lines + [""]
  {
    if lines != [] {
      TextSplits(lines[1..]);
      SplitAt('\n', lines[0], Text(lines[1..]));
      assert lines[0] + "\n" + Text(lines[1..]) == lines[0] + ['\n'] + Text(lines[1..]);
    }
  }

  lemma {:induction false} NoReturns(lines: seq<string>)
    requires forall line :: line in lines ==> PlainLine(line)
    ensures WithoutReturns(lines) == lines
  {
    if lines != [] {
      assert PlainLine(lines[0]);
      NoReturns(lines[1..]);
    }
  }

  lemma LinesOfText(lines: seq<string>)
    requires forall line :: line in lines ==> PlainLine(line)
    ensures Lines(Text(lines)) == lines
  {
    TextSplits(lines);
    NoReturns(lines);
    assert (lines + [""])[..|lines|] == lines;
  }

  /** What reading a written row back gives. */
  function Outcome(r: Row): Option<Row> {
    var id := SplitId(r.id);
    var bench := Trim(id.bench);
    if HeaderCell(bench) then None else Some(r.(id := CombineId(bench, id.params)))
  }

  predicate Tabular(id: string) { '|' !in id && '\n' !in id }

  /** The ids the table can carry. */
  predicate WellFormed(id: string) {
    && Tabular(id)
    && Trimmed(SplitId(id).bench) && !HeaderCell(SplitId(id).bench)
    && (id == "" || id[|id| - 1] != '/')
  }

  /** The cells that are taken for the header, whatever the case of letters, or for the rule. */
  lemma HeaderCellIff(c: string)
    ensures HeaderCell(c) <==>
            || "---" <= c
            || (|c| == 5 && c[0] in {'b', 'B'} && c[1] in {'e', 'E'} && c[2] in {'n', 'N'} && c[3] in {'c', 'C'}
                && c[4] in {'h', 'H'})
  {
    forall x: char
      ensures (Lower(x) == 'b' <==> x in {'b', 'B'}) && (Lower(x) == 'e' <==> x in {'e', 'E'})
      ensures (Lower(x) == 'n' <==> x in {'n', 'N'}) && (Lower(x) == 'c' <==> x in {'c', 'C'})
      ensures Lower(x) == 'h' <==> x in {'h', 'H'}
    {}
    if |c| == 5 { HeaderLetters(c); }
  }

  lemma HeaderLetters(c: string)
    requires |c| == 5
    ensures EqualsIgnoringCase(c, "bench") <==>
            Lower(c[0]) == 'b' && Lower(c[1]) == 'e' && Lower(c[2]) == 'n' && Lower(c[3]) == 'c' && Lower(c[4]) == 'h'
  {
    var w := "bench";
    assert Lower(w[0]) == 'b' && Lower(w[1]) == 'e' && Lower(w[2]) == 'n' && Lower(w[3]) == 'c' && Lower(w[4]) == 'h';
  }

  lemma {:induction false} TrimAllAt(cells: seq<string>, i: nat)
    requires i < |cells|
    ensures TrimAll(cells)[i] == Trim(cells[i])
  {
    if i > 0 { TrimAllAt(cells[1..], i - 1); }
  }

  lemma DigitsAreTrimmed(s: string)
    requires AllDigits(s)
    ensures Trim(s) == s && Tabular(s)
  {
    TrimFixed(s);
  }

  lemma SingleIsTrimmed(s: string)
    requires |s| == 1 && !IsSpace(s[0])
    ensures Trim(s) == s
  {
    TrimFixed(s);
  }

  lemma NumberIsTrimmed(n: U64)
    ensures Trim(Decimal(n)) == Decimal(n) && Tabular(Decimal(n)) && ParseU64(Decimal(n)) == Some(n)
  {
    DecimalReadsBack(n);
    DigitsAreTrimmed(Decimal(n));
  }

  lemma NumberCell(cells: seq<string>, i: nat, n: U64)
    requires i < |cells| && cells[i] == Decimal(n)
    ensures Tabular(cells[i]) && ParseU64(TrimAll(cells)[i]) == Some(n)
  {
    NumberIsTrimmed(n);
    TrimAllAt(cells, i);
  }

  predicate ParamsShape(s: string) { AllDigits(s) || (|s| == 1 && s[0] == '-') }

  lemma SplitParamsShape(id: string)
    ensures ParamsShape(SplitId(id).params)
  {
  }

  lemma ParamsCell(cells: seq<string>)
    requires |cells| > 1 && ParamsShape(cells[1])
    ensures Tabular(cells[1]) && TrimAll(cells)[1] == cells[1]
  {
    if AllDigits(cells[1]) { DigitsAreTrimmed(cells[1]); } else { SingleIsTrimmed(cells[1]); }
    TrimAllAt(cells, 1);
  }

  lemma {:induction false} JoinedChars(cells: seq<string>, c: char)
    requires cells != [] && c != ' ' && c != '|' && forall cell :: cell in cells ==> c !in cell
    ensures c !in Joined(cells)
  {
    if |cells| > 1 { JoinedChars(cells[1..], c); }
  }

  lemma BenchIsTabular(id: string)
    requires Tabular(id)
    ensures Tabular(SplitId(id).bench)
  {
    assert forall c :: c in SplitId(id).bench ==> c in id;
  }

  lemma RowCellsTabular(r: Row)
    requires Tabular(r.id)
    ensures forall cell :: cell in RowCells(r) ==> Tabular(cell)
  {
    var cells := RowCells(r);
    BenchIsTabular(r.id);
    SplitParamsShape(r.id);
    ParamsCell(cells);
    NumberCell(cells, 2, r.p50);
    NumberCell(cells, 3, r.p95);
    NumberCell(cells, 4, r.p99);
    NumberCell(cells, 5, r.max);
    NumberCell(cells, 6, r.samples);
  }

  lemma RowLineIsPlain(r: Row)
    requires Tabular(r.id)
    ensures PlainLine(RowLine(r))
  {
    RowCellsTabular(r);
    JoinedChars(RowCells(r), '\n');
  }

  /** Five readable numbers behind any two cells. */
  lemma CellsParse(cells: seq<string>, r: Row)
    requires |cells| == 7
    requires ParseU64(cells[2]) == Some(r.p50) && ParseU64(cells[3]) == Some(r.p95) && ParseU64(cells[4]) == Some(r.p99)
    requires ParseU64(cells[5]) == Some(r.max) && ParseU64(cells[6]) == Some(r.samples)
    ensures RowOfCells(cells) == if HeaderCell(cells[0]) then None else Some(r.(id := CombineId(cells[0], cells[1])))
  {
  }

  lemma RowReadsBack(r: Row)
    requires Tabular(r.id)
    ensures ParseLine(RowLine(r)) == Outcome(r)
  {
    var cells := RowCells(r);
    RowCellsTabular(r);
    LineReadsBack(cells);
    TrimAllAt(cells, 0);
    SplitParamsShape(r.id);
    ParamsCell(cells);
    NumberCell(cells, 2, r.p50);
    NumberCell(cells, 3, r.p95);
    NumberCell(cells, 4, r.p99);
    NumberCell(cells, 5, r.max);
    NumberCell(cells, 6, r.samples);
    CellsParse(TrimAll(cells), r);
  }

  /** A row comes back unchanged exactly when its id is well formed. */
  lemma OutcomeIsRowIff(r: Row)
    requires Tabular(r.id)
    ensures Outcome(r) == Some(r) <==> WellFormed(r.id)
  {
    var id := SplitId(r.id);
    TrimFixed(id.bench);
    TrimNoLonger(id.bench);
    CombineInvertsSplit(r.id);
  }

  /** Seven cells, the first no header's, the last five numbers that fit. */
  predicate RowShaped(cells: seq<string>) {
    |cells| == 7 && !HeaderCell(cells[0]) && AllNumbers(cells[2..])
  }

  predicate AllNumbers(cells: seq<string>) { forall cell :: cell in cells ==> ParseU64(cell).Some? }

  lemma RowOfCellsIff(cells: seq<string>)
    requires cells != []
    ensures RowOfCells(cells).Some? <==> RowShaped(cells)
  {
    if |cells| == 7 {
      assert cells[2..] == [cells[2], cells[3], cells[4], cells[5], cells[6]];
    }
  }

  /** A written line of any cells is taken as a row exactly when its trimmed cells are shaped like one. */
  lemma LineAcceptedIff(cells: seq<string>)
    requires cells != [] && forall cell :: cell in cells ==> '|' !in cell
    ensures ParseLine(TableLine(cells)).Some? <==> RowShaped(TrimAll(cells))
  {
    LineReadsBack(cells);
    RowOfCellsIff(TrimAll(cells));
  }

  // ------------------------------------------------------------------------ the file

  lemma ProseSkipped(line: string)
    requires line == "" || (!IsSpace(line[0]) && line[0] != '|')
    ensures ParseLine(line) == None
  {
    DropWhileEndLeaves(IsSpace, line);
  }

  /** A table line or a rule whose first cell is a header's is skipped. */
  lemma LineSkipped(first: string, body: string)
    requires Trim(first) == first && HeaderCell(first) && body != "" && body[0] != '|' && body[|body| - 1] != '|'
    requires TrimAll(SplitOn('|', body))[0] == first
    ensures ParseLine("|" + body + "|") == None
  {
    BarsStopTrimming(body);
    BarsComeOff(body);
  }

  lemma HeaderSkipped(cells: seq<string>)
    requires cells != [] && (forall cell :: cell in cells ==> '|' !in cell) && Trimmed(cells[0]) && HeaderCell(cells[0])
    ensures ParseLine(TableLine(cells)) == None
  {
    JoinedSplits(cells);
    TrimAllAt(cells, 0);
    TrimFixed(cells[0]);
    LineSkipped(cells[0], Joined(cells));
  }

  lemma RuleSkipped(first: string, rest: string)
    requires '|' !in first && first != "" && Trimmed(first) && HeaderCell(first) && rest != ""
             && rest[|rest| - 1] != '|'
    ensures ParseLine("|" + (first + "|" + rest) + "|") == None
  {
    SplitAt('|', first, rest);
    TrimAllAt(SplitOn('|', first + "|" + rest), 0);
    TrimFixed(first);
    LineSkipped(first, first + "|" + rest);
  }

  /** Text that cannot be taken for a table line. */
  predicate ProseLine(line: string) {
    '\n' !in line && (line != "" ==> !IsSpace(line[0]) && line[0] != '|' && line[|line| - 1] != '\r')
  }

  lemma HeaderIsTable()
    ensures Trimmed(HEADER[0]) && HeaderCell(HEADER[0]) && forall cell :: cell in HEADER ==> Tabular(cell)
    ensures Tabular(DASHES) && Trimmed(DASHES) && HeaderCell(DASHES) && '\n' !in SEPARATOR
  {
  }

  lemma PreambleSkipped(prose: seq<string>, line: string)
    requires line in Preamble(prose) && (line in prose ==> ProseLine(line))
    ensures ParseLine(line) == None && PlainLine(line)
  {
    HeaderIsTable();
    if line in prose {
      ProseSkipped(line);
    } else if line == TableLine(HEADER) {
      HeaderSkipped(HEADER);
      JoinedChars(HEADER, '\n');
    } else {
      RuleSkipped(DASHES, "---|---|---|---|---|---");
    }
  }

  lemma {:induction false} NoneAccepted<A, B>(f: A -> Option<B>, xs: seq<A>)
    requires forall x :: x in xs ==> f(x) == None
    ensures FilterMap(f, xs) == []
  {
    if xs != [] { NoneAccepted(f, xs[1..]); }
  }

  lemma {:induction false} FilterMapRender<A, B>(f: string -> Option<B>, g: A -> string, h: A -> Option<B>, xs: seq<A>)
    requires forall x :: x in xs ==> f(g(x)) == h(x)
    ensures FilterMap(f, Render(g, xs)) == FilterMap(h, xs)
  {
    if xs != [] { FilterMapRender(f, g, h, xs[1..]); }
  }

  lemma {:induction false} RenderIn<A>(g: A -> string, xs: seq<A>, line: string)
    requires line in Render(g, xs)
    ensures exists x :: x in xs && g(x) == line
  {
    if line != g(xs[0]) {
      RenderIn(g, xs[1..], line);
      var x :| x in xs[1..] && g(x) == line;
      assert x in xs;
    }
  }

  lemma FilePlain(prose: seq<string>, rows: seq<Row>)
    requires forall line :: line in prose ==> ProseLine(line)
    requires forall r :: r in rows ==> Tabular(r.id)
    ensures forall line :: line in Preamble(prose) + Render(RowLine, rows) ==> PlainLine(line)
  {
    forall line | line in Preamble(prose) + Render(RowLine, rows) ensures PlainLine(line) {
      if line in Preamble(prose) {
        PreambleSkipped(prose, line);
      } else {
        RenderIn(RowLine, rows, line);
        var r :| r in rows && RowLine(r) == line;
        RowLineIsPlain(r);
      }
    }
  }

  /** Reading a written file gives each row's outcome, in order. */
  lemma FileReadsBack(prose: seq<string>, rows: seq<Row>)
    requires forall line :: line in prose ==> ProseLine(line)
    requires forall r :: r in rows ==> Tabular(r.id)
    ensures ParsedRows(Lines(FileText(prose, rows))) == FilterMap(Outcome, rows)
  {
    var head, table := Preamble(prose), Render(RowLine, rows);
    TextAppend(head, table);
    FilePlain(prose, rows);
    LinesOfText(head + table);
    FilterMapAppend(ParseLine, head, table);
    forall line | line in head ensures ParseLine(line) == None { PreambleSkipped(prose, line); }
    NoneAccepted(ParseLine, head);
    forall r | r in rows ensures ParseLine(RowLine(r)) == Outcome(r) { RowReadsBack(r); }
    FilterMapRender(ParseLine, RowLine, Outcome, rows);
  }

  lemma {:induction false} FilterMapIsIdentityIff<A>(f: A -> Option<A>, xs: seq<A>)
    ensures |FilterMap(f, xs)| <= |xs|
    ensures FilterMap(f, xs) == xs <==> forall x :: x in xs ==> f(x) == Some(x)
  {
    if xs != [] {
      FilterMapIsIdentityIff(f, xs[1..]);
      assert xs == [xs[0]] + xs[1..];
      if FilterMap(f, xs) == xs {
        assert f(xs[0]).Some?;
        assert FilterMap(f, xs)[1..] == xs[1..];
      }
    }
  }

  lemma TrimKeepsChars(s: string)
    ensures forall c :: c in Trim(s) ==> c in s
  {
    DropWhileLeaves(IsSpace, s);
    DropWhileEndLeaves(IsSpace, DropWhile(IsSpace, s));
    assert forall c :: c in DropWhile(IsSpace, s) ==> c in s;
  }

  lemma BarsKeepChars(s: string)
    ensures forall c :: c in DropWhileEnd(IsBar, DropWhile(IsBar, s)) ==> c in s
  {
    DropWhileLeaves(IsBar, s);
    DropWhileEndLeaves(IsBar, DropWhile(IsBar, s));
    assert forall c :: c in DropWhile(IsBar, s) ==> c in s;
  }

  lemma CellIsTabular(body: string, i: nat)
    requires '\n' !in body && i < |SplitOn('|', body)|
    ensures Tabular(TrimAll(SplitOn('|', body))[i])
  {
    PiecesAreClean('|', body);
    TrimAllAt(SplitOn('|', body), i);
    TrimKeepsChars(SplitOn('|', body)[i]);
  }

  lemma ParsedIdIsTabular(line: string)
    requires '\n' !in line && ParseLine(line).Some?
    ensures Tabular(ParseLine(line).value.id)
  {
    TrimKeepsChars(line);
    BarsKeepChars(Trim(line));
    var body := DropWhileEnd(IsBar, DropWhile(IsBar, Trim(line)));
    CellIsTabular(body, 0);
    CellIsTabular(body, 1);
  }

  lemma {:induction false} LineHasNoNewline(lines: seq<string>, line: string)
    requires (forall l :: l in lines ==> '\n' !in l) && line in WithoutReturns(lines)
    ensures '\n' !in line
  {
    var first := WithoutReturns(lines)[0];
    assert forall c :: c in first ==> c in lines[0];
    if line != first { LineHasNoNewline(lines[1..], line); }
  }

  lemma {:induction false} FilterMapIn<A, B>(f: A -> Option<B>, xs: seq<A>, y: B)
    requires y in FilterMap(f, xs)
    ensures exists x :: x in xs && f(x) == Some(y)
  {
    if f(xs[0]) != Some(y) {
      FilterMapIn(f, xs[1..], y);
      var x :| x in xs[1..] && f(x) == Some(y);
      assert x in xs;
    }
  }

  /** No file at all makes the parser return an id with a bar or a newline in it. */
  lemma ParsedIdsTabular(text: string, r: Row)
    requires r in ParsedRows(Lines(text))
    ensures Tabular(r.id)
  {
    FilterMapIn(ParseLine, Lines(text), r);
    var line :| line in Lines(text) && ParseLine(line) == Some(r);
    PiecesAreClean('\n', text);
    var pieces := SplitOn('\n', text);
    LineHasNoNewline(if pieces[|pieces| - 1] == "" then pieces[..|pieces| - 1] else pieces, line);
    ParsedIdIsTabular(line);
  }

  /** Writing rows and reading the file back returns the same rows exactly when every id is well formed. */
  lemma RoundTripIff(prose: seq<string>, rows: seq<Row>)
    requires forall line :: line in prose ==> ProseLine(line)
    ensures ParsedRows(Lines(FileText(prose, rows))) == rows <==> forall r :: r in rows ==> WellFormed(r.id)
  {
    if forall r :: r in rows ==> Tabular(r.id) {
      FileReadsBack(prose, rows);
      FilterMapIsIdentityIff(Outcome, rows);
      forall r | r in rows ensures Outcome(r) == Some(r) <==> WellFormed(r.id) { OutcomeIsRowIff(r); }
    } else {
      var r :| r in rows && !Tabular(r.id);
      if r in ParsedRows(Lines(FileText(prose, rows))) { ParsedIdsTabular(FileText(prose, rows), r); }
    }
  }
}
