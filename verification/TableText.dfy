/** Printed tables, and how the table parser reads them back. */
module TableText {
  import opened Text
  import opened Blocks
  import Paragraph

  /** Cells, each closed by a bar. */
  function Bars(cells: seq<string>): string {
    if cells == [] then "" else cells[0] + ("|" + Bars(cells[1..]))
  }

  function RowLine(cells: seq<string>): (line: string)
    ensures line != "" && line[0] == '|'
  {
    "|" + Bars(cells)
  }

  function Marker(a: Alignment): string {
    match a
    case Left => ":---"
    case Center => ":---:"
    case Right => "---:"
  }

  function Markers(alignments: seq<Alignment>): (cells: seq<string>)
    ensures |cells| == |alignments|
  {
    seq(|alignments|, k requires 0 <= k < |alignments| => Marker(alignments[k]))
  }

  function RowLines(rows: seq<seq<string>>): (lines: seq<string>)
    ensures |lines| == |rows|
  {
    seq(|rows|, k requires 0 <= k < |rows| => RowLine(rows[k]))
  }

  function Printed(titles: seq<string>, alignments: seq<Alignment>, rows: seq<seq<string>>): seq<string> {
    [RowLine(titles), RowLine(Markers(alignments))] + RowLines(rows)
  }

  function Paras(cells: seq<string>): (paras: seq<Para>)
    ensures |paras| == |cells|
  {
    seq(|cells|, k requires 0 <= k < |cells| => ParseLine(cells[k]).1)
  }

  function ParaRows(rows: seq<seq<string>>): (r: seq<seq<Para>>)
    ensures |r| == |rows|
  {
    seq(|rows|, k requires 0 <= k < |rows| => Paras(rows[k]))
  }

  ghost predicate BarFree(cells: seq<string>) {
    forall k | 0 <= k < |cells| :: Without(cells[k], '|')
  }

  ghost predicate AllTrimmed(cells: seq<string>) {
    forall k | 0 <= k < |cells| :: Trimmed(cells[k])
  }

  /** A row of `n` cells that can be printed and read back. */
  ghost predicate GoodRow(n: nat, cells: seq<string>) {
    |cells| == n && BarFree(cells) && forall k | 0 <= k < n :: ParseLine(cells[k]).0 == Paragraph.Ok
  }

  lemma FindFrom(p: string, s: string, c: char, t: string)
    requires Without(s, c)
    ensures Find(p + (s + ([c] + t)), c, |p|) == |p| + |s|
  {
    var line := p + (s + ([c] + t));
    forall k | |p| <= k < |p| + |s| ensures line[k] != c {
      assert line[k] == s[k - |p|];
    }
    FindIs(line, c, |p|, |p| + |s|);
  }

  lemma {:induction false} CellsOfBars(p: string, cells: seq<string>)
    requires BarFree(cells)
    ensures Cells(p + Bars(cells), |p|) == cells
    decreases |cells|
  {
    var view := p + Bars(cells);
    if cells != [] {
      var s, rest := cells[0], cells[1..];
      FindFrom(p, s, '|', Bars(rest));
      assert view[|p|..|p| + |s|] == s;
      var q := p + (s + "|");
      assert view == q + Bars(rest);
      CellsOfBars(q, rest);
      assert cells == [s] + rest;
    }
  }

  lemma {:induction false} BarsEnd(cells: seq<string>)
    requires cells != []
    ensures var s := Bars(cells); s != "" && s[|s| - 1] == '|'
    decreases |cells|
  {
    if cells[1..] == [] {
      assert Bars(cells[1..]) == "";
    } else {
      BarsEnd(cells[1..]);
    }
  }

  /** A printed row is recognized, and cut into its cells. */
  lemma RowLineReadsBack(cells: seq<string>)
    requires BarFree(cells)
    ensures Strip(RowLine(cells)) == RowLine(cells) && IsRow(RowLine(cells)) && Cells(RowLine(cells), 1) == cells
  {
    var line := RowLine(cells);
    if cells != [] { BarsEnd(cells); }
    StripPadded("", line, "");
    assert "" + line + "" == line;
    CellsOfBars("|", cells);
  }

  lemma ParasMore(cells: seq<string>)
    requires cells != []
    ensures var n := |cells| - 1; Paras(cells) == Paras(cells[..n]) + [ParseLine(cells[n]).1]
  {
  }

  lemma {:induction false} RowReadsBack(cells: seq<string>)
    requires forall k | 0 <= k < |cells| :: ParseLine(cells[k]).0 == Paragraph.Ok
    ensures Row(cells) == (Ok, Paras(cells))
    decreases |cells|
  {
    if cells != [] {
      var n := |cells| - 1;
      RowReadsBack(cells[..n]);
      ParasMore(cells);
    }
  }

  /** The printed rows stand at line `i`. */
  ghost predicate RowsStand(lines: seq<string>, i: nat, rows: seq<seq<string>>) {
    i + |rows| <= |lines| && forall k | 0 <= k < |rows| :: lines[i + k] == RowLine(rows[k])
  }

  lemma RowsStandMore(lines: seq<string>, i: nat, rows: seq<seq<string>>)
    requires RowsStand(lines, i, rows) && rows != []
    ensures i < |lines| && lines[i] == RowLine(rows[0]) && RowsStand(lines, i + 1, rows[1..])
  {
  }

  ghost predicate EndsTable(lines: seq<string>, i: nat) {
    i < |lines| ==> !IsRow(Strip(lines[i]))
  }

  lemma RowAt(n: nat, lines: seq<string>, i: nat, cells: seq<string>)
    requires GoodRow(n, cells) && i < |lines| && lines[i] == RowLine(cells)
    ensures var more := Rows(n, lines, i + 1);
            Rows(n, lines, i) == Tabled(more.verdict, [Paras(cells)] + more.rows, more.next)
  {
    RowLineReadsBack(cells);
    RowReadsBack(cells);
  }

  lemma RowsJoin(cells: seq<string>, rest: seq<seq<string>>, rows: seq<seq<string>>)
    requires rows == [cells] + rest
    ensures ParaRows(rows) == [Paras(cells)] + ParaRows(rest)
  {
  }

  lemma {:induction false} RowsReadBack(n: nat, lines: seq<string>, i: nat, rows: seq<seq<string>>)
    requires forall k | 0 <= k < |rows| :: GoodRow(n, rows[k])
    requires RowsStand(lines, i, rows) && EndsTable(lines, i + |rows|)
    ensures Rows(n, lines, i) == Tabled(Ok, ParaRows(rows), i + |rows|)
    decreases |rows|
  {
    if rows != [] {
      RowsStandMore(lines, i, rows);
      RowAt(n, lines, i, rows[0]);
      RowsReadBack(n, lines, i + 1, rows[1..]);
      RowsJoin(rows[0], rows[1..], rows);
    }
  }

  lemma MarkersReadBack(alignments: seq<Alignment>)
    ensures BarFree(Markers(alignments)) && Alignments(Markers(alignments)) == alignments
  {
  }

  lemma TitlesReadBack(titles: seq<string>)
    requires AllTrimmed(titles)
    ensures Stripped(titles) == titles
  {
  }

  lemma HeaderReadsBack(lines: seq<string>, i: nat, titles: seq<string>, alignments: seq<Alignment>)
    requires i + 2 <= |lines| && lines[i] == RowLine(titles) && lines[i + 1] == RowLine(Markers(alignments))
    requires BarFree(titles) && AllTrimmed(titles)
    ensures TableBlock(lines, i) == TableBody(titles, alignments, lines, i)
  {
    RowLineReadsBack(titles);
    TitlesReadBack(titles);
    MarkersReadBack(alignments);
    RowLineReadsBack(Markers(alignments));
  }

  lemma PrintedStands(before: seq<string>, titles: seq<string>, alignments: seq<Alignment>, rows: seq<seq<string>>,
                      after: seq<string>)
    ensures var i := |before|;
            var lines := before + (Printed(titles, alignments, rows) + after);
            && |lines| == i + 2 + |rows| + |after|
            && lines[i] == RowLine(titles) && lines[i + 1] == RowLine(Markers(alignments))
            && RowsStand(lines, i + 2, rows)
            && (after != [] ==> lines[i + 2 + |rows|] == after[0])
  {
  }

  lemma TableReadsBack(lines: seq<string>, i: nat, titles: seq<string>, alignments: seq<Alignment>,
                       rows: seq<seq<string>>)
    requires BarFree(titles) && AllTrimmed(titles) && |alignments| == |titles|
    requires forall k | 0 <= k < |rows| :: GoodRow(|titles|, rows[k])
    requires i + 2 <= |lines| && lines[i] == RowLine(titles) && lines[i + 1] == RowLine(Markers(alignments))
    requires RowsStand(lines, i + 2, rows) && EndsTable(lines, i + 2 + |rows|)
    ensures TableBlock(lines, i) == if i + 2 == |lines| then Outcome(Threw, [], [], i)
                                    else Outcome(Ok, [Table(titles, alignments, ParaRows(rows))], [], i + 2 + |rows|)
  {
    HeaderReadsBack(lines, i, titles, alignments);
    if i + 2 < |lines| {
      RowsReadBack(|titles|, lines, i + 2, rows);
    }
  }

  lemma BarStartsTable(recognizer: Recognizer, lines: seq<string>, i: nat)
    requires i < |lines| && At(lines[i], 0) == '|'
    ensures Block(recognizer, lines, i) == TableBlock(lines, i)
  {
  }

  /** A printed table parses back to its titles, alignments and cells, up to the first line that is no row.
      Only a table without rows that nothing follows makes an exception escape. */
  lemma TableRoundTrip(recognizer: Recognizer, before: seq<string>, titles: seq<string>, alignments: seq<Alignment>,
                       rows: seq<seq<string>>, after: seq<string>)
    requires BarFree(titles) && AllTrimmed(titles) && |alignments| == |titles|
    requires forall k | 0 <= k < |rows| :: GoodRow(|titles|, rows[k])
    requires EndsTable(after, 0)
    ensures var i := |before|;
            Block(recognizer, before + (Printed(titles, alignments, rows) + after), i) ==
              if rows == [] && after == [] then Outcome(Threw, [], [], i)
              else Outcome(Ok, [Table(titles, alignments, ParaRows(rows))], [], i + 2 + |rows|)
  {
    var lines := before + (Printed(titles, alignments, rows) + after);
    PrintedStands(before, titles, alignments, rows, after);
    TableReadsBack(lines, |before|, titles, alignments, rows);
    BarStartsTable(recognizer, lines, |before|);
  }
}
