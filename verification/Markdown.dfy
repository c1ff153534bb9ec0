/** The block parsers at work on the list of lines, some of which they overwrite. */
module Markdown {
  import opened Basics
  import opened Text
  import Paragraph
  import opened Blocks

  datatype ParseResult = ParseResult(verdict: Verdict, nextLineIdx: nat)

  /** What a document holds so far. */
  datatype State = State(lines: seq<string>, elements: seq<Element>, notes: map<string, Para>)

  function AddNotes(notes: map<string, Para>, more: seq<(string, Para)>): map<string, Para>
    decreases |more|
  {
    if more == [] then notes else AddNotes(notes[more[0].0 := more[0].1], more[1..])
  }

  /** The outcome `o` has been carried out; no line that is still unread has been changed. */
  ghost predicate Parsed(was: State, o: Outcome, pr: ParseResult, now: State) {
    && pr.verdict == o.verdict
    && (Returns(o.verdict) ==>
          && pr.nextLineIdx == o.next
          && SameFrom(o.next, was.lines, now.lines)
          && now.elements == was.elements + o.elements
          && now.notes == AddNotes(was.notes, o.notes))
  }

  ghost predicate ListParsed(was: seq<string>, l: Listed, now: seq<string>, verdict: Verdict, items: seq<Item>,
                             next: nat) {
    match l
    case Listed(v, all, end) => verdict == v && items == all && next == end && SameFrom(next, was, now)
  }

  /** Having read these items, the list `more` completes the whole of it. */
  ghost predicate Completes(whole: Listed, items: seq<Item>, more: Listed) {
    whole == Before(items, more)
  }

  lemma CompletesBefore(whole: Listed, a: seq<Item>, more: Listed, b: seq<Item>, l: Listed)
    requires Completes(whole, a, more) && more == Before(b, l)
    ensures Completes(whole, a + b, l)
  {
  }

  /** In the middle of a list: from line `next` on the lines are as they were, and hold the rest of it. */
  ghost predicate MidList(whole: Listed, ordered: bool, pos: nat, was: seq<string>, now: seq<string>,
                          items: seq<Item>, next: nat) {
    match Items(ordered, pos, was, next)
    case Listed(verdict, more, end) =>
      next <= |was| && SameFrom(next, was, now) && whole == Listed(verdict, items + more, end)
  }

  lemma ListStops(whole: Listed, ordered: bool, pos: nat, was: seq<string>, now: seq<string>, items: seq<Item>, i: nat,
                  l: Listed, then': seq<string>)
    requires MidList(whole, ordered, pos, was, now, items, i) && ItemAt(ordered, pos, now, i) == Ends(l)
    requires SameFrom(l.next, now, then')
    ensures ListParsed(was, whole, then', l.verdict, items + l.items, l.next)
  {
    ItemAtLocal(ordered, pos, was, now, i);
    ItemsFrom(ordered, pos, was, i, Ends(l));
  }

  lemma ListGoesOn(whole: Listed, ordered: bool, pos: nat, was: seq<string>, now: seq<string>, items: seq<Item>, i: nat,
                   item: Item, next: nat, then': seq<string>)
    requires MidList(whole, ordered, pos, was, now, items, i) && ItemAt(ordered, pos, now, i) == Goes(item, next)
    requires SameFrom(next, now, then')
    ensures MidList(whole, ordered, pos, was, then', items + [item], next)
  {
    ItemAtLocal(ordered, pos, was, now, i);
    ItemsFrom(ordered, pos, was, i, Goes(item, next));
    CompletesBefore(whole, items, Items(ordered, pos, was, i), [item], Items(ordered, pos, was, next));
  }

  ghost predicate Collected(collected: seq<string>, lines: seq<string>, i: nat, end: nat)
    requires i <= end <= |lines|
  {
    |collected| == end - i && forall k | 0 <= k < |collected| :: collected[k] == lines[i + k]
  }

  lemma NoTable(lines: seq<string>, i: nat)
    requires i < |lines| && (IsRow(Strip(lines[i])) ==> i + 1 < |lines| && !IsRow(Strip(lines[i + 1])))
    ensures TableBlock(lines, i) == DefaultBlock(lines, i)
  {
  }

  lemma StrippedMore(first: string, s: seq<string>, i: nat, end: nat)
    requires i <= end < |s|
    ensures [first] + Stripped(s[i..end + 1]) == [first] + Stripped(s[i..end]) + [Strip(s[end])]
  {
  }

  lemma UnquotedMore(s: seq<string>, i: nat, end: nat)
    requires i <= end < |s| && forall k | i <= k <= end :: s[k] != ""
    ensures Unquoted(s[i..end + 1]) == Unquoted(s[i..end]) + [s[end][1..]]
  {
  }

  class Markdown {
    const recognizer: Recognizer
    var lines: seq<string>
    var lastLineIdx: nat
    var elements: seq<Element>
    var footnotes: map<string, Para>

    constructor (recognizer: Recognizer, lines: seq<string>, bodyStart: nat)
      ensures this.recognizer == recognizer && this.lines == lines && lastLineIdx == bodyStart
      ensures elements == [] && footnotes == map[]
    {
      this.recognizer := recognizer;
      this.lines := lines;
      lastLineIdx := bodyStart;
      elements := [];
      footnotes := map[];
    }

    ghost function Now(): State
      reads this
    {
      State(lines, elements, footnotes)
    }

    method ParseText(line: string) returns (status: Paragraph.Status, para: Para)
      ensures (status, para) == ParseLine(line)
    {
      var p := new Paragraph.ParagraphElement();
      status := p.ParseParagraph(line);
      para := Para(p.textAlign, p.blocks);
      ghost var clean := Strip(line);
      assert p.blocks == Paragraph.Blocks(Paragraph.Scan(clean, Paragraph.Begin(clean)).1);
      assert status == Paragraph.Scan(clean, Paragraph.Begin(clean)).0;
      assert p.textAlign == match Paragraph.Prefix(clean) case Some(a) => a case None => "justify";
    }

    method NewPosStart(line: string) returns (i: nat)
      ensures i == SkipBlanks(line, 0)
    {
      i := 0;
      while At(line, i) == ' ' || At(line, i) == '\t'
        invariant 0 <= i <= |line| && SkipBlanks(line, 0) == SkipBlanks(line, i)
        decreases |line| - i
      {
        i := i + 1;
      }
    }

    method LookAt(ordered: bool, pos: nat, lastLine: string) returns (sequel: Sequel)
      ensures sequel == SequelOf(ordered, pos, lastLine)
    {
      if lastLine == "" {
        return Done;
      }
      var newPosStart := NewPosStart(lastLine);
      if newPosStart == pos {
        if !(if ordered then IsOrderedItem(lastLine[newPosStart..]) else At(lastLine, newPosStart) == '-') {
          return Done;
        }
        return Sibling;
      } else if newPosStart > pos {
        var childOrdered := ordered && IsOrderedItem(lastLine[newPosStart..]);
        if childOrdered || At(lastLine, newPosStart) == '-' {
          return Child(childOrdered, newPosStart);
        } else {
          return Done;
        }
      } else {
        return Done;
      }
    }

    /** Both list parsers: they differ in the marker, and in what they let an item be followed by. */
    method ParseItems(ordered: bool, pos: nat) returns (verdict: Verdict, items: seq<Item>, next: nat)
      requires lastLineIdx <= |lines|
      modifies this`lines, this`lastLineIdx
      ensures ListParsed(old(lines), Items(ordered, pos, old(lines), old(lastLineIdx)), lines, verdict, items, next)
      decreases |lines| - lastLineIdx, 1
    {
      ghost var was, whole := lines, Items(ordered, pos, lines, lastLineIdx);
      next := lastLineIdx;
      items := [];
      while true
        invariant old(lastLineIdx) <= next && MidList(whole, ordered, pos, was, lines, items, next)
        decreases |lines| - next
      {
        ghost var now := lines;
        var stage := ParseItem(ordered, pos, next);
        match stage {
          case Ends(listed) =>
            ListStops(whole, ordered, pos, was, now, items, next, listed, lines);
            return listed.verdict, items + listed.items, listed.next;
          case Goes(item, itemEnd) =>
            ListGoesOn(whole, ordered, pos, was, now, items, next, item, itemEnd, lines);
            items := items + [item];
            next := itemEnd;
        }
      }
    }

    /** The item at `lineIdx` with its nested list. The line after the item takes the item's place. */
    method ParseItem(ordered: bool, pos: nat, lineIdx: nat) returns (stage: Stage)
      requires lineIdx <= |lines|
      modifies this`lines, this`lastLineIdx
      ensures stage == ItemAt(ordered, pos, old(lines), lineIdx)
      ensures SameFrom(if stage.Ends? then stage.listed.next else stage.next, old(lines), lines)
      decreases |lines| - lineIdx, 0
    {
      if lineIdx >= |lines| {
        return Ends(Listed(Threw, [], lineIdx));
      }
      var itemLine := ParseItemLine(ordered, pos, lines[lineIdx]);
      match itemLine {
        case NoItem => return Ends(Listed(Ok, [], lineIdx));
        case TooShort => return Ends(Listed(Threw, [], lineIdx));
        case ItemText(status, text) =>
          if status != Paragraph.Ok {
            return Ends(Listed(Of(status), [Item(text, None)], lineIdx));
          }
          if lineIdx + 1 >= |lines| {
            return Ends(Listed(Ok, [Item(text, None)], lineIdx + 1));
          }
          ghost var was := lines;
          lines := lines[lineIdx := lines[lineIdx + 1]];
          var sequel := LookAt(ordered, pos, lines[lineIdx]);
          match sequel {
            case Done => return Ends(Listed(Ok, [Item(text, None)], lineIdx + 1));
            case Sibling => return Goes(Item(text, None), lineIdx + 1);
            case Child(o, indent) =>
              ItemsLocal(o, indent, was, lines, lineIdx + 1);
              lastLineIdx := lineIdx + 1;
              var verdict, childItems, next := ParseItems(o, indent);
              var parent := Item(text, Some(List(o, childItems)));
              return if Returns(verdict) then Goes(parent, next) else Ends(Listed(verdict, [parent], next));
          }
      }
    }

    method ParseItemLine(ordered: bool, pos: nat, line: string) returns (r: ItemLine)
      ensures r == ReadLine(ordered, pos, line)
    {
      if !ordered && |line| <= pos {
        return NoItem;
      }
      if ordered && |line| < pos + 2 {
        return TooShort;
      }
      var status, text := ParseText(line[if ordered then pos + 2 else pos + 1..]);
      return ItemText(status, text);
    }

    method ParseList(ordered: bool) returns (pr: ParseResult)
      requires lastLineIdx < |lines|
      modifies this
      ensures Parsed(old(Now()), ListBlock(ordered, old(lines), old(lastLineIdx)), pr, Now())
    {
      var verdict, items, next := ParseItems(ordered, 0);
      if Returns(verdict) {
        elements := elements + [ItemList(List(ordered, items))];
      }
      return ParseResult(verdict, next);
    }

    method ParseParagraph() returns (pr: ParseResult)
      requires lastLineIdx < |lines|
      modifies this
      ensures Parsed(old(Now()), ParagraphBlock(old(lines), old(lastLineIdx)), pr, Now())
    {
      var status, para := ParseText(lines[lastLineIdx]);
      if status == Paragraph.PastEnd {
        return ParseResult(PastEnd, lastLineIdx);
      }
      if status == Paragraph.Ok && para.blocks != [] {
        elements := elements + [TextBlock(para)];
      }
      return ParseResult(Ok, lastLineIdx + 1);
    }

    method ParseDefault() returns (pr: ParseResult)
      requires lastLineIdx < |lines|
      modifies this
      ensures Parsed(old(Now()), DefaultBlock(old(lines), old(lastLineIdx)), pr, Now())
    {
      if IsOrderedItem(lines[lastLineIdx]) {
        pr := ParseList(true);
      } else {
        pr := ParseParagraph();
      }
    }

    method ParseDashPrefixLine() returns (pr: ParseResult)
      requires lastLineIdx < |lines|
      modifies this
      ensures Parsed(old(Now()), DashBlock(old(lines), old(lastLineIdx)), pr, Now())
    {
      var lastLine := lines[lastLineIdx];
      if |lastLine| >= 3 {
        var idx := 0;
        while idx < |lastLine| && lastLine[idx] == '-'
          invariant 0 <= idx <= |lastLine| && SkipChar(lastLine, '-', 0) == SkipChar(lastLine, '-', idx)
        {
          idx := idx + 1;
        }
        if idx == |lastLine| {
          elements := elements + [HorizontalRule];
          return ParseResult(Ok, lastLineIdx + 1);
        }
      }
      pr := ParseList(false);
    }

    method ParseHeading() returns (pr: ParseResult)
      requires lastLineIdx < |lines| && lines[lastLineIdx] != ""
      modifies this
      ensures Parsed(old(Now()), HeadingBlock(old(lines), old(lastLineIdx)), pr, Now())
    {
      var lastLine := lines[lastLineIdx];
      var level := 1;
      while level < |lastLine| && lastLine[level] == '#'
        invariant 1 <= level <= |lastLine| && SkipChar(lastLine, '#', 1) == SkipChar(lastLine, '#', level)
      {
        level := level + 1;
      }
      var title := HeadingTitle(lastLine, level);
      var status, para := ParseText(title);
      if status == Paragraph.PastEnd {
        return ParseResult(PastEnd, lastLineIdx);
      }
      elements := elements + [Heading(level, para)];
      return ParseResult(Ok, lastLineIdx + 1);
    }

    /** Cuts the blanks off both ends, except for a last one. */
    method HeadingTitle(lastLine: string, level: nat) returns (title: string)
      requires 0 < level <= |lastLine|
      ensures ParseLine(title) == ParseLine(lastLine[level..])
    {
      var titleStart := level;
      while titleStart < |lastLine| && IsSpace(lastLine[titleStart])
        invariant level <= titleStart <= |lastLine|
        invariant forall k | level <= k < titleStart :: IsSpace(lastLine[k])
      {
        titleStart := titleStart + 1;
      }
      var titleEnd := |lastLine| - 1;
      while titleEnd > titleStart && IsSpace(lastLine[titleEnd])
        invariant titleStart <= titleEnd + 1 <= |lastLine|
        invariant forall k | titleEnd < k < |lastLine| :: IsSpace(lastLine[k])
      {
        titleEnd := titleEnd - 1;
      }
      TitleIsStripped(lastLine, level, titleStart, titleEnd + 1);
      return lastLine[titleStart..titleEnd + 1];
    }

    method ParseBlockquote() returns (pr: ParseResult)
      requires lastLineIdx < |lines| && At(lines[lastLineIdx], 0) == '>'
      modifies this
      ensures Parsed(old(Now()), QuoteBlock(old(lines), old(lastLineIdx)), pr, Now())
    {
      var lineIdx, blockQuoteLines := CollectQuote();
      var verdict, paras := ParseQuoted(blockQuoteLines);
      if verdict == PastEnd {
        return ParseResult(PastEnd, lineIdx);
      }
      elements := elements + [BlockQuote(paras)];
      return ParseResult(Ok, lineIdx);
    }

    /** The lines of a quote without their marks; each of them takes the place of the first one. */
    method CollectQuote() returns (lineIdx: nat, blockQuoteLines: seq<string>)
      requires lastLineIdx < |lines| && At(lines[lastLineIdx], 0) == '>'
      modifies this`lines
      ensures lineIdx == QuoteEnd(old(lines), lastLineIdx) && SameFrom(lineIdx, old(lines), lines)
      ensures blockQuoteLines == Unquoted(old(lines)[lastLineIdx..lineIdx])
    {
      ghost var was := lines;
      blockQuoteLines := [lines[lastLineIdx][1..]];
      lineIdx := lastLineIdx + 1;
      assert was[lastLineIdx..lineIdx] == [was[lastLineIdx]];
      while lineIdx < |lines|
        invariant lastLineIdx < lineIdx <= |was| && SameFrom(lineIdx, was, lines)
        invariant QuoteEnd(was, lastLineIdx) == QuoteEnd(was, lineIdx)
        invariant (forall k | lastLineIdx <= k < lineIdx :: was[k] != "")
                  && blockQuoteLines == Unquoted(was[lastLineIdx..lineIdx])
      {
        lines := lines[lastLineIdx := lines[lineIdx]];
        if At(lines[lastLineIdx], 0) != '>' {
          break;
        }
        UnquotedMore(was, lastLineIdx, lineIdx);
        blockQuoteLines := blockQuoteLines + [lines[lastLineIdx][1..]];
        lineIdx := lineIdx + 1;
      }
    }

    method ParseQuoted(quoted: seq<string>) returns (verdict: Verdict, paras: seq<Para>)
      ensures verdict == QuoteParagraphs(quoted).0 && (verdict != PastEnd ==> paras == QuoteParagraphs(quoted).1)
    {
      paras := [];
      for k := 0 to |quoted|
        invariant (Ok, paras) == QuoteParagraphs(quoted[..k])
      {
        var status, para := ParseText(quoted[k]);
        QuoteMore(quoted, k, status, para);
        if status == Paragraph.PastEnd {
          return PastEnd, paras;
        }
        paras := paras + [para];
      }
      assert quoted[..|quoted|] == quoted;
      return Ok, paras;
    }

    method ParseCodeblock() returns (pr: ParseResult)
      requires lastLineIdx < |lines|
      modifies this
      ensures Parsed(old(Now()), FencedBlock(old(lines), old(lastLineIdx)), pr, Now())
    {
      var first := lines[lastLineIdx];
      if |first| < 3 || first[1] != '`' || first[2] != '`' {
        pr := ParseParagraph();
        return;
      }
      var lineIdx, codeLines := CollectCode();
      if lineIdx == |lines| {
        return ParseResult(Illegal, lineIdx);
      }
      elements := elements + [CodeBlock(first[3..], codeLines)];
      return ParseResult(Ok, lineIdx + 1);
    }

    /** The lines up to the closing fence; each of them takes the place of the opening one. */
    method CollectCode() returns (lineIdx: nat, codeLines: seq<string>)
      requires lastLineIdx < |lines|
      modifies this`lines
      ensures lineIdx == FindFence(old(lines), lastLineIdx + 1) && SameFrom(lineIdx, old(lines), lines)
      ensures codeLines == old(lines)[lastLineIdx + 1..lineIdx]
    {
      ghost var was, from := lines, lastLineIdx + 1;
      codeLines := [];
      lineIdx := lastLineIdx + 1;
      while lineIdx < |lines|
        invariant from <= lineIdx <= |was| && SameFrom(lineIdx, was, lines)
        invariant FindFence(was, from) == FindFence(was, lineIdx)
        invariant Collected(codeLines, was, from, lineIdx)
      {
        lines := lines[lastLineIdx := lines[lineIdx]];
        var lastLine := lines[lastLineIdx];
        assert lastLine == was[lineIdx];
        if IsFence(lastLine) {
          break;
        }
        codeLines := codeLines + [lastLine];
        lineIdx := lineIdx + 1;
      }
      assert codeLines == was[from..lineIdx];
    }

    method ParseLatex() returns (pr: ParseResult)
      requires lastLineIdx < |lines|
      modifies this
      ensures Parsed(old(Now()), FormulaBlock(old(lines), old(lastLineIdx)), pr, Now())
    {
      var start := lastLineIdx;
      var lineView := ViewStripEmpty(lines[start]);
      var viewLen := |lineView|;
      if viewLen < 2 {
        pr := ParseDefault();
        return;
      }
      if lineView[0] != '$' || lineView[1] != '$' {
        pr := ParseDefault();
        return;
      }
      if viewLen > 4 && lineView[viewLen - 1] == '$' && lineView[viewLen - 2] == '$' {
        elements := elements + [LatexBlock(lineView[2..viewLen - 2])];
        return ParseResult(Ok, start + 1);
      }
      var end, latexLines := FormulaLines(start + 1, lineView[2..]);
      if end == |lines| {
        pr := ParseDefault();
        return;
      }
      elements := elements + [LatexBlock(Join(latexLines))];
      return ParseResult(Ok, end + 1);
    }

    /** The lines of a formula from `from` on, up to the one that closes it. */
    method FormulaLines(from: nat, first: string) returns (end: nat, latexLines: seq<string>)
      requires from <= |lines|
      ensures end == FindFormulaEnd(lines, from)
      ensures end < |lines| ==>
                var last := Strip(lines[end]); latexLines == [first] + Stripped(lines[from..end]) + [last[..|last| - 2]]
    {
      latexLines := [first];
      end := from;
      while end < |lines|
        invariant from <= end <= |lines| && FindFormulaEnd(lines, from) == FindFormulaEnd(lines, end)
        invariant latexLines == [first] + Stripped(lines[from..end])
      {
        var lineView := ViewStripEmpty(lines[end]);
        var viewLen := |lineView|;
        if viewLen >= 2 && lineView[viewLen - 1] == '$' && lineView[viewLen - 2] == '$' {
          latexLines := latexLines + [lineView[..viewLen - 2]];
          return;
        }
        StrippedMore(first, lines, from, end);
        latexLines := latexLines + [lineView];
        end := end + 1;
      }
    }

    method ParseFootnote() returns (pr: ParseResult)
      requires lastLineIdx < |lines|
      modifies this
      ensures Parsed(old(Now()), FootnoteBlock(old(lines), old(lastLineIdx)), pr, Now())
    {
      var lastLine := lines[lastLineIdx];
      if |lastLine| < 4 || lastLine[1] != '^' {
        pr := ParseDefault();
        return;
      }
      var idx := FindMethod(lastLine, ']', 2);
      if idx < 3 || idx == |lastLine| || idx + 1 == |lastLine| || lastLine[idx + 1] != ':' {
        pr := ParseDefault();
        return;
      }
      var status, para := ParseText(lastLine[idx + 2..]);
      if status == Paragraph.PastEnd {
        return ParseResult(PastEnd, lastLineIdx);
      }
      footnotes := footnotes[lastLine[2..idx] := para];
      assert AddNotes(old(footnotes), [(lastLine[2..idx], para)]) == footnotes;
      return ParseResult(Ok, lastLineIdx + 1);
    }

    /** An image or a raw HTML element on a line of its own. */
    method ParseSingleLine(reading: Blocks.Reading) returns (pr: ParseResult)
      requires lastLineIdx < |lines|
      modifies this
      ensures Parsed(old(Now()), SingleLineBlock(reading, old(lines), old(lastLineIdx)), pr, Now())
    {
      match reading {
        case Ordinary => pr := ParseDefault();
        case Malformed => return ParseResult(Illegal, lastLineIdx);
        case Read(element) =>
          elements := elements + [element];
          return ParseResult(Ok, lastLineIdx + 1);
      }
    }

    // -------------------------------------------------------------- tables

    /** Cuts a row at its bars, past the first one. */
    method ReadCells(view: string) returns (cells: seq<string>)
      requires IsRow(view)
      ensures cells == Cells(view, 1)
    {
      cells := [];
      var endIdx := 1;
      while endIdx < |view|
        invariant 1 <= endIdx <= |view| && Cells(view, 1) == cells + Cells(view, endIdx)
      {
        var startIdx := endIdx;
        endIdx := FindMethod(view, '|', startIdx);
        assert view[|view| - 1] == '|';
        cells := cells + [view[startIdx..endIdx]];
        endIdx := endIdx + 1;
      }
    }

    method ReadTitles(view: string) returns (titles: seq<string>)
      requires IsRow(view)
      ensures titles == Stripped(Cells(view, 1))
    {
      titles := [];
      var cells := ReadCells(view);
      for k := 0 to |cells|
        invariant titles == Stripped(cells[..k])
      {
        var title := ViewStripEmpty(cells[k]);
        titles := titles + [title];
      }
      assert cells[..|cells|] == cells;
    }

    method ReadAlignments(view: string) returns (alignments: seq<Alignment>)
      requires IsRow(view)
      ensures alignments == Alignments(Cells(view, 1))
    {
      alignments := [];
      var cells := ReadCells(view);
      for k := 0 to |cells|
        invariant alignments == Alignments(cells[..k])
      {
        var colVal := ViewStripEmpty(cells[k]);
        if |colVal| < 3 || (colVal[0] != ':' && colVal[|colVal| - 1] != ':') {
          alignments := alignments + [Left];
        } else if colVal[0] == ':' {
          if colVal[|colVal| - 1] == ':' {
            alignments := alignments + [Center];
          } else {
            alignments := alignments + [Left];
          }
        } else {
          alignments := alignments + [Right];
        }
      }
      assert cells[..|cells|] == cells;
    }

    method ParseRow(cells: seq<string>) returns (verdict: Verdict, row: seq<Para>)
      ensures verdict == Row(cells).0 && (verdict != PastEnd ==> row == Row(cells).1)
    {
      row := [];
      for k := 0 to |cells|
        invariant (Ok, row) == Row(cells[..k])
      {
        var status, para := ParseText(cells[k]);
        RowMore(cells, k, status, para);
        if status == Paragraph.PastEnd {
          return PastEnd, row;
        }
        if status == Paragraph.Ok {
          row := row + [para];
        }
      }
      assert cells[..|cells|] == cells;
      return Ok, row;
    }

    method ParseTable() returns (pr: ParseResult)
      requires lastLineIdx < |lines|
      modifies this
      ensures Parsed(old(Now()), TableBlock(old(lines), old(lastLineIdx)), pr, Now())
    {
      ghost var table := TableBlock(lines, lastLineIdx);
      var clearLineView := ViewStripEmpty(lines[lastLineIdx]);
      if !IsRow(clearLineView) {
        NoTable(lines, lastLineIdx);
        pr := ParseDefault();
        return;
      }
      var titles := ReadTitles(clearLineView);
      if lastLineIdx + 1 >= |lines| {
        return ParseResult(Threw, lastLineIdx);
      }
      clearLineView := ViewStripEmpty(lines[lastLineIdx + 1]);
      if !IsRow(clearLineView) {
        NoTable(lines, lastLineIdx);
        pr := ParseDefault();
        return;
      }
      var alignments := ReadAlignments(clearLineView);
      assert table == TableBody(titles, alignments, lines, lastLineIdx);
      pr := ParseTableBody(titles, alignments);
    }

    method ParseTableBody(titles: seq<string>, alignments: seq<Alignment>) returns (pr: ParseResult)
      requires lastLineIdx + 2 <= |lines|
      modifies this
      ensures Parsed(old(Now()), TableBody(titles, alignments, old(lines), old(lastLineIdx)), pr, Now())
    {
      if |titles| != |alignments| {
        return ParseResult(Illegal, lastLineIdx);
      }
      lastLineIdx := lastLineIdx + 2;
      if lastLineIdx >= |lines| {
        return ParseResult(Threw, lastLineIdx);
      }
      var verdict, rows := ParseRows(|titles|);
      if verdict == PastEnd {
        return ParseResult(PastEnd, lastLineIdx);
      }
      elements := elements + [Table(titles, alignments, rows)];
      return ParseResult(Ok, lastLineIdx);
    }

    /** Reads rows until one has another width, or a line is no row, or the lines end. */
    method ParseRows(n: nat) returns (verdict: Verdict, rows: seq<seq<Para>>)
      requires lastLineIdx < |lines|
      modifies this`lastLineIdx
      ensures verdict in {Ok, PastEnd} && verdict == Rows(n, lines, old(lastLineIdx)).verdict
      ensures verdict == Ok ==> Rows(n, lines, old(lastLineIdx)) == Tabled(Ok, rows, lastLineIdx)
    {
      rows := [];
      ghost var whole := Rows(n, lines, lastLineIdx);
      while lastLineIdx < |lines|
        invariant lastLineIdx <= |lines| && RowsComplete(whole, rows, Rows(n, lines, lastLineIdx))
      {
        var clearLineView := ViewStripEmpty(lines[lastLineIdx]);
        if !IsRow(clearLineView) {
          break;
        }
        var cells := ReadCells(clearLineView);
        var row;
        verdict, row := ParseRow(cells);
        RowsFirst(n, lines, lastLineIdx, verdict, row);
        if verdict == PastEnd {
          return;
        }
        if |row| != n {
          rows := rows + [row];
          return;
        }
        lastLineIdx := lastLineIdx + 1;
        RowsCompleteMore(whole, rows, row, Rows(n, lines, lastLineIdx));
        rows := rows + [row];
      }
      verdict := Ok;
    }

    // -------------------------------------------------------------- the document

    method ParseBlock() returns (pr: ParseResult)
      requires lastLineIdx < |lines|
      modifies this
      ensures Parsed(old(Now()), Block(recognizer, old(lines), old(lastLineIdx)), pr, Now())
      ensures pr.verdict == Ok ==>
                old(lastLineIdx) < pr.nextLineIdx <= |lines| && SameFrom(pr.nextLineIdx, old(lines), lines)
    {
      BlockAdvances(recognizer, lines, lastLineIdx);
      var line := lines[lastLineIdx];
      match At(line, 0) {
        case '#' => pr := ParseHeading();
        case '>' => pr := ParseBlockquote();
        case '`' => pr := ParseCodeblock();
        case '-' => pr := ParseDashPrefixLine();
        case '|' => pr := ParseTable();
        case '!' => pr := ParseSingleLine(recognizer.image(line));
        case '$' => pr := ParseLatex();
        case '[' => pr := ParseFootnote();
        case '<' => pr := ParseSingleLine(recognizer.html(line));
        case _ => pr := ParseDefault();
      }
    }

    /** Parses the document from `lastLineIdx` on. */
    method Parse() returns (verdict: Verdict)
      requires lastLineIdx <= |lines|
      modifies this
      ensures var d := Document(recognizer, old(lines), old(lastLineIdx));
              && verdict == d.verdict
              && (Returns(verdict) ==>
                    elements == old(elements) + d.elements && footnotes == AddNotes(old(footnotes), d.notes))
    {
      ghost var was, d := Now(), Document(recognizer, lines, lastLineIdx);
      ghost var notes := [];
      verdict := Ok;
      while lastLineIdx < |lines|
        invariant lastLineIdx <= |lines| && verdict == Ok
        invariant MidDocument(recognizer, was, d, notes, Now(), lastLineIdx)
        decreases |lines| - lastLineIdx
      {
        ghost var mid, i, o := Now(), lastLineIdx, Block(recognizer, lines, lastLineIdx);
        BlockLocal(recognizer, was.lines, lines, lastLineIdx);
        var pr := ParseBlock();
        MidDocumentGoesOn(recognizer, was, d, notes, mid, i, o, pr, Now());
        if pr.verdict != Ok {
          return pr.verdict;
        }
        notes := notes + o.notes;
        lastLineIdx := pr.nextLineIdx;
      }
      MidDocumentEnds(recognizer, was, d, notes, Now());
    }
  }

  lemma TitleIsStripped(line: string, level: nat, start: nat, end: nat)
    requires level <= start <= end <= |line|
    requires forall k | level <= k < start || end <= k < |line| :: IsSpace(line[k])
    ensures ParseLine(line[level..]) == ParseLine(line[start..end])
  {
    StripBetween(line[level..start], line[start..end], line[end..]);
    assert line[level..] == line[level..start] + line[start..end] + line[end..];
  }

  /** Blanks around a text do not change what is stripped from it. */
  lemma StripBetween(a: string, s: string, b: string)
    requires Blank(a) && Blank(b)
    ensures Strip(a + s + b) == Strip(s)
  {
    var front, back := StripParts(s);
    var t := Strip(s);
    assert a + s + b == (a + front) + t + (back + b);
    StripPadded(a + front, t, back + b);
  }

  lemma {:induction false} PastEndStays(cells: seq<string>, k: nat)
    requires k <= |cells| && Row(cells[..k]).0 == PastEnd
    ensures Row(cells).0 == PastEnd
    decreases |cells|
  {
    if k == |cells| {
      assert cells[..k] == cells;
    } else {
      assert cells[..|cells| - 1][..k] == cells[..k];
      PastEndStays(cells[..|cells| - 1], k);
    }
  }

  lemma RowMore(cells: seq<string>, k: nat, status: Paragraph.Status, para: Para)
    requires k < |cells| && ParseLine(cells[k]) == (status, para) && Row(cells[..k]).0 == Ok
    ensures if status == Paragraph.PastEnd then Row(cells).0 == PastEnd
            else
              var row := Row(cells[..k]).1;
              Row(cells[..k + 1]) == (Ok, if status == Paragraph.Ok then row + [para] else row)
  {
    assert cells[..k + 1][..k] == cells[..k];
    if status == Paragraph.PastEnd { PastEndStays(cells, k + 1); }
  }

  lemma {:induction false} QuotePastEndStays(quoted: seq<string>, k: nat)
    requires k <= |quoted| && QuoteParagraphs(quoted[..k]).0 == PastEnd
    ensures QuoteParagraphs(quoted).0 == PastEnd
    decreases |quoted|
  {
    if k == |quoted| {
      assert quoted[..k] == quoted;
    } else {
      assert quoted[..|quoted| - 1][..k] == quoted[..k];
      QuotePastEndStays(quoted[..|quoted| - 1], k);
    }
  }

  lemma QuoteMore(quoted: seq<string>, k: nat, status: Paragraph.Status, para: Para)
    requires k < |quoted| && ParseLine(quoted[k]) == (status, para) && QuoteParagraphs(quoted[..k]).0 == Ok
    ensures if status == Paragraph.PastEnd then QuoteParagraphs(quoted).0 == PastEnd
            else QuoteParagraphs(quoted[..k + 1]) == (Ok, QuoteParagraphs(quoted[..k]).1 + [para])
  {
    assert quoted[..k + 1][..k] == quoted[..k];
    if status == Paragraph.PastEnd { QuotePastEndStays(quoted, k + 1); }
  }

  ghost predicate RowsComplete(whole: Tabled, rows: seq<seq<Para>>, more: Tabled) {
    match more
    case Tabled(verdict, rest, next) => whole == Tabled(verdict, rows + rest, next)
  }

  lemma RowsFirst(n: nat, lines: seq<string>, i: nat, verdict: Verdict, row: seq<Para>)
    requires i < |lines| && IsRow(Strip(lines[i]))
    requires var (v, r) := Row(Cells(Strip(lines[i]), 1)); verdict == v && (verdict != PastEnd ==> row == r)
    ensures Rows(n, lines, i) ==
              if verdict == PastEnd then Tabled(PastEnd, [], i)
              else if |row| != n then Tabled(Ok, [row], i)
              else var more := Rows(n, lines, i + 1); Tabled(more.verdict, [row] + more.rows, more.next)
  {
  }

  lemma RowsCompleteMore(whole: Tabled, rows: seq<seq<Para>>, row: seq<Para>, more: Tabled)
    requires RowsComplete(whole, rows, Tabled(more.verdict, [row] + more.rows, more.next))
    ensures RowsComplete(whole, rows + [row], more)
  {
  }

  /** In the middle of a document: the rest of it is still to be read as it was at the beginning. */
  ghost predicate MidDocument(recognizer: Recognizer, was: State, d: Outcome, notes: seq<(string, Para)>, now: State,
                              i: nat) {
    && i <= |was.lines| && SameFrom(i, was.lines, now.lines)
    && now.notes == AddNotes(was.notes, notes)
    && var more := Document(recognizer, was.lines, i);
       && d.verdict == more.verdict && d.notes == notes + more.notes
       && was.elements + d.elements == now.elements + more.elements
  }

  lemma {:induction false} AddNotesAppend(notes: map<string, Para>, a: seq<(string, Para)>, b: seq<(string, Para)>)
    ensures AddNotes(notes, a + b) == AddNotes(AddNotes(notes, a), b)
    decreases |a|
  {
    if a == [] {
      assert a + b == b;
    } else {
      assert (a + b)[1..] == a[1..] + b;
      AddNotesAppend(notes[a[0].0 := a[0].1], a[1..], b);
    }
  }

  lemma MidDocumentEnds(recognizer: Recognizer, was: State, d: Outcome, notes: seq<(string, Para)>, now: State)
    requires MidDocument(recognizer, was, d, notes, now, |was.lines|)
    ensures d.verdict == Ok && now.elements == was.elements + d.elements && now.notes == AddNotes(was.notes, d.notes)
  {
    assert now.elements + [] == now.elements && notes + [] == notes;
  }

  lemma DocumentFirst(recognizer: Recognizer, lines: seq<string>, i: nat, o: Outcome)
    requires i < |lines| && o == Block(recognizer, lines, i)
    ensures Advances(o, lines, i)
    ensures Document(recognizer, lines, i) ==
              if o.verdict != Ok then o
              else
                var d := Document(recognizer, lines, o.next);
                Outcome(d.verdict, o.elements + d.elements, o.notes + d.notes, d.next)
  {
    BlockAdvances(recognizer, lines, i);
  }

  lemma MidDocumentGoesOn(recognizer: Recognizer, was: State, d: Outcome, notes: seq<(string, Para)>, now: State,
                          i: nat, o: Outcome, pr: ParseResult, then': State)
    requires i < |was.lines| && MidDocument(recognizer, was, d, notes, now, i)
    requires o == Block(recognizer, was.lines, i) && Parsed(now, o, pr, then')
    ensures if pr.verdict == Ok
            then i < pr.nextLineIdx && MidDocument(recognizer, was, d, notes + o.notes, then', pr.nextLineIdx)
            else d.verdict == pr.verdict &&
                 (Returns(pr.verdict) ==>
                    then'.elements == was.elements + d.elements && then'.notes == AddNotes(was.notes, d.notes))
  {
    DocumentFirst(recognizer, was.lines, i, o);
    AddNotesAppend(was.notes, notes, o.notes);
    if pr.verdict == Ok {
      var more := Document(recognizer, was.lines, o.next);
      Assoc(now.elements, o.elements, more.elements);
      Assoc(notes, o.notes, more.notes);
    }
  }
}
