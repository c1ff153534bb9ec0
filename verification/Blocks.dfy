/** What each kind of block makes of the lines from some line on. */
module Blocks {
  import opened Basics
  import opened Text
  import Paragraph

  datatype Para = Para(align: string, blocks: seq<Paragraph.Block>)

  datatype Item = Item(text: Para, child: Option<List>)

  datatype List = List(ordered: bool, items: seq<Item>)

  datatype Alignment = Left | Right | Center

  datatype Element =
    | Heading(level: nat, title: Para)
    | TextBlock(text: Para)
    | BlockQuote(paragraphs: seq<Para>)
    | CodeBlock(meta: string, code: seq<string>)
    | LatexBlock(content: string)
    | HorizontalRule
    | ItemList(list: List)
    | Table(titles: seq<string>, alignments: seq<Alignment>, rows: seq<seq<Para>>)
    | Image(alt: string, uri: string, width: string)
    | HtmlElement(html: string)

  /** How a parser ends: two ways of returning, an escaping exception, and a read beyond the end of a
      line, after which nothing is known. */
  datatype Verdict = Ok | Illegal | Threw | PastEnd

  predicate Returns(v: Verdict) {
    v == Ok || v == Illegal
  }

  function Of(status: Paragraph.Status): Verdict {
    match status
    case Ok => Ok
    case Illegal => Illegal
    case PastEnd => PastEnd
  }

  /** A parsed block: what it adds to the document, and the line after it. */
  datatype Outcome = Outcome(verdict: Verdict, elements: seq<Element>, notes: seq<(string, Para)>, next: nat)

  function Added(e: Element, next: nat): Outcome {
    Outcome(Ok, [e], [], next)
  }

  /** The character the source reads at a position up to the terminating zero. */
  function At(line: string, i: nat): char {
    if i < |line| then line[i] else '\0'
  }

  // ---------------------------------------------------------------- paragraphs

  function ParseLine(line: string): (Paragraph.Status, Para) {
    var clean := Strip(line);
    var (status, spans) := Paragraph.Scan(clean, Paragraph.Begin(clean));
    var align := match Paragraph.Prefix(clean) case Some(a) => a case None => "justify";
    (status, Para(align, Paragraph.Blocks(spans)))
  }

  predicate IsOrderedItem(s: string) {
    |s| > 2 && '1' <= s[0] <= '9' && s[1] == '.'
  }

  function ParagraphBlock(lines: seq<string>, i: nat): Outcome
    requires i < |lines|
  {
    var (status, para) := ParseLine(lines[i]);
    if status == Paragraph.PastEnd then Outcome(PastEnd, [], [], i)
    else Outcome(Ok, if status == Paragraph.Ok && para.blocks != [] then [TextBlock(para)] else [], [], i + 1)
  }

  function DefaultBlock(lines: seq<string>, i: nat): Outcome
    requires i < |lines|
  {
    if IsOrderedItem(lines[i]) then ListBlock(true, lines, i) else ParagraphBlock(lines, i)
  }

  // ---------------------------------------------------------------- headings

  /** The first position from `i` on where another character stands. */
  function SkipChar(s: string, c: char, i: nat): (r: nat)
    requires i <= |s|
    ensures i <= r <= |s| && (r < |s| ==> s[r] != c) && forall k | i <= k < r :: s[k] == c
    decreases |s| - i
  {
    if i < |s| && s[i] == c then SkipChar(s, c, i + 1) else i
  }

  function SkipBlanks(s: string, i: nat): (r: nat)
    requires i <= |s|
    ensures i <= r <= |s| && (r < |s| ==> !IsSpace(s[r])) && forall k | i <= k < r :: IsSpace(s[k])
    decreases |s| - i
  {
    if i < |s| && IsSpace(s[i]) then SkipBlanks(s, i + 1) else i
  }

  function HeadingBlock(lines: seq<string>, i: nat): Outcome
    requires i < |lines| && lines[i] != ""
  {
    var level := SkipChar(lines[i], '#', 1);
    var (status, title) := ParseLine(lines[i][level..]);
    if status == Paragraph.PastEnd then Outcome(PastEnd, [], [], i)
    else Added(Heading(level, title), i + 1)
  }

  // ---------------------------------------------------------------- block quotes

  /** The first line from `i` on that does not begin with '>'. */
  function QuoteEnd(lines: seq<string>, i: nat): (end: nat)
    requires i <= |lines|
    ensures i <= end <= |lines|
    ensures forall k | i <= k < end :: At(lines[k], 0) == '>'
    ensures end < |lines| ==> At(lines[end], 0) != '>'
    decreases |lines| - i
  {
    if i < |lines| && At(lines[i], 0) == '>' then QuoteEnd(lines, i + 1) else i
  }

  /** The paragraphs of a quote; a paragraph that does not parse is kept as far as it was read. */
  function QuoteParagraphs(quoted: seq<string>): (r: (Verdict, seq<Para>))
    ensures r.0 == Ok || r.0 == PastEnd
  {
    if quoted == [] then (Ok, [])
    else
      var n := |quoted| - 1;
      var (verdict, paras) := QuoteParagraphs(quoted[..n]);
      var (status, para) := ParseLine(quoted[n]);
      if verdict == PastEnd || status == Paragraph.PastEnd then (PastEnd, []) else (Ok, paras + [para])
  }

  function Unquoted(lines: seq<string>): seq<string>
    requires forall k | 0 <= k < |lines| :: lines[k] != ""
  {
    seq(|lines|, k requires 0 <= k < |lines| => lines[k][1..])
  }

  function QuoteBlock(lines: seq<string>, i: nat): Outcome
    requires i < |lines|
  {
    var end := QuoteEnd(lines, i);
    var (verdict, paras) := QuoteParagraphs(Unquoted(lines[i..end]));
    if verdict == PastEnd then Outcome(PastEnd, [], [], i) else Added(BlockQuote(paras), end)
  }

  // ---------------------------------------------------------------- code and formulas

  predicate IsFence(line: string) {
    |line| == 3 && line[0] == '`' && line[1] == '`' && line[2] == '`'
  }

  function FindFence(lines: seq<string>, i: nat): (r: nat)
    requires i <= |lines|
    ensures i <= r <= |lines| && (r < |lines| ==> IsFence(lines[r])) && forall k | i <= k < r :: !IsFence(lines[k])
    decreases |lines| - i
  {
    if i == |lines| || IsFence(lines[i]) then i else FindFence(lines, i + 1)
  }

  function FencedBlock(lines: seq<string>, i: nat): Outcome
    requires i < |lines|
  {
    var line := lines[i];
    if |line| < 3 || line[1] != '`' || line[2] != '`' then ParagraphBlock(lines, i)
    else
      var end := FindFence(lines, i + 1);
      if end == |lines| then Outcome(Illegal, [], [], end)
      else Added(CodeBlock(line[3..], lines[i + 1..end]), end + 1)
  }

  predicate ClosesFormula(line: string) {
    var v := Strip(line);
    |v| >= 2 && v[|v| - 1] == '$' && v[|v| - 2] == '$'
  }

  function FindFormulaEnd(lines: seq<string>, i: nat): (r: nat)
    requires i <= |lines|
    ensures i <= r <= |lines| && (r < |lines| ==> ClosesFormula(lines[r]))
            && forall k | i <= k < r :: !ClosesFormula(lines[k])
    decreases |lines| - i
  {
    if i == |lines| || ClosesFormula(lines[i]) then i else FindFormulaEnd(lines, i + 1)
  }

  function Stripped(lines: seq<string>): seq<string> {
    seq(|lines|, k requires 0 <= k < |lines| => Strip(lines[k]))
  }

  function Join(lines: seq<string>): string {
    if lines == [] then "" else if |lines| == 1 then lines[0] else lines[0] + "\n" + Join(lines[1..])
  }

  function FormulaBlock(lines: seq<string>, i: nat): Outcome
    requires i < |lines|
  {
    var v := Strip(lines[i]);
    var n := |v|;
    if n < 2 || v[0] != '$' || v[1] != '$' then DefaultBlock(lines, i)
    else if n > 4 && v[n - 1] == '$' && v[n - 2] == '$' then Added(LatexBlock(v[2..n - 2]), i + 1)
    else
      var end := FindFormulaEnd(lines, i + 1);
      if end == |lines| then DefaultBlock(lines, i)
      else
        var last := Strip(lines[end]);
        Added(LatexBlock(Join([v[2..]] + Stripped(lines[i + 1..end]) + [last[..|last| - 2]])), end + 1)
  }

  // ---------------------------------------------------------------- lists

  datatype Listed = Listed(verdict: Verdict, items: seq<Item>, next: nat)

  function Before(items: seq<Item>, l: Listed): Listed {
    Listed(l.verdict, items + l.items, l.next)
  }

  /** What the line after an item is for the list. */
  datatype Sequel = Sibling | Child(ordered: bool, indent: nat) | Done

  function SequelOf(ordered: bool, pos: nat, next: string): Sequel {
    var indent := SkipBlanks(next, 0);
    var numbered := IsOrderedItem(next[indent..]);
    var dashed := At(next, indent) == '-';
    if next == "" then Done
    else if indent == pos then if (if ordered then numbered else dashed) then Sibling else Done
    else if indent > pos then
      if ordered && numbered then Child(true, indent) else if dashed then Child(false, indent) else Done
    else Done
  }

  /** What a list makes of a line: nothing, an exception, or the text of an item. */
  datatype ItemLine = NoItem | TooShort | ItemText(status: Paragraph.Status, text: Para)

  function ReadLine(ordered: bool, pos: nat, line: string): ItemLine {
    if !ordered && |line| <= pos then NoItem
    else if ordered && |line| < pos + 2 then TooShort
    else var (status, text) := ParseLine(line[if ordered then pos + 2 else pos + 1..]); ItemText(status, text)
  }

  /** An item with its nested list, and the line where the list goes on; or the end of the list. */
  datatype Stage = Ends(listed: Listed) | Goes(item: Item, next: nat)

  function ItemAt(ordered: bool, pos: nat, lines: seq<string>, i: nat): (r: Stage)
    ensures r.Goes? ==> i < r.next <= |lines|
    ensures r.Ends? ==> i <= r.listed.next && (i <= |lines| ==> r.listed.next <= |lines|)
    ensures r.Ends? && r.listed.verdict == Ok && i < |lines| && |lines[i]| > pos ==> i < r.listed.next
    decreases |lines| - i, 0
  {
    if i >= |lines| then Ends(Listed(Threw, [], i))
    else match ReadLine(ordered, pos, lines[i])
      case NoItem => Ends(Listed(Ok, [], i))
      case TooShort => Ends(Listed(Threw, [], i))
      case ItemText(status, text) =>
        if status != Paragraph.Ok then Ends(Listed(Of(status), [Item(text, None)], i))
        else if i + 1 == |lines| then Ends(Listed(Ok, [Item(text, None)], i + 1))
        else match SequelOf(ordered, pos, lines[i + 1])
          case Done => Ends(Listed(Ok, [Item(text, None)], i + 1))
          case Sibling => Goes(Item(text, None), i + 1)
          case Child(o, indent) =>
            var child := Items(o, indent, lines, i + 1);
            var parent := Item(text, Some(List(o, child.items)));
            if Returns(child.verdict) then Goes(parent, child.next)
            else Ends(Listed(child.verdict, [parent], child.next))
  }

  /** The list whose marker stands at column `pos` of line `i`. Once a nested list has returned, the
      next line is taken for an item without a look at its indentation. */
  function Items(ordered: bool, pos: nat, lines: seq<string>, i: nat): (r: Listed)
    ensures i <= r.next && (i <= |lines| ==> r.next <= |lines|)
    ensures r.verdict == Ok && i < |lines| && |lines[i]| > pos ==> i < r.next
    decreases |lines| - i, 1
  {
    match ItemAt(ordered, pos, lines, i)
    case Ends(l) => l
    case Goes(item, next) => Before([item], Items(ordered, pos, lines, next))
  }

  function ListBlock(ordered: bool, lines: seq<string>, i: nat): Outcome {
    var l := Items(ordered, 0, lines, i);
    Outcome(l.verdict, [ItemList(List(ordered, l.items))], [], l.next)
  }

  function DashBlock(lines: seq<string>, i: nat): Outcome
    requires i < |lines|
  {
    if |lines[i]| >= 3 && SkipChar(lines[i], '-', 0) == |lines[i]| then Added(HorizontalRule, i + 1)
    else ListBlock(false, lines, i)
  }

  // ---------------------------------------------------------------- tables

  predicate IsRow(view: string) {
    At(view, 0) == '|' && view[|view| - 1] == '|'
  }

  /** The texts between the bars, from a position behind a bar on. */
  function Cells(view: string, from: nat): seq<string>
    requires from <= |view|
    decreases |view| - from
  {
    var bar := Find(view, '|', from);
    if bar == |view| then [] else [view[from..bar]] + Cells(view, bar + 1)
  }

  function AlignmentOf(col: string): Alignment {
    if |col| < 3 || (col[0] != ':' && col[|col| - 1] != ':') then Left
    else if col[0] == ':' then if col[|col| - 1] == ':' then Center else Left
    else Right
  }

  function Alignments(cells: seq<string>): (r: seq<Alignment>)
    ensures |r| == |cells|
  {
    seq(|cells|, k requires 0 <= k < |cells| => AlignmentOf(Strip(cells[k])))
  }

  /** The cells of a row that parse; the others are dropped. */
  function Row(cells: seq<string>): (r: (Verdict, seq<Para>))
    ensures r.0 == Ok || r.0 == PastEnd
  {
    if cells == [] then (Ok, [])
    else
      var n := |cells| - 1;
      var (verdict, paras) := Row(cells[..n]);
      var (status, para) := ParseLine(cells[n]);
      if verdict == PastEnd || status == Paragraph.PastEnd then (PastEnd, [])
      else (Ok, if status == Paragraph.Ok then paras + [para] else paras)
  }

  datatype Tabled = Tabled(verdict: Verdict, rows: seq<seq<Para>>, next: nat)

  /** Rows of `n` cells; one of another width is still kept, but ends the table before it. */
  function Rows(n: nat, lines: seq<string>, i: nat): (r: Tabled)
    requires i <= |lines|
    ensures i <= r.next <= |lines|
    decreases |lines| - i
  {
    if i == |lines| || !IsRow(Strip(lines[i])) then Tabled(Ok, [], i)
    else
      var (verdict, row) := Row(Cells(Strip(lines[i]), 1));
      if verdict == PastEnd then Tabled(PastEnd, [], i)
      else if |row| != n then Tabled(Ok, [row], i)
      else var more := Rows(n, lines, i + 1); Tabled(more.verdict, [row] + more.rows, more.next)
  }

  /** The table whose first two lines, at `i`, have these titles and alignments. */
  function TableBody(titles: seq<string>, alignments: seq<Alignment>, lines: seq<string>, i: nat): Outcome
    requires i + 2 <= |lines|
  {
    if |titles| != |alignments| then Outcome(Illegal, [], [], i)
    else if i + 2 == |lines| then Outcome(Threw, [], [], i)
    else
      var t := Rows(|titles|, lines, i + 2);
      Outcome(t.verdict, [Table(titles, alignments, t.rows)], [], t.next)
  }

  function TableBlock(lines: seq<string>, i: nat): Outcome
    requires i < |lines|
  {
    if !IsRow(Strip(lines[i])) then DefaultBlock(lines, i)
    else if i + 1 == |lines| then Outcome(Threw, [], [], i)
    else if !IsRow(Strip(lines[i + 1])) then DefaultBlock(lines, i)
    else TableBody(Stripped(Cells(Strip(lines[i]), 1)), Alignments(Cells(Strip(lines[i + 1]), 1)), lines, i)
  }

  // ---------------------------------------------------------------- footnotes and single lines

  function FootnoteBlock(lines: seq<string>, i: nat): Outcome
    requires i < |lines|
  {
    var line := lines[i];
    if |line| < 4 || line[1] != '^' then DefaultBlock(lines, i)
    else
      var close := Find(line, ']', 2);
      if close < 3 || close + 1 >= |line| || line[close + 1] != ':' then DefaultBlock(lines, i)
      else
        var (status, para) := ParseLine(line[close + 2..]);
        if status == Paragraph.PastEnd then Outcome(PastEnd, [], [], i)
        else Outcome(Ok, [], [(line[2..close], para)], i + 1)
  }

  /** What an image or raw-HTML line is taken for. */
  datatype Reading = Ordinary | Malformed | Read(element: Element)

  /** The recognition of lines that begin with '!' or '<', which is not modelled further. */
  datatype Recognizer = Recognizer(image: string -> Reading, html: string -> Reading)

  function SingleLineBlock(reading: Reading, lines: seq<string>, i: nat): Outcome
    requires i < |lines|
  {
    match reading
    case Ordinary => DefaultBlock(lines, i)
    case Malformed => Outcome(Illegal, [], [], i)
    case Read(e) => Added(e, i + 1)
  }

  // ---------------------------------------------------------------- the document

  function Block(recognizer: Recognizer, lines: seq<string>, i: nat): Outcome
    requires i < |lines|
  {
    match At(lines[i], 0)
    case '#' => HeadingBlock(lines, i)
    case '>' => QuoteBlock(lines, i)
    case '`' => FencedBlock(lines, i)
    case '-' => DashBlock(lines, i)
    case '|' => TableBlock(lines, i)
    case '!' => SingleLineBlock(recognizer.image(lines[i]), lines, i)
    case '$' => FormulaBlock(lines, i)
    case '[' => FootnoteBlock(lines, i)
    case '<' => SingleLineBlock(recognizer.html(lines[i]), lines, i)
    case _ => DefaultBlock(lines, i)
  }

  /** A block that succeeds takes at least one line, and none goes beyond the last one. */
  ghost predicate Advances(o: Outcome, lines: seq<string>, i: nat) {
    o.next <= |lines| && (o.verdict == Ok ==> i < o.next)
  }

  lemma DefaultAdvances(lines: seq<string>, i: nat)
    requires i < |lines|
    ensures Advances(DefaultBlock(lines, i), lines, i)
  {
  }

  lemma DashAdvances(lines: seq<string>, i: nat)
    requires i < |lines| && lines[i] != ""
    ensures Advances(DashBlock(lines, i), lines, i)
  {
  }

  lemma TableAdvances(lines: seq<string>, i: nat)
    requires i < |lines|
    ensures Advances(TableBlock(lines, i), lines, i)
  {
  }

  lemma FormulaAdvances(lines: seq<string>, i: nat)
    requires i < |lines|
    ensures Advances(FormulaBlock(lines, i), lines, i)
  {
  }

  lemma FootnoteAdvances(lines: seq<string>, i: nat)
    requires i < |lines|
    ensures Advances(FootnoteBlock(lines, i), lines, i)
  {
  }

  lemma SingleLineAdvances(reading: Reading, lines: seq<string>, i: nat)
    requires i < |lines|
    ensures Advances(SingleLineBlock(reading, lines, i), lines, i)
  {
  }

  lemma BlockAdvances(recognizer: Recognizer, lines: seq<string>, i: nat)
    requires i < |lines|
    ensures Advances(Block(recognizer, lines, i), lines, i)
  {
    match At(lines[i], 0)
    case '#' => assert Advances(HeadingBlock(lines, i), lines, i);
    case '>' => assert Advances(QuoteBlock(lines, i), lines, i);
    case '`' => assert Advances(FencedBlock(lines, i), lines, i);
    case '-' => DashAdvances(lines, i);
    case '|' => TableAdvances(lines, i);
    case '!' => SingleLineAdvances(recognizer.image(lines[i]), lines, i);
    case '$' => FormulaAdvances(lines, i);
    case '[' => FootnoteAdvances(lines, i);
    case '<' => SingleLineAdvances(recognizer.html(lines[i]), lines, i);
    case _ => DefaultAdvances(lines, i);
  }

  /** A document, block after block, up to the first one that does not succeed. */
  function Document(recognizer: Recognizer, lines: seq<string>, i: nat): (r: Outcome)
    requires i <= |lines|
    ensures r.next <= |lines| && (r.verdict == Ok ==> r.next == |lines|)
    decreases |lines| - i
  {
    if i == |lines| then Outcome(Ok, [], [], i)
    else
      var o := Block(recognizer, lines, i);
      BlockAdvances(recognizer, lines, i);
      if o.verdict != Ok then o
      else
        var d := Document(recognizer, lines, o.next);
        Outcome(d.verdict, o.elements + d.elements, o.notes + d.notes, d.next)
  }

  // ---------------------------------------------------------------- lines before the block do not matter

  /** The lines agree from line `i` on. */
  ghost predicate SameFrom(i: nat, a: seq<string>, b: seq<string>) {
    |a| == |b| && forall k | i <= k < |a| :: a[k] == b[k]
  }

  lemma ItemsFrom(ordered: bool, pos: nat, lines: seq<string>, i: nat, stage: Stage)
    requires ItemAt(ordered, pos, lines, i) == stage
    ensures Items(ordered, pos, lines, i) ==
              match stage case Ends(l) => l case Goes(item, next) => Before([item], Items(ordered, pos, lines, next))
  {
  }

  /** What a list is taken for does not depend on the lines before it. */
  lemma {:induction false} ItemsLocal(ordered: bool, pos: nat, a: seq<string>, b: seq<string>, i: nat)
    requires SameFrom(i, a, b)
    ensures Items(ordered, pos, a, i) == Items(ordered, pos, b, i)
    decreases |a| - i, 1
  {
    var stage := ItemAt(ordered, pos, a, i);
    ItemAtLocal(ordered, pos, a, b, i);
    ItemsFrom(ordered, pos, a, i, stage);
    ItemsFrom(ordered, pos, b, i, stage);
    if stage.Goes? { ItemsLocal(ordered, pos, a, b, stage.next); }
  }

  lemma {:induction false} ItemAtLocal(ordered: bool, pos: nat, a: seq<string>, b: seq<string>, i: nat)
    requires SameFrom(i, a, b)
    ensures ItemAt(ordered, pos, a, i) == ItemAt(ordered, pos, b, i)
    decreases |a| - i, 0
  {
    if i + 1 < |a| {
      var next := a[i + 1];
      var sequel := SequelOf(ordered, pos, next);
      if sequel.Child? {
        ItemsLocal(sequel.ordered, sequel.indent, a, b, i + 1);
        ItemWithChild(ordered, pos, a, i, a[i], sequel, Items(sequel.ordered, sequel.indent, a, i + 1));
        ItemWithChild(ordered, pos, b, i, b[i], sequel, Items(sequel.ordered, sequel.indent, b, i + 1));
      }
    }
  }

  /** The item of a line by what the line holds and what the nested list behind it is. */
  lemma ItemWithChild(ordered: bool, pos: nat, lines: seq<string>, i: nat, line: string, sequel: Sequel, child: Listed)
    requires i + 1 < |lines| && lines[i] == line && SequelOf(ordered, pos, lines[i + 1]) == sequel && sequel.Child?
    requires child == Items(sequel.ordered, sequel.indent, lines, i + 1)
    ensures ItemAt(ordered, pos, lines, i) ==
              match ReadLine(ordered, pos, line)
              case NoItem => Ends(Listed(Ok, [], i))
              case TooShort => Ends(Listed(Threw, [], i))
              case ItemText(status, text) =>
                var parent := Item(text, Some(List(sequel.ordered, child.items)));
                if status != Paragraph.Ok then Ends(Listed(Of(status), [Item(text, None)], i))
                else if Returns(child.verdict) then Goes(parent, child.next)
                else Ends(Listed(child.verdict, [parent], child.next))
  {
  }

  lemma SlicesAgree(a: seq<string>, b: seq<string>, i: nat, end: nat)
    requires SameFrom(i, a, b) && i <= end <= |a|
    ensures a[i..end] == b[i..end]
  {
  }

  lemma {:induction false} QuoteEndLocal(a: seq<string>, b: seq<string>, i: nat)
    requires SameFrom(i, a, b) && i <= |a|
    ensures QuoteEnd(a, i) == QuoteEnd(b, i)
    decreases |a| - i
  {
  }

  lemma {:induction false} FindFenceLocal(a: seq<string>, b: seq<string>, i: nat)
    requires SameFrom(i, a, b) && i <= |a|
    ensures FindFence(a, i) == FindFence(b, i)
    decreases |a| - i
  {
  }

  lemma {:induction false} FindFormulaEndLocal(a: seq<string>, b: seq<string>, i: nat)
    requires SameFrom(i, a, b) && i <= |a|
    ensures FindFormulaEnd(a, i) == FindFormulaEnd(b, i)
    decreases |a| - i
  {
  }

  lemma {:induction false} RowsLocal(n: nat, a: seq<string>, b: seq<string>, i: nat)
    requires SameFrom(i, a, b) && i <= |a|
    ensures Rows(n, a, i) == Rows(n, b, i)
    decreases |a| - i
  {
    if i < |a| { RowsLocal(n, a, b, i + 1); }
  }

  lemma DefaultLocal(a: seq<string>, b: seq<string>, i: nat)
    requires SameFrom(i, a, b) && i < |a|
    ensures DefaultBlock(a, i) == DefaultBlock(b, i)
  {
    ItemsLocal(true, 0, a, b, i);
  }

  lemma QuoteLocal(a: seq<string>, b: seq<string>, i: nat)
    requires SameFrom(i, a, b) && i < |a|
    ensures QuoteBlock(a, i) == QuoteBlock(b, i)
  {
    QuoteEndLocal(a, b, i);
    SlicesAgree(a, b, i, QuoteEnd(a, i));
  }

  lemma FencedLocal(a: seq<string>, b: seq<string>, i: nat)
    requires SameFrom(i, a, b) && i < |a|
    ensures FencedBlock(a, i) == FencedBlock(b, i)
  {
    FindFenceLocal(a, b, i + 1);
    SlicesAgree(a, b, i + 1, FindFence(a, i + 1));
  }

  lemma FormulaLocal(a: seq<string>, b: seq<string>, i: nat)
    requires SameFrom(i, a, b) && i < |a|
    ensures FormulaBlock(a, i) == FormulaBlock(b, i)
  {
    DefaultLocal(a, b, i);
    FindFormulaEndLocal(a, b, i + 1);
    SlicesAgree(a, b, i + 1, FindFormulaEnd(a, i + 1));
  }

  lemma TableLocal(a: seq<string>, b: seq<string>, i: nat)
    requires SameFrom(i, a, b) && i < |a|
    ensures TableBlock(a, i) == TableBlock(b, i)
  {
    DefaultLocal(a, b, i);
    if i + 2 < |a| && IsRow(Strip(a[i])) { RowsLocal(|Cells(Strip(a[i]), 1)|, a, b, i + 2); }
  }

  lemma SingleLineLocal(reading: Reading, a: seq<string>, b: seq<string>, i: nat)
    requires SameFrom(i, a, b) && i < |a|
    ensures SingleLineBlock(reading, a, i) == SingleLineBlock(reading, b, i)
  {
    DefaultLocal(a, b, i);
  }

  lemma FootnoteLocal(a: seq<string>, b: seq<string>, i: nat)
    requires SameFrom(i, a, b) && i < |a|
    ensures FootnoteBlock(a, i) == FootnoteBlock(b, i)
  {
    DefaultLocal(a, b, i);
  }

  /** What a block is taken for does not depend on the lines before it. */
  lemma BlockLocal(recognizer: Recognizer, a: seq<string>, b: seq<string>, i: nat)
    requires SameFrom(i, a, b) && i < |a|
    ensures Block(recognizer, a, i) == Block(recognizer, b, i)
  {
    match At(a[i], 0)
    case '#' => assert HeadingBlock(a, i) == HeadingBlock(b, i);
    case '>' => QuoteLocal(a, b, i);
    case '`' => FencedLocal(a, b, i);
    case '-' => ItemsLocal(false, 0, a, b, i); assert DashBlock(a, i) == DashBlock(b, i);
    case '|' => TableLocal(a, b, i);
    case '!' => SingleLineLocal(recognizer.image(a[i]), a, b, i);
    case '$' => FormulaLocal(a, b, i);
    case '[' => FootnoteLocal(a, b, i);
    case '<' => SingleLineLocal(recognizer.html(a[i]), a, b, i);
    case _ => DefaultLocal(a, b, i);
  }
}
