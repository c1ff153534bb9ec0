/** Printed documents: blocks with an empty line after each, and how the document parser reads them back. */
module DocumentText {
  import opened Basics
  import opened Text
  import opened Blocks
  import ListText
  import TableText
  import Paragraph

  /** A block as it is written. */
  datatype Part =
    | Title(level: nat, title: string)
    | Prose(line: string)
    | Quote(quoted: seq<string>)
    | Code(meta: string, code: seq<string>)
    | Formula(formula: string)
    | Formulas(first: string, middle: seq<string>, last: string)
    | Rule(dashes: nat)
    | Tree(tree: ListText.Tree)
    | Grid(titles: seq<string>, alignments: seq<Alignment>, rows: seq<seq<string>>)
    | Note(id: string, note: string)
    | Marked(marked: string, element: Element)

  function Repeat(c: char, n: nat): (s: string)
    ensures |s| == n && forall k | 0 <= k < n :: s[k] == c
  {
    seq(n, _ => c)
  }

  function QuoteLines(quoted: seq<string>): (lines: seq<string>)
    ensures |lines| == |quoted|
  {
    seq(|quoted|, k requires 0 <= k < |quoted| => ">" + quoted[k])
  }

  /** The lines of a block. */
  function Lines(p: Part): (lines: seq<string>) {
    match p
    case Title(level, title) => [Repeat('#', level) + (" " + title)]
    case Prose(line) => [line]
    case Quote(quoted) => QuoteLines(quoted)
    case Code(meta, code) => ["```" + meta] + (code + ["```"])
    case Formula(formula) => ["$$" + (formula + "$$")]
    case Formulas(first, middle, last) => ["$$" + first] + (middle + [last + "$$"])
    case Rule(dashes) => [Repeat('-', dashes)]
    case Tree(tree) => ListText.Printed(0, tree)
    case Grid(titles, alignments, rows) => TableText.Printed(titles, alignments, rows)
    case Note(id, note) => ["[^" + (id + ("]" + (":" + note)))]
    case Marked(marked, _) => [marked]
  }

  function Paras(lines: seq<string>): (paras: seq<Para>)
    ensures |paras| == |lines|
  {
    seq(|lines|, k requires 0 <= k < |lines| => ParseLine(lines[k]).1)
  }

  /** What a block stands for; a paragraph with an open mark, or without text, stands for nothing. */
  function Elements(p: Part): seq<Element> {
    match p
    case Title(level, title) => [Heading(level, ParseLine(title).1)]
    case Prose(line) =>
      var (status, para) := ParseLine(line);
      if status == Paragraph.Ok && para.blocks != [] then [TextBlock(para)] else []
    case Quote(quoted) => [BlockQuote(Paras(quoted))]
    case Code(meta, code) => [CodeBlock(meta, code)]
    case Formula(formula) => [LatexBlock(formula)]
    case Formulas(first, middle, last) => [LatexBlock(Join([first] + Stripped(middle) + [last]))]
    case Rule(_) => [HorizontalRule]
    case Tree(tree) => [ItemList(List(false, ListText.ItemsOf(tree)))]
    case Grid(titles, alignments, rows) => [Table(titles, alignments, TableText.ParaRows(rows))]
    case Note(_, _) => []
    case Marked(_, element) => [element]
  }

  function Notes(p: Part): seq<(string, Para)> {
    match p
    case Note(id, note) => [(id, ParseLine(note).1)]
    case _ => []
  }

  ghost predicate Readable(line: string) {
    ParseLine(line).0 != Paragraph.PastEnd
  }

  predicate StartsBlock(c: char) {
    c in {'#', '>', '`', '-', '|', '!', '$', '[', '<'}
  }

  /** What a block needs in order to be recognized. */
  ghost predicate Proper(recognizer: Recognizer, p: Part) {
    match p
    case Title(level, title) => level > 0 && Readable(title)
    case Prose(line) => !StartsBlock(At(line, 0)) && !IsOrderedItem(line) && Readable(line)
    case Quote(quoted) => quoted != [] && forall k | 0 <= k < |quoted| :: Readable(quoted[k])
    case Code(_, code) => forall k | 0 <= k < |code| :: !IsFence(code[k])
    case Formula(formula) => formula != ""
    case Formulas(first, middle, last) =>
      && (first != "" ==> !IsSpace(first[|first| - 1])) && (last != "" ==> !IsSpace(last[0]))
      && !(|first| > 2 && first[|first| - 1] == '$' && first[|first| - 2] == '$')
      && forall k | 0 <= k < |middle| :: !ClosesFormula(middle[k])
    case Rule(dashes) => dashes >= 3
    case Tree(tree) => tree.Cons? && ListText.TextsParse(tree)
    case Grid(titles, alignments, rows) =>
      && TableText.BarFree(titles) && TableText.AllTrimmed(titles) && |alignments| == |titles|
      && forall k | 0 <= k < |rows| :: TableText.GoodRow(|titles|, rows[k])
    case Note(id, note) => id != "" && Without(id, ']') && Readable(note)
    case Marked(marked, element) =>
      || (At(marked, 0) == '!' && recognizer.image(marked) == Read(element))
      || (At(marked, 0) == '<' && recognizer.html(marked) == Read(element))
  }

  /** A list among the blocks can be recovered if its items do not dedent by more than one level. */
  predicate Recoverable(p: Part) {
    p.Tree? ==> ListText.Recoverable(p.tree)
  }

  // ---------------------------------------------------------------- one block

  /** The lines from `i` on begin with `shown`. */
  ghost predicate Stand(lines: seq<string>, i: nat, shown: seq<string>) {
    i + |shown| <= |lines| && lines[i..i + |shown|] == shown
  }

  lemma SkipRepeat(s: string, c: char, from: nat, n: nat)
    requires from <= n <= |s| && (forall k | from <= k < n :: s[k] == c) && (n < |s| ==> s[n] != c)
    ensures SkipChar(s, c, from) == n
  {
  }

  lemma TitleLine(level: nat, title: string)
    requires level > 0
    ensures var line := Repeat('#', level) + (" " + title);
            line[0] == '#' && SkipChar(line, '#', 1) == level && line[level..] == " " + title
  {
    var line := Repeat('#', level) + (" " + title);
    assert line[level] == ' ';
    SkipRepeat(line, '#', 1, level);
  }

  lemma TitleReadsBack(recognizer: Recognizer, lines: seq<string>, i: nat, level: nat, title: string)
    requires i < |lines| && lines[i] == Repeat('#', level) + (" " + title) && level > 0 && Readable(title)
    ensures Block(recognizer, lines, i) == Added(Heading(level, ParseLine(title).1), i + 1)
  {
    TitleLine(level, title);
    ListText.TextIsRead(title);
    assert Block(recognizer, lines, i) == HeadingBlock(lines, i);
  }

  lemma ProseReadsBack(recognizer: Recognizer, lines: seq<string>, i: nat)
    requires i < |lines| && Proper(recognizer, Prose(lines[i]))
    ensures Block(recognizer, lines, i) == Outcome(Ok, Elements(Prose(lines[i])), [], i + 1)
  {
    assert Block(recognizer, lines, i) == ParagraphBlock(lines, i);
  }

  lemma {:induction false} QuoteEndIs(lines: seq<string>, i: nat, end: nat)
    requires i <= end < |lines| && (forall k | i <= k < end :: At(lines[k], 0) == '>') && At(lines[end], 0) != '>'
    ensures QuoteEnd(lines, i) == end
    decreases end - i
  {
    if i < end { QuoteEndIs(lines, i + 1, end); }
  }

  lemma ParasMore(lines: seq<string>)
    requires lines != []
    ensures var n := |lines| - 1; Paras(lines) == Paras(lines[..n]) + [ParseLine(lines[n]).1]
  {
  }

  lemma {:induction false} QuoteParagraphsAre(quoted: seq<string>)
    requires forall k | 0 <= k < |quoted| :: Readable(quoted[k])
    ensures QuoteParagraphs(quoted) == (Ok, Paras(quoted))
  {
    if quoted != [] {
      var n := |quoted| - 1;
      QuoteParagraphsAre(quoted[..n]);
      assert Readable(quoted[n]);
      ParasMore(quoted);
    }
  }

  lemma QuoteStands(lines: seq<string>, i: nat, quoted: seq<string>)
    requires quoted != [] && Stand(lines, i, QuoteLines(quoted) + [""])
    ensures QuoteEnd(lines, i) == i + |quoted| < |lines| && Unquoted(lines[i..i + |quoted|]) == quoted
    ensures At(lines[i], 0) == '>'
  {
    var end := i + |quoted|;
    var shown := QuoteLines(quoted) + [""];
    assert forall k | i <= k < end :: lines[k] == shown[k - i] == ">" + quoted[k - i];
    assert lines[end] == shown[|quoted|];
    QuoteEndIs(lines, i, end);
  }

  lemma QuoteIsRead(lines: seq<string>, i: nat, quoted: seq<string>)
    requires quoted != [] && (forall k | 0 <= k < |quoted| :: Readable(quoted[k]))
    requires Stand(lines, i, QuoteLines(quoted) + [""])
    ensures QuoteBlock(lines, i) == Added(BlockQuote(Paras(quoted)), i + |quoted|) && At(lines[i], 0) == '>'
  {
    QuoteStands(lines, i, quoted);
    QuoteParagraphsAre(quoted);
  }

  lemma QuoteReadsBack(recognizer: Recognizer, lines: seq<string>, i: nat, quoted: seq<string>)
    requires Proper(recognizer, Quote(quoted)) && Stand(lines, i, QuoteLines(quoted) + [""])
    ensures Block(recognizer, lines, i) == Added(BlockQuote(Paras(quoted)), i + |quoted|)
  {
    QuoteIsRead(lines, i, quoted);
  }

  lemma {:induction false} FindFenceIs(lines: seq<string>, i: nat, end: nat)
    requires i <= end < |lines| && (forall k | i <= k < end :: !IsFence(lines[k])) && IsFence(lines[end])
    ensures FindFence(lines, i) == end
    decreases end - i
  {
    if i < end { FindFenceIs(lines, i + 1, end); }
  }

  lemma CodeReadsBack(recognizer: Recognizer, lines: seq<string>, i: nat, meta: string, code: seq<string>)
    requires Proper(recognizer, Code(meta, code)) && Stand(lines, i, Lines(Code(meta, code)))
    ensures Block(recognizer, lines, i) == Added(CodeBlock(meta, code), i + |code| + 2)
  {
    var end := i + 1 + |code|;
    var shown := Lines(Code(meta, code));
    assert lines[i] == shown[0] && lines[end] == shown[|code| + 1];
    assert forall k | i < k < end :: lines[k] == shown[k - i] == code[k - i - 1];
    assert lines[i + 1..end] == code && lines[i][3..] == meta;
    FindFenceIs(lines, i + 1, end);
    assert Block(recognizer, lines, i) == FencedBlock(lines, i);
  }

  lemma StripTrimmed(s: string)
    requires Trimmed(s)
    ensures Strip(s) == s
  {
  }

  lemma FormulaReadsBack(recognizer: Recognizer, lines: seq<string>, i: nat, formula: string)
    requires i < |lines| && lines[i] == "$$" + (formula + "$$") && formula != ""
    ensures Block(recognizer, lines, i) == Added(LatexBlock(formula), i + 1)
  {
    var line := lines[i];
    StripTrimmed(line);
    assert line[2..|line| - 2] == formula;
    DollarStartsFormula(recognizer, lines, i);
  }

  lemma {:induction false} FindFormulaEndIs(lines: seq<string>, i: nat, end: nat)
    requires i <= end < |lines| && (forall k | i <= k < end :: !ClosesFormula(lines[k])) && ClosesFormula(lines[end])
    ensures FindFormulaEnd(lines, i) == end
    decreases end - i
  {
    if i < end { FindFormulaEndIs(lines, i + 1, end); }
  }

  lemma FormulaEnds(last: string)
    requires last != "" ==> !IsSpace(last[0])
    ensures Strip(last + "$$") == last + "$$" && ClosesFormula(last + "$$") && (last + "$$")[..|last|] == last
  {
    var s := last + "$$";
    assert s[|s| - 1] == '$' && s[|s| - 2] == '$' && (last != "" ==> s[0] == last[0]);
    assert Trimmed(s);
    StripTrimmed(s);
    assert s[..|last|] == last;
  }

  lemma FormulasStand(lines: seq<string>, i: nat, first: string, middle: seq<string>, last: string)
    requires Stand(lines, i, Lines(Formulas(first, middle, last)))
    requires forall k | 0 <= k < |middle| :: !ClosesFormula(middle[k])
    requires last != "" ==> !IsSpace(last[0])
    ensures var end := i + 1 + |middle|;
            && end < |lines| && lines[i] == "$$" + first && lines[end] == last + "$$" && lines[i + 1..end] == middle
            && FindFormulaEnd(lines, i + 1) == end
  {
    var end := i + 1 + |middle|;
    var shown := Lines(Formulas(first, middle, last));
    assert lines[i] == shown[0] && lines[end] == shown[|middle| + 1];
    assert forall k | i < k < end :: lines[k] == shown[k - i] == middle[k - i - 1];
    FormulaEnds(last);
    FindFormulaEndIs(lines, i + 1, end);
  }

  /** The first line of a formula on several lines does not end it. */
  lemma FormulaBegins(first: string)
    requires first != "" ==> !IsSpace(first[|first| - 1])
    requires !(|first| > 2 && first[|first| - 1] == '$' && first[|first| - 2] == '$')
    ensures var v := "$$" + first;
            && Strip(v) == v && v[2..] == first
            && !(|v| > 4 && v[|v| - 1] == '$' && v[|v| - 2] == '$')
  {
    var v := "$$" + first;
    assert v[0] == '$' && v[1] == '$' && (first != "" ==> v[|v| - 1] == first[|first| - 1]);
    assert |first| > 2 ==> v[|v| - 2] == first[|first| - 2];
    StripTrimmed(v);
  }

  /** A formula on several lines, from its first and last line without blanks. */
  lemma FormulaOver(lines: seq<string>, i: nat, v: string, end: nat, w: string)
    requires i < end < |lines| && Strip(lines[i]) == v && FindFormulaEnd(lines, i + 1) == end && Strip(lines[end]) == w
    requires |v| >= 2 && v[0] == '$' && v[1] == '$' && !(|v| > 4 && v[|v| - 1] == '$' && v[|v| - 2] == '$')
    requires |w| >= 2
    ensures FormulaBlock(lines, i)
              == Added(LatexBlock(Join([v[2..]] + Stripped(lines[i + 1..end]) + [w[..|w| - 2]])), end + 1)
  {
  }

  lemma DollarStartsFormula(recognizer: Recognizer, lines: seq<string>, i: nat)
    requires i < |lines| && At(lines[i], 0) == '$'
    ensures Block(recognizer, lines, i) == FormulaBlock(lines, i)
  {
  }

  lemma FormulasAreRead(lines: seq<string>, i: nat, first: string, middle: seq<string>, last: string, end: nat)
    requires end == i + 1 + |middle| < |lines| && FindFormulaEnd(lines, i + 1) == end
    requires lines[i] == "$$" + first && lines[end] == last + "$$" && lines[i + 1..end] == middle
    requires (first != "" ==> !IsSpace(first[|first| - 1])) && (last != "" ==> !IsSpace(last[0]))
    requires !(|first| > 2 && first[|first| - 1] == '$' && first[|first| - 2] == '$')
    ensures FormulaBlock(lines, i) == Added(LatexBlock(Join([first] + Stripped(middle) + [last])), end + 1)
  {
    FormulaBegins(first);
    FormulaEnds(last);
    FormulaOver(lines, i, "$$" + first, end, last + "$$");
  }

  lemma FormulasReadBack(recognizer: Recognizer, lines: seq<string>, i: nat, first: string, middle: seq<string>,
                         last: string)
    requires Proper(recognizer, Formulas(first, middle, last))
    requires Stand(lines, i, Lines(Formulas(first, middle, last)))
    ensures Block(recognizer, lines, i)
              == Added(LatexBlock(Join([first] + Stripped(middle) + [last])), i + |middle| + 2)
  {
    FormulasStand(lines, i, first, middle, last);
    FormulasAreRead(lines, i, first, middle, last, i + 1 + |middle|);
    DollarStartsFormula(recognizer, lines, i);
  }

  lemma RuleReadsBack(recognizer: Recognizer, lines: seq<string>, i: nat, dashes: nat)
    requires i < |lines| && lines[i] == Repeat('-', dashes) && dashes >= 3
    ensures Block(recognizer, lines, i) == Added(HorizontalRule, i + 1)
  {
    SkipRepeat(lines[i], '-', 0, dashes);
    assert Block(recognizer, lines, i) == DashBlock(lines, i);
  }

  lemma NoteLine(id: string, note: string)
    requires id != "" && Without(id, ']')
    ensures var line := "[^" + (id + ("]" + (":" + note)));
            var close := |id| + 2;
            && |line| >= 4 && line[0] == '[' && line[1] == '^' && Find(line, ']', 2) == close
            && close + 1 < |line| && line[close + 1] == ':' && line[2..close] == id && line[close + 2..] == note
  {
    var line := "[^" + (id + ("]" + (":" + note)));
    var close := |id| + 2;
    assert line[close] == ']';
    assert forall k | 2 <= k < close :: line[k] == id[k - 2];
    FindIs(line, ']', 2, close);
  }

  lemma NoteBlock(lines: seq<string>, i: nat, id: string, note: string)
    requires i < |lines| && lines[i] == "[^" + (id + ("]" + (":" + note)))
    requires id != "" && Without(id, ']') && Readable(note)
    ensures FootnoteBlock(lines, i) == Outcome(Ok, [], [(id, ParseLine(note).1)], i + 1)
  {
    NoteLine(id, note);
  }

  lemma NoteReadsBack(recognizer: Recognizer, lines: seq<string>, i: nat, id: string, note: string)
    requires i < |lines| && lines[i] == "[^" + (id + ("]" + (":" + note)))
    requires id != "" && Without(id, ']') && Readable(note)
    ensures Block(recognizer, lines, i) == Outcome(Ok, [], [(id, ParseLine(note).1)], i + 1)
  {
    NoteBlock(lines, i, id, note);
    assert At(lines[i], 0) == '[';
  }

  lemma MarkedReadsBack(recognizer: Recognizer, lines: seq<string>, i: nat, element: Element)
    requires i < |lines| && Proper(recognizer, Marked(lines[i], element))
    ensures Block(recognizer, lines, i) == Added(element, i + 1)
  {
    var line := lines[i];
    var reading := if At(line, 0) == '!' then recognizer.image(line) else recognizer.html(line);
    assert Block(recognizer, lines, i) == SingleLineBlock(reading, lines, i);
  }

  // ---------------------------------------------------------------- blocks one after the other

  /** A document: an empty line behind each block. */
  function Printed(doc: seq<Part>): seq<string> {
    if doc == [] then [] else Lines(doc[0]) + ([""] + Printed(doc[1..]))
  }

  function AllElements(doc: seq<Part>): seq<Element> {
    if doc == [] then [] else Elements(doc[0]) + AllElements(doc[1..])
  }

  function AllNotes(doc: seq<Part>): seq<(string, Para)> {
    if doc == [] then [] else Notes(doc[0]) + AllNotes(doc[1..])
  }

  function Meant(p: Part, i: nat): Outcome {
    Outcome(Ok, Elements(p), Notes(p), i + |Lines(p)|)
  }

  /** The block is read back, or it is a list that cannot be recovered, and becomes another one. */
  ghost predicate ReadsBack(o: Outcome, p: Part, i: nat) {
    if Recoverable(p) then o == Meant(p, i) else |o.elements| == 1 == |Elements(p)| && o.elements != Elements(p)
  }

  lemma TreeReadsBack(recognizer: Recognizer, before: seq<string>, tree: ListText.Tree, after: seq<string>)
    requires Proper(recognizer, Tree(tree)) && after != [] && after[0] == ""
    ensures ReadsBack(Block(recognizer, before + (Lines(Tree(tree)) + after), |before|), Tree(tree), |before|)
  {
    var i := |before|;
    var lines, end := before + (ListText.Printed(0, tree) + after), i + ListText.Size(tree);
    ListText.PrintedStands(before, 0, tree, after);
    assert lines[end] == "";
    ListText.ListIsTold(lines, i, 0, tree, end);
    ListText.DashStartsList(recognizer, lines, i, tree.text);
  }

  lemma GridReadsBack(recognizer: Recognizer, before: seq<string>, p: Part, after: seq<string>)
    requires Proper(recognizer, p) && p.Grid? && after != [] && after[0] == ""
    ensures Block(recognizer, before + (Lines(p) + after), |before|) == Meant(p, |before|)
  {
    TableText.TableRoundTrip(recognizer, before, p.titles, p.alignments, p.rows, after);
  }

  lemma Standing(before: seq<string>, shown: seq<string>, after: seq<string>)
    requires after != [] && after[0] == ""
    ensures var lines := before + (shown + after);
            Stand(lines, |before|, shown) && Stand(lines, |before|, shown + [""])
    ensures shown != [] ==> (before + (shown + after))[|before|] == shown[0]
  {
  }

  lemma PartReadsBack(recognizer: Recognizer, before: seq<string>, p: Part, after: seq<string>)
    requires Proper(recognizer, p) && after != [] && after[0] == ""
    ensures ReadsBack(Block(recognizer, before + (Lines(p) + after), |before|), p, |before|)
  {
    var lines, i := before + (Lines(p) + after), |before|;
    Standing(before, Lines(p), after);
    match p
    case Title(level, title) => TitleReadsBack(recognizer, lines, i, level, title);
    case Prose(line) => ProseReadsBack(recognizer, lines, i);
    case Quote(quoted) => QuoteReadsBack(recognizer, lines, i, quoted);
    case Code(meta, code) => CodeReadsBack(recognizer, lines, i, meta, code);
    case Formula(formula) => FormulaReadsBack(recognizer, lines, i, formula);
    case Formulas(first, middle, last) => FormulasReadBack(recognizer, lines, i, first, middle, last);
    case Rule(dashes) => RuleReadsBack(recognizer, lines, i, dashes);
    case Tree(tree) => TreeReadsBack(recognizer, before, tree, after);
    case Grid(_, _, _) => GridReadsBack(recognizer, before, p, after);
    case Note(id, note) => NoteReadsBack(recognizer, lines, i, id, note);
    case Marked(_, element) => MarkedReadsBack(recognizer, lines, i, element);
  }

  lemma EmptyLine(recognizer: Recognizer, lines: seq<string>, i: nat)
    requires i < |lines| && lines[i] == ""
    ensures Block(recognizer, lines, i) == Outcome(Ok, [], [], i + 1)
  {
    assert ParseLine("") == (Paragraph.Ok, Para("justify", []));
    ProseReadsBack(recognizer, lines, i);
  }

  /** A block in front of the rest of the document. */
  function Joined(o: Outcome, more: Outcome): Outcome {
    Outcome(more.verdict, o.elements + more.elements, o.notes + more.notes, more.next)
  }

  /** The document from line `i` on. */
  datatype Reading = Reading(recognizer: Recognizer, lines: seq<string>, i: nat, outcome: Outcome)

  type Tail = t: Reading | t.i <= |t.lines| && t.outcome == Document(t.recognizer, t.lines, t.i)
    ghost witness Reading(Recognizer(_ => Malformed, _ => Malformed), [], 0, Outcome(Ok, [], [], 0))

  function TailAt(recognizer: Recognizer, lines: seq<string>, i: nat): (t: Tail)
    requires i <= |lines|
  {
    Reading(recognizer, lines, i, Document(recognizer, lines, i))
  }

  lemma DocumentFirst(d: Tail, o: Outcome) returns (more: Tail)
    requires d.i < |d.lines| && o == Block(d.recognizer, d.lines, d.i)
    ensures d.outcome == if o.verdict == Ok then Joined(o, more.outcome) else o
    ensures o.verdict == Ok ==> more.recognizer == d.recognizer && more.lines == d.lines && more.i == o.next
  {
    BlockAdvances(d.recognizer, d.lines, d.i);
    more := if o.verdict == Ok then TailAt(d.recognizer, d.lines, o.next) else d;
  }

  lemma AfterEmptyLine(d: Tail) returns (e: Tail)
    requires d.i < |d.lines| && d.lines[d.i] == ""
    ensures e.outcome == d.outcome && e.recognizer == d.recognizer && e.lines == d.lines && e.i == d.i + 1
  {
    EmptyLine(d.recognizer, d.lines, d.i);
    e := DocumentFirst(d, Outcome(Ok, [], [], d.i + 1));
    assert [] + e.outcome.elements == e.outcome.elements && [] + e.outcome.notes == e.outcome.notes;
  }

  /** The document `d`, with a block that stands for `es` and `notes` first, and `e` the document after it. */
  ghost predicate Begins(d: Outcome, recoverable: bool, es: seq<Element>, notes: seq<(string, Para)>, e: Outcome) {
    if recoverable then d == Outcome(e.verdict, es + e.elements, notes + e.notes, e.next)
    else d.verdict != Ok || (|es| == 1 && d.elements != [] && [d.elements[0]] != es)
  }

  lemma JoinedBegins(o: Outcome, more: Outcome, recoverable: bool, es: seq<Element>, notes: seq<(string, Para)>,
                     next: nat, e: Outcome)
    requires if recoverable then o == Outcome(Ok, es, notes, next) && e == more
             else |o.elements| == 1 == |es| && o.elements != es
    ensures Begins(if o.verdict == Ok then Joined(o, more) else o, recoverable, es, notes, e)
  {
    if !recoverable {
      assert [o.elements[0]] == o.elements && (o.elements + more.elements)[0] == o.elements[0];
    }
  }

  lemma SplitAt(lines: seq<string>, i: nat, shown: seq<string>, after: seq<string>)
    requires i <= |lines| && lines[i..] == shown + ([""] + after)
    ensures lines == lines[..i] + (shown + ([""] + after))
    ensures var mid := i + |shown|; mid < |lines| && lines[mid] == "" && lines[mid + 1..] == after
  {
    assert lines[i + |shown|] == lines[i..][|shown|];
    assert lines[i + |shown| + 1..] == lines[i..][|shown| + 1..];
  }

  /** What a block is read as, and the document behind it. */
  lemma BlockFirst(d: Tail, p: Part, after: seq<string>) returns (o: Outcome, more: Tail)
    requires Proper(d.recognizer, p) && after != [] && after[0] == ""
    requires d.lines == d.lines[..d.i] + (Lines(p) + after)
    ensures ReadsBack(o, p, d.i) && d.outcome == if o.verdict == Ok then Joined(o, more.outcome) else o
    ensures o.verdict == Ok ==> more.recognizer == d.recognizer && more.lines == d.lines && more.i == o.next
  {
    PartReadsBack(d.recognizer, d.lines[..d.i], p, after);
    o := Block(d.recognizer, d.lines, d.i);
    more := DocumentFirst(d, o);
  }

  lemma AfterBlock(d: Tail, o: Outcome, more: Tail, recoverable: bool, es: seq<Element>, notes: seq<(string, Para)>,
                   mid: nat) returns (e: Tail)
    requires d.outcome == if o.verdict == Ok then Joined(o, more.outcome) else o
    requires o.verdict == Ok ==> more.recognizer == d.recognizer && more.lines == d.lines && more.i == o.next
    requires if recoverable then o == Outcome(Ok, es, notes, mid)
             else |o.elements| == 1 == |es| && o.elements != es
    requires mid < |d.lines| && d.lines[mid] == ""
    ensures e.recognizer == d.recognizer && e.lines == d.lines && e.i == mid + 1
    ensures Begins(d.outcome, recoverable, es, notes, e.outcome)
  {
    e := if recoverable then more else TailAt(d.recognizer, d.lines, mid + 1);
    JoinedBegins(o, more.outcome, recoverable, es, notes, mid, e.outcome);
    if recoverable { e := AfterEmptyLine(more); }
  }

  /** After a block and the empty line behind it, the document goes on with the rest. */
  lemma DocumentStep(d: Tail, p: Part, rest: seq<string>) returns (e: Tail)
    requires Proper(d.recognizer, p) && d.lines[d.i..] == Lines(p) + ([""] + rest)
    ensures e.recognizer == d.recognizer && e.lines == d.lines && e.lines[e.i..] == rest
    ensures Begins(d.outcome, Recoverable(p), Elements(p), Notes(p), e.outcome)
  {
    SplitAt(d.lines, d.i, Lines(p), rest);
    var o, more := BlockFirst(d, p, [""] + rest);
    e := AfterBlock(d, o, more, Recoverable(p), Elements(p), Notes(p), d.i + |Lines(p)|);
  }

  lemma OneApart<T>(x: seq<T>, s: seq<T>, d: seq<T>)
    requires |x| == 1 && d != [] && [d[0]] != x
    ensures d != x + s
  {
    assert [(x + s)[0]] == x;
  }

  ghost predicate AllRecoverable(doc: seq<Part>) {
    forall k | 0 <= k < |doc| :: Recoverable(doc[k])
  }

  lemma FirstOf(doc: seq<Part>, d: Outcome, e: Outcome, end: nat)
    requires doc != [] && Begins(d, Recoverable(doc[0]), Elements(doc[0]), Notes(doc[0]), e)
    requires e == Outcome(Ok, AllElements(doc[1..]), AllNotes(doc[1..]), end) <==> AllRecoverable(doc[1..])
    ensures d == Outcome(Ok, AllElements(doc), AllNotes(doc), end) <==> AllRecoverable(doc)
  {
    var p, rest := doc[0], doc[1..];
    assert forall k | 0 < k < |doc| :: doc[k] == rest[k - 1];
    if Recoverable(p) {
      assert d.elements[|Elements(p)|..] == e.elements && d.notes[|Notes(p)|..] == e.notes;
      assert AllElements(doc)[|Elements(p)|..] == AllElements(rest) && AllNotes(doc)[|Notes(p)|..] == AllNotes(rest);
    } else if d.verdict == Ok {
      OneApart(Elements(p), AllElements(rest), d.elements);
    }
  }

  lemma {:induction false} DocumentIsRead(d: Tail, doc: seq<Part>)
    requires d.lines[d.i..] == Printed(doc) && forall k | 0 <= k < |doc| :: Proper(d.recognizer, doc[k])
    ensures d.outcome == Outcome(Ok, AllElements(doc), AllNotes(doc), |d.lines|) <==> AllRecoverable(doc)
    decreases |doc|
  {
    if doc != [] {
      var e := DocumentStep(d, doc[0], Printed(doc[1..]));
      DocumentIsRead(e, doc[1..]);
      FirstOf(doc, d.outcome, e.outcome, |d.lines|);
    }
  }

  /** Blocks of any kinds, printed with an empty line behind each, parse back to just their elements and
      footnotes, in order, if and only if every list among them can be recovered. */
  lemma DocumentRoundTrip(recognizer: Recognizer, before: seq<string>, doc: seq<Part>)
    requires forall k | 0 <= k < |doc| :: Proper(recognizer, doc[k])
    ensures var lines := before + Printed(doc);
            Document(recognizer, lines, |before|) == Outcome(Ok, AllElements(doc), AllNotes(doc), |lines|)
            <==> forall k | 0 <= k < |doc| :: Recoverable(doc[k])
  {
    var lines := before + Printed(doc);
    assert lines[|before|..] == Printed(doc);
    DocumentIsRead(TailAt(recognizer, lines, |before|), doc);
  }
}
