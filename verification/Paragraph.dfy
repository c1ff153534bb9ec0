/** One line of a paragraph: inline code, formulas, links, footnote references and runs of text. */
module Paragraph {
  import opened Basics
  import opened Text
  import Emphasis

  /** What stands in the source: the raw contents of one block. */
  datatype Span =
    | Run(raw: string)
    | Code(code: string)
    | Latex(formula: string)
    | Link(text: string, uri: string)
    | FootnoteRef(id: string)

  /** What a paragraph holds: a run of text is kept as HTML. */
  datatype Block =
    | Plain(html: string)
    | InlineCode(code: string)
    | InlineLatex(formula: string)
    | InlineLink(text: string, uri: string)
    | InlineFootnoteRef(id: string)

  function Rendered(span: Span): Block {
    match span
    case Run(raw) => Plain(Emphasis.Html(Emphasis.Tokens(raw, []).0))
    case Code(code) => InlineCode(code)
    case Latex(formula) => InlineLatex(formula)
    case Link(text, uri) => InlineLink(text, uri)
    case FootnoteRef(id) => InlineFootnoteRef(id)
  }

  function Blocks(spans: seq<Span>): (blocks: seq<Block>)
    ensures |blocks| == |spans|
  {
    seq(|spans|, i requires 0 <= i < |spans| => Rendered(spans[i]))
  }

  /** The source text of a block. */
  function Printed(span: Span): string {
    match span
    case Run(raw) => raw
    case Code(code) => "`" + (code + "`")
    case Latex(formula) => "$" + (formula + "$")
    case Link(text, uri) => "[" + (text + ("](" + (uri + ")")))
    case FootnoteRef(id) => "[^" + (id + "]")
  }

  function Closer(span: Span): string {
    match span
    case Run(_) => ""
    case Code(_) => "`"
    case Latex(_) => "$"
    case Link(_, _) => ")"
    case FootnoteRef(_) => "]"
  }

  /** The outcome of one step: parsed; an emphasis mark left open, or no footnote name; or a read
      beyond the end of the line, after which nothing is known. */
  datatype Status = Ok | Illegal | PastEnd

  datatype Step = Step(status: Status, spans: seq<Span>, next: nat)

  // ---------------------------------------------------------------- specification

  predicate Special(c: char) {
    c == '`' || c == '$' || c == '['
  }

  function NextSpecial(line: string, from: nat): (r: nat)
    requires from <= |line|
    ensures from <= r <= |line|
    ensures r < |line| ==> Special(line[r])
    ensures forall k | from <= k < r :: !Special(line[k])
    decreases |line| - from
  {
    if from == |line| || Special(line[from]) then from else NextSpecial(line, from + 1)
  }

  predicate Closed(raw: string) {
    Emphasis.Tokens(raw, []).1 == []
  }

  function TextAt(line: string, start: nat): (r: Step)
    requires start < |line|
    ensures r.next > start
  {
    var next := NextSpecial(line, start + 1);
    Step(if Closed(line[start..next]) then Ok else Illegal, [Run(line[start..next])], next)
  }

  function CodeAt(line: string, start: nat): (r: Step)
    requires start < |line|
    ensures r.next > start
  {
    var close := Find(line, '`', start + 1);
    Step(Ok, [Code(line[start + 1..close])], close + 1)
  }

  function LatexAt(line: string, start: nat): (r: Step)
    requires start < |line|
    ensures r.next > start
  {
    var close := Find(line, '$', start + 1);
    Step(Ok, [Latex(line[start + 1..close])], close + 1)
  }

  function FootnoteAt(line: string, start: nat): (r: Step)
    requires start < |line|
    ensures r.status == Ok ==> r.next > start
  {
    var close := Find(line, ']', start);
    if close == start then Step(Illegal, [], 0) else Step(Ok, [FootnoteRef(line[start..close])], close + 1)
  }

  predicate IsLink(line: string, start: nat)
    requires start < |line|
  {
    var close := Find(line, ']', start + 1);
    close < |line| - 3 && line[close + 1] == '('
  }

  /** Lines of fewer than three characters make the bound `size() - 3` wrap around, and are read past
      their end. */
  function PlainLinkAt(line: string, start: nat): (r: Step)
    requires start < |line|
    ensures r.status == Ok ==> r.next > start
  {
    if |line| < 3 then Step(PastEnd, [], 0)
    else if !IsLink(line, start) then TextAt(line, start)
    else
      var close := Find(line, ']', start + 1);
      var end := Find(line, ')', close + 1);
      Step(Ok, [Link(line[start + 1..close], line[close + 2..end])], end + 1)
  }

  function LinkAt(line: string, start: nat): (r: Step)
    requires start < |line|
    ensures r.status == Ok ==> r.next > start
  {
    if start + 1 < |line| && line[start + 1] == '^' then
      if start + 2 == |line| then Step(PastEnd, [], 0)
      else
        var footnote := FootnoteAt(line, start + 2);
        if footnote.status == Ok then footnote else PlainLinkAt(line, start)
    else PlainLinkAt(line, start)
  }

  function StepAt(line: string, start: nat): (r: Step)
    requires start < |line|
    ensures r.status == Ok ==> r.next > start
  {
    match line[start]
    case '`' => CodeAt(line, start)
    case '$' => LatexAt(line, start)
    case '[' => LinkAt(line, start)
    case _ => TextAt(line, start)
  }

  /** The rest of the line from `idx` on. */
  function Scan(line: string, idx: nat): (r: (Status, seq<Span>))
    decreases |line| - idx
  {
    if idx >= |line| then (Ok, [])
    else
      var step := StepAt(line, idx);
      if step.status != Ok then (step.status, step.spans)
      else var (status, rest) := Scan(line, step.next); (status, step.spans + rest)
  }

  /** The alignment a line asks for. */
  function Prefix(line: string): Option<string> {
    if |line| > 2 && line[0] == '\\' then
      match line[1]
      case 'L' => Some("left")
      case 'C' => Some("center")
      case 'R' => Some("right")
      case _ => None
    else None
  }

  /** Where the blocks of a stripped line begin. */
  function Begin(line: string): nat {
    if Prefix(line).Some? then 2 else 0
  }

  // ---------------------------------------------------------------- implementation

  datatype LineParseResult = LineParseResult(status: Status, nextPos: nat)

  class ParagraphElement {
    var textAlign: string
    var blocks: seq<Block>

    constructor ()
      ensures textAlign == "justify" && blocks == []
    {
      textAlign := "justify";
      blocks := [];
    }

    method TryParseText(line: string, start: nat) returns (pr: LineParseResult)
      requires start < |line|
      modifies this`blocks
      ensures Reports(TextAt(line, start), pr, old(blocks), blocks)
    {
      var idx := start + 1;
      while idx < |line| && !Special(line[idx])
        invariant start < idx <= |line|
        invariant NextSpecial(line, idx) == NextSpecial(line, start + 1)
      {
        idx := idx + 1;
      }
      var html, closed := Emphasis.Replace(line[start..idx]);
      blocks := blocks + [Plain(html)];
      return LineParseResult(if closed then Ok else Illegal, idx);
    }

    method TryParseCode(line: string, start: nat) returns (pr: LineParseResult)
      requires start < |line|
      modifies this`blocks
      ensures Reports(CodeAt(line, start), pr, old(blocks), blocks)
    {
      var idx := FindMethod(line, '`', start + 1);
      if idx == |line| - 1 && line[idx] != '`' {
        assert false;
      }
      blocks := blocks + [InlineCode(line[start + 1..idx])];
      return LineParseResult(Ok, idx + 1);
    }

    method TryParseInlineLatex(line: string, start: nat) returns (pr: LineParseResult)
      requires start < |line|
      modifies this`blocks
      ensures Reports(LatexAt(line, start), pr, old(blocks), blocks)
    {
      var idx := FindMethod(line, '$', start + 1);
      if idx == |line| - 1 && line[idx] != '$' {
        assert false;
      }
      blocks := blocks + [InlineLatex(line[start + 1..idx])];
      return LineParseResult(Ok, idx + 1);
    }

    method TryParseFootnoteRef(line: string, start: nat) returns (pr: LineParseResult)
      requires start < |line|
      modifies this`blocks
      ensures Reports(FootnoteAt(line, start), pr, old(blocks), blocks)
    {
      var idx := FindMethod(line, ']', start);
      if idx == start {
        return LineParseResult(Illegal, 0);
      }
      blocks := blocks + [InlineFootnoteRef(line[start..idx])];
      return LineParseResult(Ok, idx + 1);
    }

    method TryParseLink(line: string, start: nat) returns (pr: LineParseResult)
      requires start < |line|
      modifies this`blocks
      ensures Reports(LinkAt(line, start), pr, old(blocks), blocks)
    {
      var idx := start + 1;
      if idx < |line| {
        if line[idx] == '^' {
          if idx + 1 == |line| {
            return LineParseResult(PastEnd, 0);
          }
          pr := TryParseFootnoteRef(line, idx + 1);
          if pr.status == Ok {
            return;
          }
        }
      }
      assert LinkAt(line, start) == PlainLinkAt(line, start);
      pr := TryParsePlainLink(line, start, idx);
    }

    method TryParsePlainLink(line: string, start: nat, from: nat) returns (pr: LineParseResult)
      requires start < |line| && from == start + 1
      modifies this`blocks
      ensures Reports(PlainLinkAt(line, start), pr, old(blocks), blocks)
    {
      var idx := FindMethod(line, ']', from);
      if |line| < 3 {
        return LineParseResult(PastEnd, 0);
      }
      if idx >= |line| - 3 || line[idx + 1] != '(' {
        pr := TryParseText(line, start);
        return;
      }
      var linkText := line[start + 1..idx];
      idx := idx + 1;
      var linkUrlStart := idx;
      idx := FindMethod(line, ')', idx);
      if idx == |line| - 1 && line[idx] != ')' {
        assert false;
      }
      var linkUri := line[linkUrlStart + 1..idx];
      blocks := blocks + [InlineLink(linkText, linkUri)];
      return LineParseResult(Ok, idx + 1);
    }

    /** Adds the blocks of one line; false when an emphasis mark stays open. */
    method ParseParagraph(line: string) returns (status: Status)
      modifies this
      ensures status == Scan(Strip(line), Begin(Strip(line))).0
      ensures blocks == old(blocks) + Blocks(Scan(Strip(line), Begin(Strip(line))).1)
      ensures textAlign == (match Prefix(Strip(line)) case Some(align) => align case None => old(textAlign))
    {
      var cleanLineView := ViewStripEmpty(line);
      if cleanLineView == "" {
        return Ok;
      }
      var idx := 0;
      if cleanLineView[idx] == '\\' && |cleanLineView| > 2 {
        match cleanLineView[idx + 1] {
          case 'L' => textAlign := "left"; idx := idx + 2;
          case 'C' => textAlign := "center"; idx := idx + 2;
          case 'R' => textAlign := "right"; idx := idx + 2;
          case _ =>
        }
      }
      assert idx == Begin(cleanLineView);
      status := Ok;
      while idx < |cleanLineView|
        invariant status == Ok
        invariant textAlign == (match Prefix(Strip(line)) case Some(align) => align case None => old(textAlign))
        invariant Continues(cleanLineView, old(blocks), blocks, idx)
        decreases |cleanLineView| - idx
      {
        var pr;
        ghost var was := blocks;
        match cleanLineView[idx] {
          case '`' => pr := TryParseCode(cleanLineView, idx);
          case '$' => pr := TryParseInlineLatex(cleanLineView, idx);
          case '[' => pr := TryParseLink(cleanLineView, idx);
          case _ => pr := TryParseText(cleanLineView, idx);
        }
        ContinueAfter(cleanLineView, old(blocks), was, blocks, idx, pr);
        if pr.status != Ok {
          return pr.status;
        }
        idx := pr.nextPos;
      }
    }
  }

  ghost predicate Reports(step: Step, pr: LineParseResult, was: seq<Block>, now: seq<Block>) {
    pr == LineParseResult(step.status, step.next) && now == was + Blocks(step.spans)
  }

  /** With `now` collected so far, the scan from `idx` completes the scan of the whole line. */
  ghost predicate Continues(line: string, was: seq<Block>, now: seq<Block>, idx: nat) {
    var (status, spans) := Scan(line, Begin(line));
    status == Scan(line, idx).0 && was + Blocks(spans) == now + Blocks(Scan(line, idx).1)
  }

  lemma BlocksAppend(now: seq<Block>, a: seq<Span>, b: seq<Span>)
    ensures now + Blocks(a + b) == (now + Blocks(a)) + Blocks(b)
  {
  }

  lemma ScanFirst(line: string, idx: nat)
    requires idx < |line|
    ensures var step := StepAt(line, idx);
            Scan(line, idx) == if step.status != Ok then (step.status, step.spans)
                               else (Scan(line, step.next).0, step.spans + Scan(line, step.next).1)
  {
  }

  lemma ContinueAfter(line: string, was: seq<Block>, now: seq<Block>, then': seq<Block>, idx: nat, pr: LineParseResult)
    requires idx < |line| && Continues(line, was, now, idx) && Reports(StepAt(line, idx), pr, now, then')
    ensures if pr.status == Ok then Continues(line, was, then', pr.nextPos)
            else Scan(line, Begin(line)).0 == pr.status && was + Blocks(Scan(line, Begin(line)).1) == then'
  {
    var step, whole := StepAt(line, idx), Scan(line, Begin(line));
    ScanFirst(line, idx);
    BlocksAppend(now, step.spans, Scan(line, step.next).1);
  }

  // ---------------------------------------------------------------- the blocks tile the line

  function Source(spans: seq<Span>): string {
    if spans == [] then "" else Printed(spans[0]) + Source(spans[1..])
  }

  /** The span is the text from `start` to `next`, except for a closing delimiter the line lacks. */
  ghost predicate Covers(line: string, start: nat, span: Span, next: nat)
    requires start <= |line|
  {
    || (start < next <= |line| && Printed(span) == line[start..next])
    || (next == |line| + 1 && Printed(span) == line[start..] + Closer(span) && Closer(span) != "")
  }

  lemma TextCovers(line: string, start: nat)
    requires start < |line|
    ensures Covers(line, start, TextAt(line, start).spans[0], TextAt(line, start).next)
  {
  }

  lemma Delimited(line: string, start: nat, open: char, inner: string, end: nat, close: char)
    requires start < end <= |line| && line[start] == open && line[start + 1..end] == inner
    requires end < |line| ==> line[end] == close
    ensures [open] + (inner + [close]) == if end < |line| then line[start..end + 1] else line[start..] + [close]
  {
  }

  lemma CodeCovers(line: string, start: nat)
    requires start < |line| && line[start] == '`'
    ensures Covers(line, start, CodeAt(line, start).spans[0], CodeAt(line, start).next)
  {
    var close := Find(line, '`', start + 1);
    Delimited(line, start, '`', line[start + 1..close], close, '`');
  }

  lemma LatexCovers(line: string, start: nat)
    requires start < |line| && line[start] == '$'
    ensures Covers(line, start, LatexAt(line, start).spans[0], LatexAt(line, start).next)
  {
    var close := Find(line, '$', start + 1);
    Delimited(line, start, '$', line[start + 1..close], close, '$');
  }

  lemma Extend(line: string, start: nat, mid: nat, end: nat, a: string, b: string, close: string)
    requires start <= mid <= end <= |line| && line[start..mid] == a
    requires b == if end < |line| then line[mid..end + 1] else line[mid..] + close
    ensures a + b == if end < |line| then line[start..end + 1] else line[start..] + close
  {
  }

  lemma FootnoteCovers(line: string, start: nat)
    requires start + 2 < |line| && line[start] == '[' && line[start + 1] == '^'
    requires FootnoteAt(line, start + 2).status == Ok
    ensures Covers(line, start, FootnoteAt(line, start + 2).spans[0], FootnoteAt(line, start + 2).next)
  {
    var close := Find(line, ']', start + 2);
    FootnoteSlices(line, start, close, line[start + 2..close]);
  }

  lemma FootnoteSlices(line: string, start: nat, close: nat, id: string)
    requires start + 2 < close <= |line| && line[start] == '[' && line[start + 1] == '^' && line[start + 2..close] == id
    requires close < |line| ==> line[close] == ']'
    ensures Printed(FootnoteRef(id)) == if close < |line| then line[start..close + 1] else line[start..] + "]"
  {
    Delimited(line, start + 1, '^', id, close, ']');
    Extend(line, start, start + 1, close, "[", "^" + (id + "]"), "]");
    Assoc("[", "^", id + "]");
    assert "[" + "^" == "[^";
  }

  lemma LinkConcat(text: string, uri: string)
    ensures Printed(Link(text, uri)) == ("[" + (text + "]")) + ("(" + (uri + ")"))
  {
  }

  lemma LinkSlices(line: string, start: nat, close: nat, end: nat, text: string, uri: string)
    requires start < close < close + 1 < end <= |line|
    requires line[start] == '[' && line[close] == ']' && line[close + 1] == '(' && (end < |line| ==> line[end] == ')')
    requires line[start + 1..close] == text && line[close + 2..end] == uri
    ensures Printed(Link(text, uri)) == if end < |line| then line[start..end + 1] else line[start..] + ")"
  {
    var front, back := "[" + (text + "]"), "(" + (uri + ")");
    Delimited(line, close + 1, '(', uri, end, ')');
    Delimited(line, start, '[', text, close, ']');
    Extend(line, start, close + 1, end, front, back, ")");
    LinkConcat(text, uri);
  }

  lemma PlainLinkCovers(line: string, start: nat) returns (span: Span)
    requires start < |line| && line[start] == '[' && IsLink(line, start)
    ensures PlainLinkAt(line, start).spans == [span] && Covers(line, start, span, PlainLinkAt(line, start).next)
  {
    var close := Find(line, ']', start + 1);
    var end := Find(line, ')', close + 1);
    var text, uri := line[start + 1..close], line[close + 2..end];
    LinkSlices(line, start, close, end, text, uri);
    span := Link(text, uri);
  }

  /** A successful step yields one block, which is just the text it passes over. */
  lemma StepCovers(line: string, start: nat)
    requires start < |line| && StepAt(line, start).status == Ok
    ensures |StepAt(line, start).spans| == 1
    ensures Covers(line, start, StepAt(line, start).spans[0], StepAt(line, start).next)
  {
    match line[start]
    case '`' => CodeCovers(line, start);
    case '$' => LatexCovers(line, start);
    case '[' =>
      if start + 2 < |line| && line[start + 1] == '^' && FootnoteAt(line, start + 2).status == Ok {
        FootnoteCovers(line, start);
      } else if IsLink(line, start) {
        var _ := PlainLinkCovers(line, start);
      } else {
        TextCovers(line, start);
      }
    case _ => TextCovers(line, start);
  }

  /** The text `s` is spelled by the blocks, up to one delimiter that is missing at its very end. */
  ghost predicate Tiles(spans: seq<Span>, s: string) {
    Spells(Source(spans), s, LastCloser(spans))
  }

  function LastCloser(spans: seq<Span>): string {
    if spans == [] then "" else Closer(spans[|spans| - 1])
  }

  ghost predicate Spells(source: string, s: string, closer: string) {
    source == s || (closer != "" && source == s + closer)
  }

  lemma SpellsMore(a: string, source: string, s: string, closer: string, source': string, s': string)
    requires Spells(source, s, closer) && source' == a + source && s' == a + s
    ensures Spells(source', s', closer)
  {
    Assoc(a, s, closer);
  }

  lemma TilesLast(line: string, start: nat, span: Span, next: nat)
    requires start < |line| && Covers(line, start, span, next) && next > |line|
    ensures Tiles([span], line[start..])
  {
    FirstSpan(span, []);
    assert Printed(span) + "" == Printed(span) && [span] + [] == [span];
  }

  lemma TilesBefore(line: string, start: nat, span: Span, next: nat, rest: seq<Span>)
    requires start < next <= |line| && Printed(span) == line[start..next] && Tiles(rest, line[next..])
    ensures Tiles([span] + rest, line[start..])
  {
    var all := [span] + rest;
    FirstSpan(span, rest);
    assert line[start..] == line[start..next] + line[next..];
    if rest == [] {
      assert Source(all) == line[start..];
    } else {
      assert all[|rest|] == rest[|rest| - 1];
      SpellsMore(line[start..next], Source(rest), line[next..], LastCloser(rest), Source(all), line[start..]);
    }
  }

  lemma TilesMore(line: string, start: nat, span: Span, next: nat, rest: seq<Span>)
    requires start < |line| && Covers(line, start, span, next)
    requires if next <= |line| then Tiles(rest, line[next..]) else rest == []
    ensures Tiles([span] + rest, line[start..])
  {
    if next <= |line| {
      TilesBefore(line, start, span, next, rest);
    } else {
      TilesLast(line, start, span, next);
      assert [span] + rest == [span];
    }
  }

  lemma FirstSpan(span: Span, rest: seq<Span>)
    ensures Source([span] + rest) == Printed(span) + Source(rest)
  {
    assert ([span] + rest)[1..] == rest;
  }

  lemma {:induction false} ScanTiles(line: string, idx: nat)
    requires idx <= |line| && Scan(line, idx).0 == Ok
    ensures Tiles(Scan(line, idx).1, line[idx..])
    decreases |line| - idx
  {
    if idx < |line| {
      var step := StepAt(line, idx);
      ScanFirst(line, idx);
      StepCovers(line, idx);
      if step.next <= |line| { ScanTiles(line, step.next); }
      assert step.spans == [step.spans[0]];
      TilesMore(line, idx, step.spans[0], step.next, Scan(line, step.next).1);
    }
  }

  /** A line that parses is spelled again by its alignment prefix and its blocks: exactly, or with one
      missing closing delimiter added at the end. */
  lemma ParagraphIsTiled(line: string)
    requires Scan(Strip(line), Begin(Strip(line))).0 == Ok
    ensures Tiles(Scan(Strip(line), Begin(Strip(line))).1, Strip(line)[Begin(Strip(line))..])
  {
    ScanTiles(Strip(line), Begin(Strip(line)));
  }

  // ---------------------------------------------------------------- reading printed blocks back

  ghost predicate NoSpecial(s: string) {
    forall k | 0 <= k < |s| :: !Special(s[k])
  }

  /** A block that can be recognized from its printed form. */
  ghost predicate Good(span: Span) {
    match span
    case Run(raw) => raw != "" && NoSpecial(raw) && Closed(raw)
    case Code(code) => Without(code, '`')
    case Latex(formula) => Without(formula, '$')
    case Link(text, uri) => Without(text, ']') && Without(uri, ')') && (text == "" || text[0] != '^')
    case FootnoteRef(id) => id != "" && Without(id, ']')
  }

  ghost predicate Canonical(spans: seq<Span>) {
    && (forall k | 0 <= k < |spans| :: Good(spans[k]))
    && (forall k | 0 < k < |spans| :: spans[k - 1].Run? ==> !spans[k].Run?)
    && (spans != [] ==> !EmptyLink(spans[|spans| - 1]))
  }

  /** A link without an address is only recognized when something follows it. */
  predicate EmptyLink(span: Span) {
    span.Link? && span.uri == ""
  }

  lemma PrintedStart(span: Span)
    requires Good(span)
    ensures Printed(span) != "" && (!span.Run? ==> Special(Printed(span)[0]))
  {
  }

  lemma FindAfter(line: string, c: char, from: nat, inner: string)
    requires from + |inner| < |line| && line[from..from + |inner|] == inner && Without(inner, c)
             && line[from + |inner|] == c
    ensures Find(line, c, from) == from + |inner|
  {
  }

  /** `line` shows `s` at position `at`. */
  ghost predicate Shows(line: string, at: nat, s: string) {
    at + |s| <= |line| && line[at..at + |s|] == s
  }

  lemma ShowsParts(line: string, at: nat, a: string, b: string)
    requires Shows(line, at, a + b)
    ensures Shows(line, at, a) && Shows(line, at + |a|, b)
  {
    var s := line[at..at + |a| + |b|];
    assert s[..|a|] == a && s[|a|..] == b;
    assert line[at..at + |a|] == s[..|a|] && line[at + |a|..at + |a| + |b|] == s[|a|..];
  }

  lemma RunReadsBack(line: string, at: nat, raw: string)
    requires Good(Run(raw)) && Shows(line, at, raw)
    requires at + |raw| < |line| ==> Special(line[at + |raw|])
    ensures StepAt(line, at) == Step(Ok, [Run(raw)], at + |raw|)
  {
    assert line[at] == raw[0];
    var next := NextSpecial(line, at + 1);
    forall k | at <= k < at + |raw| ensures !Special(line[k]) {
      assert line[k] == raw[k - at];
    }
    assert next == at + |raw|;
  }

  lemma DelimitedReadsBack(line: string, at: nat, open: string, inner: string, close: char)
    requires Shows(line, at, open + (inner + [close])) && Without(inner, close)
    ensures Find(line, close, at + |open|) == at + |open| + |inner|
    ensures Shows(line, at, open) && Shows(line, at + |open|, inner)
  {
    ShowsParts(line, at, open, inner + [close]);
    ShowsParts(line, at + |open|, inner, [close]);
    assert line[at + |open| + |inner|] == line[at + |open| + |inner|..][0];
    FindAfter(line, close, at + |open|, inner);
  }

  lemma FootnoteReadsBack(line: string, at: nat, id: string)
    requires Good(FootnoteRef(id)) && Shows(line, at, Printed(FootnoteRef(id)))
    ensures StepAt(line, at) == Step(Ok, [FootnoteRef(id)], at + |id| + 3)
  {
    DelimitedReadsBack(line, at, "[^", id, ']');
    assert line[at] == line[at..at + 2][0] && line[at + 1] == line[at..at + 2][1];
  }

  /** A link laid out at position `at`. */
  ghost predicate LinkStands(line: string, at: nat, text: string, uri: string) {
    var close := at + 1 + |text|;
    var end := close + 2 + |uri|;
    && end < |line|
    && line[at] == '[' && line[close] == ']' && line[close + 1] == '(' && line[end] == ')'
    && line[at + 1..close] == text && line[close + 2..end] == uri
  }

  lemma ConcatAt(a: string, x: string, b: string)
    ensures var s := a + (x + b); s[|a|..|a| + |x|] == x
  {
  }

  lemma PrintedLinkStands(text: string, uri: string)
    ensures LinkStands(Printed(Link(text, uri)), 0, text, uri)
  {
    var s, tail := Printed(Link(text, uri)), "](" + (uri + ")");
    var close := 1 + |text|;
    assert s == "[" + (text + tail);
    ConcatAt("[", text, tail);
    assert s[close..] == tail;
    assert tail[0] == ']' && tail[1] == '(';
    ConcatAt("](", uri, ")");
    assert tail[2 + |uri|] == ')';
    assert s[close + 2..close + 2 + |uri|] == tail[2..2 + |uri|];
    assert s[close] == tail[0] && s[close + 1] == tail[1] && s[close + 2 + |uri|] == tail[2 + |uri|];
  }

  lemma ShiftStands(line: string, at: nat, s: string, text: string, uri: string)
    requires Shows(line, at, s) && LinkStands(s, 0, text, uri)
    ensures LinkStands(line, at, text, uri)
  {
    assert forall k | 0 <= k < |s| :: line[at + k] == line[at..at + |s|][k] == s[k];
  }

  lemma StandingLinkIsFound(line: string, at: nat, text: string, uri: string)
    requires Good(Link(text, uri)) && LinkStands(line, at, text, uri)
    ensures var close := at + 1 + |text|;
            && line[at + 1] != '^'
            && Find(line, ']', at + 1) == close
            && Find(line, ')', close + 1) == close + 2 + |uri|
  {
  }

  lemma LinkStep(line: string, at: nat, close: nat, end: nat)
    requires at + 1 <= close && close + 1 < end < |line| && line[at] == '[' && line[at + 1] != '^'
             && line[close + 1] == '('
    requires Find(line, ']', at + 1) == close && Find(line, ')', close + 1) == end && close < |line| - 3
    ensures StepAt(line, at) == Step(Ok, [Link(line[at + 1..close], line[close + 2..end])], end + 1)
  {
    assert LinkAt(line, at) == PlainLinkAt(line, at);
  }

  lemma StandingLinkReadsBack(line: string, at: nat, text: string, uri: string)
    requires Good(Link(text, uri)) && LinkStands(line, at, text, uri) && (uri != "" || at + |text| + 4 < |line|)
    ensures StepAt(line, at) == Step(Ok, [Link(text, uri)], at + |text| + |uri| + 4)
  {
    StandingLinkIsFound(line, at, text, uri);
    LinkStep(line, at, at + 1 + |text|, at + 3 + |text| + |uri|);
  }

  lemma LinkReadsBack(line: string, at: nat, text: string, uri: string)
    requires Good(Link(text, uri)) && Shows(line, at, Printed(Link(text, uri)))
             && (uri != "" || at + |text| + 4 < |line|)
    ensures StepAt(line, at) == Step(Ok, [Link(text, uri)], at + |text| + |uri| + 4)
  {
    PrintedLinkStands(text, uri);
    ShiftStands(line, at, Printed(Link(text, uri)), text, uri);
    StandingLinkReadsBack(line, at, text, uri);
  }

  lemma CodeReadsBack(line: string, at: nat, code: string)
    requires Without(code, '`') && Shows(line, at, Printed(Code(code)))
    ensures StepAt(line, at) == Step(Ok, [Code(code)], at + |code| + 2)
  {
    DelimitedReadsBack(line, at, "`", code, '`');
    assert line[at] == line[at..at + 1][0];
  }

  lemma LatexReadsBack(line: string, at: nat, formula: string)
    requires Without(formula, '$') && Shows(line, at, Printed(Latex(formula)))
    ensures StepAt(line, at) == Step(Ok, [Latex(formula)], at + |formula| + 2)
  {
    DelimitedReadsBack(line, at, "$", formula, '$');
    assert line[at] == line[at..at + 1][0];
  }

  lemma SpanReadsBack(line: string, at: nat, span: Span)
    requires Good(span) && Shows(line, at, Printed(span))
    requires var next := at + |Printed(span)|;
             if next < |line| then span.Run? ==> Special(line[next]) else !EmptyLink(span)
    ensures StepAt(line, at) == Step(Ok, [span], at + |Printed(span)|)
  {
    match span
    case Run(raw) => RunReadsBack(line, at, raw);
    case Code(code) => CodeReadsBack(line, at, code);
    case Latex(formula) => LatexReadsBack(line, at, formula);
    case Link(text, uri) => LinkReadsBack(line, at, text, uri);
    case FootnoteRef(id) => FootnoteReadsBack(line, at, id);
  }

  lemma FirstReadsBack(line: string, at: nat, span: Span, rest: seq<Span>)
    requires at <= |line| && line[at..] == Printed(span) + Source(rest) && Good(span)
    requires if rest != [] then Good(rest[0]) && (span.Run? ==> !rest[0].Run?) else !EmptyLink(span)
    ensures StepAt(line, at) == Step(Ok, [span], at + |Printed(span)|)
    ensures line[at + |Printed(span)|..] == Source(rest)
  {
    var next := at + |Printed(span)|;
    ShowsParts(line, at, Printed(span), Source(rest));
    assert line[next..] == Source(rest);
    if rest != [] {
      PrintedStart(rest[0]);
      assert line[next] == line[next..][0];
    }
    SpanReadsBack(line, at, span);
  }

  lemma CanonicalRest(spans: seq<Span>)
    requires Canonical(spans) && spans != []
    ensures Canonical(spans[1..]) && Good(spans[0])
    ensures if spans[1..] != [] then Good(spans[1..][0]) && (spans[0].Run? ==> !spans[1..][0].Run?)
            else !EmptyLink(spans[0])
  {
  }

  lemma ScanOne(line: string, at: nat, spans: seq<Span>, next: nat)
    requires at < |line| && spans != [] && StepAt(line, at) == Step(Ok, [spans[0]], next)
    requires Scan(line, next) == (Ok, spans[1..])
    ensures Scan(line, at) == (Ok, spans)
  {
    ScanFirst(line, at);
    assert spans == [spans[0]] + spans[1..];
  }

  lemma {:induction false} SpansReadBack(line: string, at: nat, spans: seq<Span>)
    requires Canonical(spans) && at <= |line| && line[at..] == Source(spans)
    ensures Scan(line, at) == (Ok, spans)
    decreases |spans|
  {
    if spans != [] {
      var span, rest := spans[0], spans[1..];
      var next := at + |Printed(span)|;
      CanonicalRest(spans);
      assert at < |line| by { PrintedStart(span); }
      FirstReadsBack(line, at, span, rest);
      SpansReadBack(line, next, rest);
      ScanOne(line, at, spans, next);
    }
  }

  function Wanted(prefix: string): Option<string> {
    if prefix == "\\L" then Some("left")
    else if prefix == "\\C" then Some("center")
    else if prefix == "\\R" then Some("right")
    else None
  }

  lemma PrefixReadsBack(prefix: string, s: string)
    requires s != "" && (if prefix == "" then Prefix(s).None? else Wanted(prefix).Some?)
    ensures Prefix(prefix + s) == Wanted(prefix) && Begin(prefix + s) == |prefix|
  {
  }

  /** Printed blocks, with or without an alignment prefix, parse back to the same blocks. */
  lemma ParagraphRoundTrip(prefix: string, spans: seq<Span>)
    requires Canonical(spans) && spans != []
             && (if prefix == "" then Prefix(Source(spans)).None? else Wanted(prefix).Some?)
    requires Trimmed(prefix + Source(spans))
    ensures var line := Strip(prefix + Source(spans));
            Prefix(line) == Wanted(prefix) && Scan(line, Begin(line)) == (Ok, spans)
  {
    var s := Source(spans);
    var line := prefix + s;
    PrintedStart(spans[0]);
    StripPadded("", line, "");
    assert "" + line + "" == line;
    PrefixReadsBack(prefix, s);
    assert line[|prefix|..] == s;
    SpansReadBack(line, |prefix|, spans);
  }
}
