/** Which list takes each line of a printed item list, and when an exception escapes at its end. */
module ListDepth {
  import opened Basics
  import opened Text
  import opened Blocks
  import opened ListText
  import Paragraph
  import opened LineEnd

  /** A printed item by itself. */
  datatype Entry = Entry(level: nat, text: string)

  function Outline(level: nat, t: Tree): seq<Entry>
    decreases t
  {
    match t
    case Nil => []
    case Cons(text, children, rest) => [Entry(level, text)] + (Outline(level + 1, children) + Outline(level, rest))
  }

  /** The list a line is offered to, if the list of depth `e` took the line before. */
  function Toward(e: nat, level: nat): nat {
    if level == e then e else if level > e then e + 1 else e - 1
  }

  /** What a list of depth `d` does with a line: leave it to the list around, read it past its end, which
      is the end of the parser, or take it. */
  datatype Take = Leaves | Breaks | Takes

  /** A list deeper than the line sees its text without the first characters, and leaves it if nothing is
      left of it, or an open mark. */
  function TakeOf(entry: Entry, d: nat): (r: Take)
    ensures r.Leaves? ==> d > entry.level
  {
    if d <= entry.level then Takes
    else
      var cut := 2 * (d - entry.level) - 1;
      if |entry.text| < cut then Leaves
      else match ParseLine(entry.text[cut..]).0
        case Ok => Takes
        case Illegal => Leaves
        case PastEnd => Breaks
  }

  /** The depth of the list that takes a line offered to the one of depth `d`. */
  function Landing(entry: Entry, d: nat): (r: Option<nat>)
    ensures r.Some? ==> Min(d, entry.level) <= r.value <= d
    decreases d
  {
    match TakeOf(entry, d)
    case Takes => Some(d)
    case Leaves => Landing(entry, d - 1)
    case Breaks => None
  }

  /** The depth of the list that takes the last line, when line `i` is offered to the list of depth `d`. */
  function LastDepth(outline: seq<Entry>, i: nat, d: nat): (r: Option<nat>)
    requires i < |outline|
    decreases |outline| - i
  {
    match Landing(outline[i], d)
    case None => None
    case Some(e) =>
      if i + 1 == |outline| then Some(e) else LastDepth(outline, i + 1, Toward(e, outline[i + 1].level))
  }

  function VerdictOf(depth: Option<nat>): Verdict {
    match depth
    case None => PastEnd
    case Some(e) => if e == 0 then Ok else Threw
  }

  // ---------------------------------------------------------------- the lines of an outline

  /** The level rises by one at most, from 0 on, and the text parses. */
  predicate Fits(outline: seq<Entry>, k: nat)
    requires k < |outline|
  {
    && outline[k].level <= (if k == 0 then 0 else outline[k - 1].level + 1)
    && ParseLine(outline[k].text).0 == Paragraph.Ok
  }

  predicate IsPrinted(lines: seq<string>, b: nat, outline: seq<Entry>, k: nat)
    requires k < |outline|
  {
    b + k < |lines| && lines[b + k] == Line(outline[k].level, outline[k].text)
  }

  /** The text ends with a proper outline, printed from line `b` on. */
  ghost predicate EndsWith(lines: seq<string>, b: nat, outline: seq<Entry>) {
    && |lines| == b + |outline|
    && (forall k | 0 <= k < |outline| :: Fits(outline, k))
    && (forall k | 0 <= k < |outline| :: IsPrinted(lines, b, outline, k))
  }

  /** Lines of which those from `b` on are printed from an outline. */
  datatype Sheet = Sheet(lines: seq<string>, b: nat, outline: seq<Entry>)

  type Ending = s: Sheet | EndsWith(s.lines, s.b, s.outline) ghost witness Sheet([], 0, [])

  lemma CutLine(level: nat, text: string, d: nat)
    requires d > level && |text| >= 2 * (d - level) - 1
    ensures Line(level, text)[2 * d + 1..] == text[2 * (d - level) - 1..]
  {
  }

  lemma ReadingOf(line: string, pos: nat, shown: string, status: Paragraph.Status, text: Para)
    requires |line| > pos && line[pos + 1..] == shown && ParseLine(shown) == (status, text)
    ensures ReadLine(false, pos, line) == ItemText(status, text)
  {
  }

  /** What a list that does `take` with a line gets from the line parser. */
  ghost predicate Gives(reading: ItemLine, take: Take) {
    match take
    case Takes => reading.ItemText? && reading.status == Paragraph.Ok
    case Leaves => reading.NoItem? || (reading.ItemText? && reading.status == Paragraph.Illegal)
    case Breaks => reading.ItemText? && reading.status == Paragraph.PastEnd
  }

  lemma ShortLineOffered(line: string, pos: nat)
    requires |line| <= pos
    ensures ReadLine(false, pos, line) == NoItem
  {
  }

  lemma DeeperOffered(entry: Entry, d: nat)
    requires d > entry.level
    ensures Gives(ReadLine(false, 2 * d, Line(entry.level, entry.text)), TakeOf(entry, d))
  {
    var line, cut := Line(entry.level, entry.text), 2 * (d - entry.level) - 1;
    assert |line| == 2 * entry.level + 2 + |entry.text|;
    if |entry.text| < cut {
      ShortLineOffered(line, 2 * d);
    } else {
      CutLine(entry.level, entry.text, d);
      ShownOffered(line, 2 * d, entry, d, entry.text[cut..]);
    }
  }

  lemma ShownOffered(line: string, pos: nat, entry: Entry, d: nat, shown: string)
    requires d > entry.level && |entry.text| >= 2 * (d - entry.level) - 1
    requires shown == entry.text[2 * (d - entry.level) - 1..] && |line| > pos && line[pos + 1..] == shown
    ensures Gives(ReadLine(false, pos, line), TakeOf(entry, d))
  {
    var (status, text) := ParseLine(shown);
    ReadingOf(line, pos, shown, status, text);
  }

  lemma Offered(entry: Entry, d: nat)
    requires d >= entry.level && ParseLine(entry.text).0 == Paragraph.Ok
    ensures Gives(ReadLine(false, 2 * d, Line(entry.level, entry.text)), TakeOf(entry, d))
  {
    if d == entry.level { LineIsItem(d, entry.text); } else { DeeperOffered(entry, d); }
  }

  // ---------------------------------------------------------------- the stages of a list

  /** What the list parser makes of the lines from `at` on. */
  datatype Reading = Reading(lines: seq<string>, pos: nat, at: nat, list: Listed)

  type ListRead = r: Reading | r.list == Items(false, r.pos, r.lines, r.at)
    ghost witness Reading([], 0, 0, Items(false, 0, [], 0))

  function ReadAt(lines: seq<string>, pos: nat, at: nat): ListRead {
    Reading(lines, pos, at, Items(false, pos, lines, at))
  }

  lemma LineIsLeft(lines: seq<string>, i: nat, pos: nat, reading: ItemLine)
    requires i < |lines| && ReadLine(false, pos, lines[i]) == reading
    requires reading.NoItem? || (reading.ItemText? && reading.status == Paragraph.Illegal)
    ensures var l := Items(false, pos, lines, i); Returns(l.verdict) && l.next == i
  {
    ItemsFrom(false, pos, lines, i,
              Ends(if reading.NoItem? then Listed(Ok, [], i) else Listed(Illegal, [Item(reading.text, None)], i)));
  }

  lemma LineBreaks(lines: seq<string>, i: nat, pos: nat, text: Para)
    requires i < |lines| && ReadLine(false, pos, lines[i]) == ItemText(Paragraph.PastEnd, text)
    ensures Items(false, pos, lines, i).verdict == PastEnd
  {
    ItemsFrom(false, pos, lines, i, Ends(Listed(PastEnd, [Item(text, None)], i)));
  }

  lemma LastLine(lines: seq<string>, i: nat, pos: nat, text: Para)
    requires i + 1 == |lines| && ReadLine(false, pos, lines[i]) == ItemText(Paragraph.Ok, text)
    ensures var l := Items(false, pos, lines, i); l.verdict == Ok && l.next == |lines|
  {
    ItemsFrom(false, pos, lines, i, Ends(Listed(Ok, [Item(text, None)], i + 1)));
  }

  lemma ListEnds(lines: seq<string>, i: nat, pos: nat, text: Para)
    requires i + 1 < |lines| && ReadLine(false, pos, lines[i]) == ItemText(Paragraph.Ok, text)
    requires SequelOf(false, pos, lines[i + 1]) == Done
    ensures var l := Items(false, pos, lines, i); l.verdict == Ok && l.next == i + 1
  {
    ItemsFrom(false, pos, lines, i, Ends(Listed(Ok, [Item(text, None)], i + 1)));
  }

  ghost predicate SameEnd(l: Listed, m: Listed) {
    l.verdict == m.verdict && l.next == m.next
  }

  lemma ListGoesOn(r: ListRead, text: Para, m: ListRead)
    requires r.at + 1 < |r.lines| && ReadLine(false, r.pos, r.lines[r.at]) == ItemText(Paragraph.Ok, text)
    requires SequelOf(false, r.pos, r.lines[r.at + 1]) == Sibling
    requires m.lines == r.lines && m.pos == r.pos && m.at == r.at + 1
    ensures SameEnd(r.list, m.list)
  {
    ItemsFrom(false, r.pos, r.lines, r.at, Goes(Item(text, None), r.at + 1));
  }

  /** A list with a nested one, and with `more` behind that. */
  lemma ListNests(r: ListRead, text: Para, child: ListRead, more: ListRead)
    requires r.at + 1 < |r.lines| && ReadLine(false, r.pos, r.lines[r.at]) == ItemText(Paragraph.Ok, text)
    requires SequelOf(false, r.pos, r.lines[r.at + 1]) == Child(false, child.pos)
    requires child.lines == more.lines == r.lines && child.at == r.at + 1
    requires more.pos == r.pos && more.at == child.list.next
    ensures SameEnd(r.list, if Returns(child.list.verdict) then more.list else child.list)
  {
    var parent := Item(text, Some(List(false, child.list.items)));
    ItemsFrom(false, r.pos, r.lines, r.at,
              if Returns(child.list.verdict) then Goes(parent, child.list.next)
              else Ends(Listed(child.list.verdict, [parent], child.list.next)));
  }

  lemma BeyondTheEnd(lines: seq<string>, pos: nat)
    ensures Items(false, pos, lines, |lines|) == Listed(Threw, [], |lines|)
  {
    ItemsFrom(false, pos, lines, |lines|, Ends(Listed(Threw, [], |lines|)));
  }

  // ---------------------------------------------------------------- the depth is what the parser follows

  /** The verdict of the whole text, with `l` the list of depth `d`: if that returns, the list around it goes
      on where it stopped. */
  function Resumed(l: Listed, b: nat, outline: seq<Entry>, d: nat): Verdict {
    if !Returns(l.verdict) || d == 0 then l.verdict
    else if b <= l.next < b + |outline| then VerdictOf(LastDepth(outline, l.next - b, d - 1))
    else Threw
  }

  /** A list that returns stops inside the text, and leaves a line that is not deeper to the list around. */
  ghost predicate Stops(l: Listed, b: nat, outline: seq<Entry>, d: nat) {
    Returns(l.verdict) && d > 0 ==>
      b <= l.next <= b + |outline| && (l.next < b + |outline| ==> outline[l.next - b].level < d)
  }

  lemma DepthAt(outline: seq<Entry>, i: nat, d: nat, take: Take)
    requires i < |outline| && take == TakeOf(outline[i], d)
    ensures LastDepth(outline, i, d) ==
              match take
              case Takes => if i + 1 == |outline| then Some(d)
                            else LastDepth(outline, i + 1, Toward(d, outline[i + 1].level))
              case Leaves => LastDepth(outline, i, d - 1)
              case Breaks => None
  {
  }

  /** A nested list that returns at line `i`. */
  lemma StoppedAt(l: Listed, b: nat, outline: seq<Entry>, i: nat, d: nat)
    requires i < |outline| && Returns(l.verdict) && l.next == b + i && outline[i].level < d
    ensures Resumed(l, b, outline, d) == VerdictOf(LastDepth(outline, i, d - 1)) && Stops(l, b, outline, d)
  {
  }

  lemma SameEndSame(l: Listed, m: Listed, b: nat, outline: seq<Entry>, d: nat)
    requires SameEnd(l, m) && Stops(m, b, outline, d)
    ensures Resumed(l, b, outline, d) == Resumed(m, b, outline, d) && Stops(l, b, outline, d)
  {
  }

  /** What the list of depth `d` does with line `i` of the outline, as the line parser and the depth see it. */
  lemma LineOffered(s: Ending, i: nat, d: nat, at: nat) returns (take: Take, reading: ItemLine)
    requires i < |s.outline| && s.outline[i].level <= d && at == s.b + i
    ensures at < |s.lines| && reading == ReadLine(false, 2 * d, s.lines[at])
    ensures Gives(reading, take)
    ensures take == TakeOf(s.outline[i], d)
  {
    assert Fits(s.outline, i) && IsPrinted(s.lines, s.b, s.outline, i);
    Offered(s.outline[i], d);
    take, reading := TakeOf(s.outline[i], d), ReadLine(false, 2 * d, s.lines[at]);
  }

  lemma LineAfter(s: Ending, i: nat, d: nat, at: nat)
    requires 0 < i < |s.outline| && s.outline[i - 1].level <= d && at == s.b + i
    ensures at < |s.lines| && s.outline[i].level <= d + 1
    ensures SequelOf(false, 2 * d, s.lines[at]) ==
              if s.outline[i].level == d then Sibling
              else if s.outline[i].level > d then Child(false, 2 * d + 2)
              else Done
  {
    assert Fits(s.outline, i) && IsPrinted(s.lines, s.b, s.outline, i);
    SequelLine(d, s.lines[at], s.outline[i].level, s.outline[i].text);
  }

  /** The list, one of depth `d`, ends as the depth of the last line says. */
  ghost predicate Follows(r: Reading, b: nat, outline: seq<Entry>, d: nat, depth: Option<nat>) {
    && Resumed(r.list, b, outline, d) == VerdictOf(depth)
    && Stops(r.list, b, outline, d) && r.at <= r.list.next
  }

  lemma LeavesFollows(r: ListRead, b: nat, outline: seq<Entry>, i: nat, d: nat, reading: ItemLine, depth: Option<nat>)
    requires i < |outline| && TakeOf(outline[i], d) == Leaves && depth == LastDepth(outline, i, d)
    requires r.at == b + i < |r.lines| && ReadLine(false, r.pos, r.lines[r.at]) == reading && Gives(reading, Leaves)
    ensures Follows(r, b, outline, d, depth)
  {
    DepthAt(outline, i, d, Leaves);
    LineIsLeft(r.lines, r.at, r.pos, reading);
    StoppedAt(r.list, b, outline, i, d);
  }

  lemma BreaksFollows(r: ListRead, b: nat, outline: seq<Entry>, i: nat, d: nat, reading: ItemLine, depth: Option<nat>)
    requires i < |outline| && TakeOf(outline[i], d) == Breaks && depth == LastDepth(outline, i, d)
    requires r.at == b + i < |r.lines| && ReadLine(false, r.pos, r.lines[r.at]) == reading && Gives(reading, Breaks)
    ensures Follows(r, b, outline, d, depth)
  {
    DepthAt(outline, i, d, Breaks);
    LineBreaks(r.lines, r.at, r.pos, reading.text);
  }

  lemma LastFollows(r: ListRead, b: nat, outline: seq<Entry>, i: nat, d: nat, reading: ItemLine, depth: Option<nat>)
    requires i + 1 == |outline| && |r.lines| == b + |outline| && r.at == b + i
    requires ReadLine(false, r.pos, r.lines[r.at]) == reading && Gives(reading, Takes)
    requires TakeOf(outline[i], d) == Takes && depth == LastDepth(outline, i, d)
    ensures Follows(r, b, outline, d, depth)
  {
    DepthAt(outline, i, d, Takes);
    LastLine(r.lines, r.at, r.pos, reading.text);
  }

  /** The reading is that of the list of depth `d` that begins at line `i` of the outline. */
  ghost predicate IsOf(r: Reading, s: Sheet, i: nat, d: nat) {
    r.lines == s.lines && r.at == s.b + i && r.pos == 2 * d && i < |s.outline| && s.outline[i].level <= d
  }

  /** The list of depth `d` that begins at line `i` of the outline ends as the depth says. */
  lemma {:induction false} ListFollows(s: Ending, i: nat, d: nat, r: ListRead, depth: Option<nat>)
    requires IsOf(r, s, i, d) && depth == LastDepth(s.outline, i, d)
    ensures Follows(r, s.b, s.outline, d, depth)
    decreases |s.outline| - i, 1
  {
    var take, reading := LineOffered(s, i, d, r.at);
    match take
    case Leaves => LeavesFollows(r, s.b, s.outline, i, d, reading, depth);
    case Breaks => BreaksFollows(r, s.b, s.outline, i, d, reading, depth);
    case Takes =>
      if i + 1 == |s.outline| {
        LastFollows(r, s.b, s.outline, i, d, reading, depth);
      } else {
        TakesFollows(s, i, d, r, reading, depth);
      }
  }

  lemma {:induction false} TakesFollows(s: Ending, i: nat, d: nat, r: ListRead, reading: ItemLine, depth: Option<nat>)
    requires IsOf(r, s, i, d) && depth == LastDepth(s.outline, i, d) && i + 1 < |s.outline|
    requires r.at < |r.lines| && ReadLine(false, r.pos, r.lines[r.at]) == reading && Gives(reading, Takes)
    requires TakeOf(s.outline[i], d) == Takes
    ensures Follows(r, s.b, s.outline, d, depth)
    decreases |s.outline| - i, 0
  {
    LineAfter(s, i + 1, d, r.at + 1);
    DepthAt(s.outline, i, d, Takes);
    NextLine(s, i + 1, d, r, reading.text, depth);
  }

  lemma {:induction false} NextLine(s: Ending, i: nat, d: nat, r: ListRead, text: Para, depth: Option<nat>)
    requires i < |s.outline| && r.lines == s.lines && r.at + 1 == s.b + i < |s.lines| && r.pos == 2 * d
    requires ReadLine(false, r.pos, s.lines[r.at]) == ItemText(Paragraph.Ok, text)
    requires s.outline[i].level <= d + 1
    requires SequelOf(false, r.pos, s.lines[r.at + 1]) ==
               if s.outline[i].level == d then Sibling
               else if s.outline[i].level > d then Child(false, r.pos + 2)
               else Done
    requires depth == LastDepth(s.outline, i, Toward(d, s.outline[i].level))
    ensures Follows(r, s.b, s.outline, d, depth)
    decreases |s.outline| - i, 7
  {
    if s.outline[i].level < d {
      ListEnds(s.lines, r.at, r.pos, text);
      StoppedAt(r.list, s.b, s.outline, i, d);
    } else if s.outline[i].level == d {
      GoesOnFollows(s, i, d, r, text, depth);
    } else {
      NestsFollows(s, i, d, r, text, depth);
    }
  }

  lemma {:induction false} GoesOnFollows(s: Ending, i: nat, d: nat, r: ListRead, text: Para, depth: Option<nat>)
    requires r.lines == s.lines && r.at + 1 == s.b + i < |s.lines| && r.pos == 2 * d
    requires ReadLine(false, r.pos, s.lines[r.at]) == ItemText(Paragraph.Ok, text)
    requires SequelOf(false, r.pos, s.lines[r.at + 1]) == Sibling
    requires i < |s.outline| && s.outline[i].level <= d && depth == LastDepth(s.outline, i, d)
    ensures Follows(r, s.b, s.outline, d, depth)
    decreases |s.outline| - i, 6
  {
    var m := ReadAt(s.lines, r.pos, r.at + 1);
    ListGoesOn(r, text, m);
    SiblingFollows(s, i, d, r, m, depth);
  }

  lemma {:induction false} NestsFollows(s: Ending, i: nat, d: nat, r: ListRead, text: Para, depth: Option<nat>)
    requires r.lines == s.lines && r.at + 1 == s.b + i < |s.lines| && r.pos == 2 * d
    requires ReadLine(false, r.pos, s.lines[r.at]) == ItemText(Paragraph.Ok, text)
    requires SequelOf(false, r.pos, s.lines[r.at + 1]) == Child(false, r.pos + 2)
    requires i < |s.outline| && s.outline[i].level <= d + 1 && depth == LastDepth(s.outline, i, d + 1)
    ensures Follows(r, s.b, s.outline, d, depth)
    decreases |s.outline| - i, 6
  {
    var child := ReadAt(s.lines, r.pos + 2, r.at + 1);
    var more := ReadAt(s.lines, r.pos, child.list.next);
    ListNests(r, text, child, more);
    ChildFollows(s, i, d, r, child, more, depth);
  }

  /** A list that goes on at line `i`. */
  lemma {:induction false} SiblingFollows(s: Ending, i: nat, d: nat, r: ListRead, m: ListRead, depth: Option<nat>)
    requires IsOf(m, s, i, d) && depth == LastDepth(s.outline, i, d)
    requires r.at <= m.at && SameEnd(r.list, m.list)
    ensures Follows(r, s.b, s.outline, d, depth)
    decreases |s.outline| - i, 5
  {
    ListFollows(s, i, d, m, depth);
    SameEndSame(r.list, m.list, s.b, s.outline, d);
  }

  /** A list with a nested one that begins at line `i`, and with `more` behind that. */
  lemma {:induction false} ChildFollows(s: Ending, i: nat, d: nat, r: ListRead, child: ListRead, more: ListRead,
                                        depth: Option<nat>)
    requires IsOf(child, s, i, d + 1) && depth == LastDepth(s.outline, i, d + 1)
    requires more.lines == s.lines && more.pos == 2 * d && more.at == child.list.next
    requires r.at <= child.at && SameEnd(r.list, if Returns(child.list.verdict) then more.list else child.list)
    ensures Follows(r, s.b, s.outline, d, depth)
    decreases |s.outline| - i, 5
  {
    ListFollows(s, i, d + 1, child, depth);
    if Returns(child.list.verdict) {
      NestedReturns(s, i, d, child, more);
      SameEndSame(r.list, more.list, s.b, s.outline, d);
    }
  }

  /** After a nested list that returns, the list around it goes on as the depth says. */
  lemma {:induction false} NestedReturns(s: Ending, i: nat, d: nat, child: Reading, more: ListRead)
    requires i < |s.outline| && s.b + i == child.at <= child.list.next
    requires Returns(child.list.verdict) && Stops(child.list, s.b, s.outline, d + 1)
    requires more.lines == s.lines && more.pos == 2 * d && more.at == child.list.next
    ensures Resumed(more.list, s.b, s.outline, d) == Resumed(child.list, s.b, s.outline, d + 1)
    ensures Stops(more.list, s.b, s.outline, d) && child.at <= more.list.next
    decreases |s.outline| - i, 3
  {
    var next := StopOf(child.list, s.b, s.outline, i, d + 1);
    if next == |s.outline| {
      AfterLast(s.b, s.outline, d, child.list, more);
    } else {
      var depth := LastDepth(s.outline, next, d);
      StoppedAt(child.list, s.b, s.outline, next, d + 1);
      ListFollows(s, next, d, more, depth);
    }
  }

  /** The line where a nested list stops. */
  lemma StopOf(l: Listed, b: nat, outline: seq<Entry>, i: nat, d: nat) returns (next: nat)
    requires Returns(l.verdict) && d > 0 && Stops(l, b, outline, d) && b + i <= l.next
    ensures l.next == b + next && i <= next <= |outline| && (next < |outline| ==> outline[next].level < d)
  {
    next := l.next - b;
  }

  /** A nested list that returns at the end of the text: the list around it throws. */
  lemma AfterLast(b: nat, outline: seq<Entry>, d: nat, child: Listed, more: ListRead)
    requires more.at == |more.lines| == b + |outline| && Returns(child.verdict) && child.next == more.at
    ensures Resumed(more.list, b, outline, d) == Threw == Resumed(child, b, outline, d + 1)
    ensures Stops(more.list, b, outline, d) && more.at <= more.list.next
  {
    BeyondTheEnd(more.lines, more.pos);
  }

  // ---------------------------------------------------------------- printed trees

  lemma ConcatAt<T>(x: T, b: seq<T>, c: seq<T>, k: nat)
    requires k < 1 + |b| + |c|
    ensures ([x] + (b + c))[k] == if k == 0 then x else if k <= |b| then b[k - 1] else c[k - 1 - |b|]
  {
  }

  /** The outline of a tree lists its lines. */
  lemma {:induction false} OutlineIsPrinted(level: nat, t: Tree)
    ensures |Outline(level, t)| == |Printed(level, t)| == Size(t)
    ensures forall k | 0 <= k < Size(t) ::
              Printed(level, t)[k] == Line(Outline(level, t)[k].level, Outline(level, t)[k].text)
    decreases t
  {
    if t.Cons? {
      OutlineIsPrinted(level + 1, t.children);
      OutlineIsPrinted(level, t.rest);
    }
  }

  /** No entry is above the level, and the level rises by one at most within the outline. */
  ghost predicate FitsBelow(level: nat, outline: seq<Entry>) {
    && (outline != [] ==> outline[0].level == level)
    && (forall k | 0 <= k < |outline| :: outline[k].level >= level && ParseLine(outline[k].text).0 == Paragraph.Ok)
    && (forall k | 0 < k < |outline| :: outline[k].level <= outline[k - 1].level + 1)
  }

  lemma JoinRises(first: Entry, a: seq<Entry>, b: seq<Entry>, k: nat)
    requires FitsBelow(first.level + 1, a) && FitsBelow(first.level, b) && 0 < k < 1 + |a| + |b|
    ensures ([first] + (a + b))[k].level <= ([first] + (a + b))[k - 1].level + 1
  {
    ConcatAt(first, a, b, k);
    ConcatAt(first, a, b, k - 1);
  }

  lemma JoinFits(first: Entry, a: seq<Entry>, b: seq<Entry>)
    requires FitsBelow(first.level + 1, a) && FitsBelow(first.level, b) && ParseLine(first.text).0 == Paragraph.Ok
    ensures FitsBelow(first.level, [first] + (a + b))
  {
    forall k | 0 < k < 1 + |a| + |b|
      ensures ([first] + (a + b))[k].level <= ([first] + (a + b))[k - 1].level + 1
    {
      JoinRises(first, a, b, k);
    }
  }

  lemma {:induction false} OutlineFits(level: nat, t: Tree)
    requires TextsParse(t)
    ensures FitsBelow(level, Outline(level, t))
    decreases t
  {
    if t.Cons? {
      OutlineFits(level + 1, t.children);
      OutlineFits(level, t.rest);
      JoinFits(Entry(level, t.text), Outline(level + 1, t.children), Outline(level, t.rest));
    }
  }

  lemma TreeEndsText(before: seq<string>, t: Tree)
    requires TextsParse(t)
    ensures EndsWith(before + Printed(0, t), |before|, Outline(0, t))
  {
    var outline := Outline(0, t);
    OutlineFits(0, t);
    OutlineIsPrinted(0, t);
    assert forall k | 0 <= k < |outline| :: Fits(outline, k);
  }

  /** The depth at which the last line of a printed tree is taken. */
  function DepthOf(t: Tree): Option<nat>
    requires t.Cons?
  {
    LastDepth(Outline(0, t), 0, 0)
  }

  lemma ListEndsByDepth(before: seq<string>, t: Tree, lines: seq<string>, l: Listed)
    requires t.Cons? && TextsParse(t) && lines == before + Printed(0, t) && l == Items(false, 0, lines, |before|)
    ensures l.verdict == VerdictOf(DepthOf(t)) && |before| < |lines| && lines[|before|] == Line(0, t.text)
  {
    var outline, b := Outline(0, t), |before|;
    TreeEndsText(before, t);
    var s: Ending := Sheet(lines, b, outline);
    assert IsPrinted(lines, b, outline, 0);
    ListFollows(s, 0, 0, ReadAt(lines, 0, b), DepthOf(t));
  }

  /** Every printed tree at the end of the text: the depth of the parser after the last line settles how
      the list ends. An exception escapes exactly if it is not 0. */
  lemma ListAtEndExactly(recognizer: Recognizer, before: seq<string>, t: Tree)
    requires t.Cons? && TextsParse(t)
    ensures var verdict := Block(recognizer, before + Printed(0, t), |before|).verdict;
            && (verdict == Threw <==> DepthOf(t).Some? && DepthOf(t).value > 0)
            && (verdict == Ok <==> DepthOf(t) == Some(0))
            && (verdict == PastEnd <==> DepthOf(t).None?)
  {
    var lines := before + Printed(0, t);
    ListEndsByDepth(before, t, lines, Items(false, 0, lines, |before|));
    DashStartsList(recognizer, lines, |before|, t.text);
  }

  // ---------------------------------------------------------------- what that means for trees

  lemma {:induction false} LastLevel(level: nat, t: Tree)
    requires t.Cons?
    ensures var outline := Outline(level, t);
            && outline != [] && outline[|outline| - 1].level >= level
            && (outline[|outline| - 1].level == level <==> LastIsChildless(t))
    decreases t
  {
    if t.children.Cons? { LastLevel(level + 1, t.children); }
    if t.rest.Cons? { LastLevel(level, t.rest); }
  }

  /** The parser is never less deep than the line it has taken. */
  lemma {:induction false} DepthAtLeast(outline: seq<Entry>, i: nat, d: nat)
    requires i < |outline| && outline[i].level <= d && forall k | 0 <= k < |outline| :: Fits(outline, k)
    ensures var depth := LastDepth(outline, i, d); depth.Some? ==> depth.value >= outline[|outline| - 1].level
    decreases |outline| - i
  {
    var landing := Landing(outline[i], d);
    if landing.Some? && i + 1 < |outline| {
      assert Fits(outline, i + 1);
      DepthAtLeast(outline, i + 1, Toward(landing.value, outline[i + 1].level));
    }
  }

  lemma NoBracketTake(entry: Entry, d: nat)
    requires Without(entry.text, '[')
    ensures !TakeOf(entry, d).Breaks?
  {
    if d > entry.level && |entry.text| >= 2 * (d - entry.level) - 1 {
      NoBracketNoPastEnd(entry.text[2 * (d - entry.level) - 1..]);
    }
  }

  lemma {:induction false} NoBracketLands(entry: Entry, d: nat)
    requires Without(entry.text, '[')
    ensures Landing(entry, d).Some?
  {
    NoBracketTake(entry, d);
    if TakeOf(entry, d).Leaves? { NoBracketLands(entry, d - 1); }
  }

  lemma {:induction false} NoBracketDepth(outline: seq<Entry>, i: nat, d: nat)
    requires i < |outline| && forall k | 0 <= k < |outline| :: Without(outline[k].text, '[')
    ensures LastDepth(outline, i, d).Some?
    decreases |outline| - i
  {
    NoBracketLands(outline[i], d);
    if i + 1 < |outline| {
      NoBracketDepth(outline, i + 1, Toward(Landing(outline[i], d).value, outline[i + 1].level));
    }
  }

  /** If the last item has a nested list, an exception escapes, or the text of an earlier item is read past
      its end without its first characters, which takes a bracket. */
  lemma NestedEndThrows(recognizer: Recognizer, before: seq<string>, t: Tree)
    requires t.Cons? && TextsParse(t) && !LastIsChildless(t)
    ensures var verdict := Block(recognizer, before + Printed(0, t), |before|).verdict;
            && (verdict == Threw || verdict == PastEnd)
            && ((forall k | 0 <= k < |Outline(0, t)| :: Without(Outline(0, t)[k].text, '[')) ==> verdict == Threw)
  {
    var outline := Outline(0, t);
    ListAtEndExactly(recognizer, before, t);
    LastLevel(0, t);
    OutlineFits(0, t);
    assert forall k | 0 <= k < |outline| :: Fits(outline, k);
    DepthAtLeast(outline, 0, 0);
    if forall k | 0 <= k < |outline| :: Without(outline[k].text, '[') { NoBracketDepth(outline, 0, 0); }
  }

  /** Three items that nest, one at the top again, and the items after it. */
  function DeepDedent(a: string, b: string, c: string, d: string, rest: Tree): Tree {
    Cons(a, Cons(b, Cons(c, Nil, Nil), Nil), Cons(d, Nil, rest))
  }

  lemma DeepDedentParses(a: string, b: string, c: string, d: string, rest: Tree)
    requires ParseLine(a).0 == ParseLine(b).0 == ParseLine(c).0 == ParseLine(d).0 == Paragraph.Ok && TextsParse(rest)
    ensures TextsParse(DeepDedent(a, b, c, d, rest))
  {
    assert TextsParse(Cons(c, Nil, Nil));
    assert TextsParse(Cons(b, Cons(c, Nil, Nil), Nil));
    assert TextsParse(Cons(d, Nil, rest));
  }

  lemma OutlineCons(level: nat, text: string, children: Tree, rest: Tree, inner: seq<Entry>, after: seq<Entry>)
    requires Outline(level + 1, children) == inner && Outline(level, rest) == after
    ensures Outline(level, Cons(text, children, rest)) == [Entry(level, text)] + (inner + after)
  {
  }

  lemma DeepDedentOutline(a: string, b: string, c: string, d: string, rest: Tree)
    ensures Outline(0, DeepDedent(a, b, c, d, rest))
              == [Entry(0, a), Entry(1, b), Entry(2, c), Entry(0, d)] + Outline(0, rest)
  {
    var after := Outline(0, rest);
    OutlineCons(2, c, Nil, Nil, [], []);
    OutlineCons(1, b, Cons(c, Nil, Nil), Nil, [Entry(2, c)], []);
    OutlineCons(0, d, Nil, rest, [], after);
    OutlineCons(0, a, Cons(b, Cons(c, Nil, Nil), Nil), Cons(d, Nil, rest), [Entry(1, b), Entry(2, c)],
                [Entry(0, d)] + after);
  }

  lemma DeepDedentDepth(outline: seq<Entry>, a: string, b: string, c: string, d: string, last: seq<Entry>)
    requires outline == [Entry(0, a), Entry(1, b), Entry(2, c), Entry(0, d)] + last
    requires d != "" && ParseLine(d[1..]).0 == Paragraph.Ok
    requires |last| <= 1 && (last != [] ==> last[0].level == 0)
    ensures LastDepth(outline, 0, 0) == Some(if last == [] then 1 else 0)
  {
    if last != [] { DepthAt(outline, 4, 0, Takes); }
    assert TakeOf(outline[3], 1).Takes?;
    DepthAt(outline, 3, 1, Takes);
    DepthAt(outline, 2, 2, Takes);
    DepthAt(outline, 1, 1, Takes);
    DepthAt(outline, 0, 0, Takes);
  }

  /** An item with a text that dedents by two levels and comes last: an exception escapes although that item
      is at the top and has no nested list. */
  lemma DeepDedentThrows(recognizer: Recognizer, before: seq<string>, a: string, b: string, c: string, d: string)
    requires ParseLine(a).0 == ParseLine(b).0 == ParseLine(c).0 == ParseLine(d).0 == Paragraph.Ok
    requires d != "" && ParseLine(d[1..]).0 == Paragraph.Ok
    ensures Block(recognizer, before + Printed(0, DeepDedent(a, b, c, d, Nil)), |before|).verdict == Threw
  {
    var t := DeepDedent(a, b, c, d, Nil);
    DeepDedentParses(a, b, c, d, Nil);
    DeepDedentOutline(a, b, c, d, Nil);
    DeepDedentDepth(Outline(0, t), a, b, c, d, []);
    ListAtEndExactly(recognizer, before, t);
  }

  /** With one more item behind it there is none. */
  lemma OneMoreItemReturns(recognizer: Recognizer, before: seq<string>, a: string, b: string, c: string, d: string,
                           e: string)
    requires ParseLine(a).0 == ParseLine(b).0 == ParseLine(c).0 == ParseLine(d).0 == ParseLine(e).0 == Paragraph.Ok
    requires d != "" && ParseLine(d[1..]).0 == Paragraph.Ok
    ensures Block(recognizer, before + Printed(0, DeepDedent(a, b, c, d, Cons(e, Nil, Nil))), |before|).verdict == Ok
  {
    var t := DeepDedent(a, b, c, d, Cons(e, Nil, Nil));
    DeepDedentParses(a, b, c, d, Cons(e, Nil, Nil));
    DeepDedentOutline(a, b, c, d, Cons(e, Nil, Nil));
    DeepDedentDepth(Outline(0, t), a, b, c, d, [Entry(0, e)]);
    ListAtEndExactly(recognizer, before, t);
  }
}
