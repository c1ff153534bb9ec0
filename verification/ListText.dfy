/** Printed item lists: how the list parser reads them back, and where its leniency shows. */
module ListText {
  import opened Basics
  import opened Text
  import opened Blocks
  import Paragraph

  /** An item list as it is written: the text of each item, its nested list, and the items after it. */
  datatype Tree = Nil | Cons(text: string, children: Tree, rest: Tree)

  function Spaces(n: nat): (s: string)
    ensures |s| == n && forall k | 0 <= k < n :: s[k] == ' '
  {
    seq(n, _ => ' ')
  }

  /** An item: two blanks per level, the dash, a blank and the text. */
  function Line(level: nat, text: string): string {
    Spaces(2 * level) + ("- " + text)
  }

  function Printed(level: nat, t: Tree): seq<string>
    decreases t
  {
    match t
    case Nil => []
    case Cons(text, children, rest) => [Line(level, text)] + (Printed(level + 1, children) + Printed(level, rest))
  }

  /** The items a list stands for. */
  function ItemsOf(t: Tree): seq<Item> {
    match t
    case Nil => []
    case Cons(text, children, rest) =>
      [Item(ParseLine(text).1, if children.Nil? then None else Some(List(false, ItemsOf(children))))] + ItemsOf(rest)
  }

  predicate LastIsChildless(t: Tree) {
    match t
    case Nil => true
    case Cons(_, children, rest) => if rest.Nil? then children.Nil? else LastIsChildless(rest)
  }

  predicate TextsParse(t: Tree) {
    match t
    case Nil => true
    case Cons(text, children, rest) => ParseLine(text).0 == Paragraph.Ok && TextsParse(children) && TextsParse(rest)
  }

  /** Wherever an item follows a nested list, it dedents by one level only, or has no text. */
  predicate Recoverable(t: Tree) {
    match t
    case Nil => true
    case Cons(_, children, rest) =>
      && Recoverable(children) && Recoverable(rest)
      && (rest.Cons? ==> LastIsChildless(children) || rest.text == "")
  }

  function Size(t: Tree): nat {
    match t
    case Nil => 0
    case Cons(_, children, rest) => 1 + Size(children) + Size(rest)
  }

  /** The lines from `i` on are the printed tree. */
  ghost predicate Stands(lines: seq<string>, i: nat, level: nat, t: Tree)
    decreases t
  {
    match t
    case Nil => i <= |lines|
    case Cons(text, children, rest) =>
      && i < |lines| && lines[i] == Line(level, text)
      && Stands(lines, i + 1, level + 1, children)
      && Stands(lines, i + 1 + Size(children), level, rest)
  }

  lemma StandsFirst(lines: seq<string>, i: nat, level: nat, t: Tree)
    requires Stands(lines, i, level, t) && t.Cons?
    ensures i < |lines| && lines[i] == Line(level, t.text) && Size(t) == 1 + Size(t.children) + Size(t.rest)
    ensures Stands(lines, i + 1, level + 1, t.children) && Stands(lines, i + 1 + Size(t.children), level, t.rest)
  {
  }

  lemma RestStands(lines: seq<string>, i: nat, level: nat, t: Tree, next: nat)
    requires t.Cons? && Stands(lines, i, level, t) && t.rest.Cons? && next == i + 1 + Size(t.children)
    ensures next < |lines| && lines[next] == Line(level, t.rest.text)
  {
  }

  lemma {:induction false} PrintedStands(before: seq<string>, level: nat, t: Tree, after: seq<string>)
    ensures |Printed(level, t)| == Size(t) && Stands(before + (Printed(level, t) + after), |before|, level, t)
    decreases t
  {
    if t.Cons? {
      var head, children, rest := [Line(level, t.text)], Printed(level + 1, t.children), Printed(level, t.rest);
      var lines := before + (Printed(level, t) + after);
      PrintedStands(before + head, level + 1, t.children, rest + after);
      PrintedStands(before + head + children, level, t.rest, after);
      assert lines == (before + head) + (children + (rest + after));
      assert lines == (before + head + children) + (rest + after);
    }
  }

  lemma LineIndent(level: nat, text: string)
    ensures SkipBlanks(Line(level, text), 0) == 2 * level && At(Line(level, text), 2 * level) == '-'
    ensures |Line(level, text)| >= 2 * level + 2 && Line(level, text)[2 * level + 1..] == " " + text
  {
    var line := Line(level, text);
    var r := SkipBlanks(line, 0);
    assert line[2 * level] == '-';
    assert forall k | 0 <= k < 2 * level :: IsSpace(line[k]);
    assert line[2 * level + 1..] == ("- " + text)[1..] == " " + text;
  }

  lemma TextIsRead(text: string)
    ensures ParseLine(" " + text) == ParseLine(text)
  {
  }

  /** A printed item shows its text. */
  lemma LineIsItem(level: nat, text: string)
    requires ParseLine(text).0 == Paragraph.Ok
    ensures ReadLine(false, 2 * level, Line(level, text)) == ItemText(Paragraph.Ok, ParseLine(text).1)
  {
    LineIndent(level, text);
    TextIsRead(text);
  }

  lemma SequelLine(level: nat, next: string, outer: nat, text: string)
    requires next == Line(outer, text)
    ensures SequelOf(false, 2 * level, next) ==
              if outer == level then Sibling else if outer > level then Child(false, 2 * outer) else Done
  {
    LineIndent(outer, text);
  }

  lemma ItemsOfCons(t: Tree, text: Para, child: Option<List>)
    requires t.Cons? && ParseLine(t.text).1 == text
    requires child == if t.children.Nil? then None else Some(List(false, ItemsOf(t.children)))
    ensures ItemsOf(t) == [Item(text, child)] + ItemsOf(t.rest)
  {
  }

  /** What the list parser makes of a printed item, by the line after it. */
  lemma ItemStage(lines: seq<string>, i: nat, level: nat, text: string, sequel: Sequel)
    requires i + 1 < |lines| && lines[i] == Line(level, text) && ParseLine(text).0 == Paragraph.Ok
    requires SequelOf(false, 2 * level, lines[i + 1]) == sequel && !sequel.Child?
    ensures var item := Item(ParseLine(text).1, None);
            Items(false, 2 * level, lines, i) ==
              if sequel.Done? then Listed(Ok, [item], i + 1) else Before([item], Items(false, 2 * level, lines, i + 1))
  {
    LineIsItem(level, text);
    var item := Item(ParseLine(text).1, None);
    ItemsFrom(false, 2 * level, lines, i, if sequel.Done? then Ends(Listed(Ok, [item], i + 1)) else Goes(item, i + 1));
  }

  lemma ParentStage(lines: seq<string>, i: nat, level: nat, text: string, indent: nat, child: Listed)
    requires i + 1 < |lines| && lines[i] == Line(level, text) && ParseLine(text).0 == Paragraph.Ok
    requires SequelOf(false, 2 * level, lines[i + 1]) == Child(false, indent)
             && child == Items(false, indent, lines, i + 1)
    ensures var parent := Item(ParseLine(text).1, Some(List(false, child.items)));
            Items(false, 2 * level, lines, i) ==
              if Returns(child.verdict) then Before([parent], Items(false, 2 * level, lines, child.next))
              else Listed(child.verdict, [parent], child.next)
  {
    LineIsItem(level, text);
    var parent := Item(ParseLine(text).1, Some(List(false, child.items)));
    ItemsFrom(false, 2 * level, lines, i,
              if Returns(child.verdict) then Goes(parent, child.next)
              else Ends(Listed(child.verdict, [parent], child.next)));
  }

  lemma ShortLineEnds(lines: seq<string>, i: nat, pos: nat)
    requires i < |lines| && |lines[i]| <= pos
    ensures Items(false, pos, lines, i) == Listed(Ok, [], i)
  {
    ItemsFrom(false, pos, lines, i, Ends(Listed(Ok, [], i)));
  }

  lemma LongLineIsItem(lines: seq<string>, i: nat, pos: nat)
    requires i < |lines| && |lines[i]| > pos
    ensures Items(false, pos, lines, i).items != []
  {
    ItemsFrom(false, pos, lines, i, ItemAt(false, pos, lines, i));
  }

  // ---------------------------------------------------------------- exactly when a list is read back

  /** The lines end here, or the one at `end` does not go on with a list of this level. */
  ghost predicate Over(lines: seq<string>, end: nat, level: nat) {
    end == |lines| || (end < |lines| && SequelOf(false, 2 * level, lines[end]) == Done)
  }

  lemma OverDeeper(lines: seq<string>, end: nat, level: nat)
    requires Over(lines, end, level)
    ensures Over(lines, end, level + 1)
  {
  }

  /** No list inside the tree takes a line that is not its own. The line at `end` is taken if a nested
      list comes last, and the line is longer than the indentation. */
  ghost predicate Recovered(lines: seq<string>, end: nat, level: nat, t: Tree) {
    Recoverable(t) && (end < |lines| ==> LastIsChildless(t) || |lines[end]| <= 2 * level)
  }

  /** A nested list that comes last is only ended by a line after it. */
  function VerdictAt(lines: seq<string>, end: nat, t: Tree): Verdict {
    if end == |lines| && !LastIsChildless(t) then Threw else Ok
  }

  /** `l` holds the items of the tree exactly if the tree can be recovered, and then it ends properly. */
  ghost predicate Told(l: Listed, lines: seq<string>, end: nat, level: nat, t: Tree) {
    && (l.items == ItemsOf(t) <==> Recovered(lines, end, level, t))
    && (l.items == ItemsOf(t) ==> l.verdict == VerdictAt(lines, end, t) && l.next == end)
  }

  ghost predicate Placed(lines: seq<string>, i: nat, level: nat, t: Tree, end: nat) {
    t.Cons? && TextsParse(t) && Stands(lines, i, level, t) && end == i + Size(t) && Over(lines, end, level)
  }

  lemma {:induction false} ListIsTold(lines: seq<string>, i: nat, level: nat, t: Tree, end: nat)
    requires Placed(lines, i, level, t, end)
    ensures Told(Items(false, 2 * level, lines, i), lines, end, level, t)
    decreases t
  {
    if t.children.Cons? {
      BranchIsTold(lines, i, level, t, i + 1 + Size(t.children), end);
    } else if t.rest.Cons? {
      LeafIsTold(lines, i, level, t, end);
    } else {
      LastLeaf(lines, i, level, t, end);
    }
  }

  lemma LastLeaf(lines: seq<string>, i: nat, level: nat, t: Tree, end: nat)
    requires Placed(lines, i, level, t, end) && t.children.Nil? && t.rest.Nil?
    ensures Told(Items(false, 2 * level, lines, i), lines, end, level, t)
  {
    var item := Item(ParseLine(t.text).1, None);
    LineIsItem(level, t.text);
    ItemsFrom(false, 2 * level, lines, i, Ends(Listed(Ok, [item], i + 1)));
    ItemsOfCons(t, item.text, None);
    assert ItemsOf(t) == [item] && Recoverable(t);
  }

  lemma {:induction false} LeafIsTold(lines: seq<string>, i: nat, level: nat, t: Tree, end: nat)
    requires Placed(lines, i, level, t, end) && t.children.Nil? && t.rest.Cons?
    ensures Told(Items(false, 2 * level, lines, i), lines, end, level, t)
    decreases t, 0
  {
    var item := Item(ParseLine(t.text).1, None);
    StandsFirst(lines, i, level, t);
    ListIsTold(lines, i + 1, level, t.rest, end);
    LeafSequel(lines, i, level, t);
    ItemStage(lines, i, level, t.text, Sibling);
    RestTold(Items(false, 2 * level, lines, i), item, Items(false, 2 * level, lines, i + 1), lines, end, level, t);
  }

  lemma LeafSequel(lines: seq<string>, i: nat, level: nat, t: Tree)
    requires t.Cons? && Stands(lines, i, level, t) && t.children.Nil? && t.rest.Cons?
    ensures i + 1 < |lines| && SequelOf(false, 2 * level, lines[i + 1]) == Sibling
  {
    RestStands(lines, i, level, t, i + 1);
    SequelLine(level, lines[i + 1], level, t.rest.text);
  }

  lemma ConsApart<T>(x: T, s: seq<T>, y: T, t: seq<T>)
    ensures [x] + s == [y] + t <==> x == y && s == t
  {
    if [x] + s == [y] + t {
      assert ([x] + s)[0] == ([y] + t)[0];
      assert s == ([x] + s)[1..] && t == ([y] + t)[1..];
    }
  }

  /** An item of the tree in front of the rest of its list. */
  lemma RestTold(l: Listed, item: Item, more: Listed, lines: seq<string>, end: nat, level: nat, t: Tree)
    requires t.Cons? && t.rest.Cons? && l == Before([item], more) && Told(more, lines, end, level, t.rest)
    requires Recoverable(t.children) && (LastIsChildless(t.children) || t.rest.text == "")
    requires ItemsOf(t)[0] == item
    ensures Told(l, lines, end, level, t)
  {
    ConsApart(item, more.items, ItemsOf(t)[0], ItemsOf(t.rest));
  }

  lemma AfterChildren(lines: seq<string>, i: nat, level: nat, t: Tree, mid: nat, end: nat)
    requires Placed(lines, i, level, t, end) && mid == i + 1 + Size(t.children)
    ensures if t.rest.Cons? then mid < |lines| && lines[mid] == Line(level, t.rest.text) else mid == end
  {
    StandsFirst(lines, i, level, t);
    if t.rest.Cons? { RestStands(lines, i, level, t, mid); }
  }

  lemma ChildrenPlaced(lines: seq<string>, i: nat, level: nat, t: Tree, mid: nat, end: nat)
    requires Placed(lines, i, level, t, end) && t.children.Cons? && mid == i + 1 + Size(t.children)
    ensures Placed(lines, i + 1, level + 1, t.children, mid)
  {
    AfterChildren(lines, i, level, t, mid, end);
    if t.rest.Cons? {
      SequelLine(level + 1, lines[mid], level, t.rest.text);
    } else {
      OverDeeper(lines, end, level);
    }
  }

  lemma RestPlaced(lines: seq<string>, i: nat, level: nat, t: Tree, mid: nat, end: nat)
    requires Placed(lines, i, level, t, end) && t.rest.Cons? && mid == i + 1 + Size(t.children)
    ensures Placed(lines, mid, level, t.rest, end)
  {
  }

  lemma BranchSequel(lines: seq<string>, i: nat, level: nat, t: Tree)
    requires t.Cons? && Stands(lines, i, level, t) && t.children.Cons?
    ensures i + 1 < |lines| && SequelOf(false, 2 * level, lines[i + 1]) == Child(false, 2 * (level + 1))
  {
    StandsFirst(lines, i + 1, level + 1, t.children);
    SequelLine(level, lines[i + 1], level + 1, t.children.text);
  }

  lemma {:induction false} ChildrenTold(lines: seq<string>, i: nat, level: nat, t: Tree, mid: nat, end: nat)
    requires Placed(lines, i, level, t, end) && t.children.Cons? && mid == i + 1 + Size(t.children)
    ensures Told(Items(false, 2 * (level + 1), lines, i + 1), lines, mid, level + 1, t.children)
    ensures t.rest.Cons? ==> Told(Items(false, 2 * level, lines, mid), lines, end, level, t.rest)
    decreases t, 0
  {
    ChildrenPlaced(lines, i, level, t, mid, end);
    ListIsTold(lines, i + 1, level + 1, t.children, mid);
    if t.rest.Cons? {
      RestPlaced(lines, i, level, t, mid, end);
      ListIsTold(lines, mid, level, t.rest, end);
    }
  }

  lemma {:induction false} BranchIsTold(lines: seq<string>, i: nat, level: nat, t: Tree, mid: nat, end: nat)
    requires Placed(lines, i, level, t, end) && t.children.Cons? && mid == i + 1 + Size(t.children)
    ensures Told(Items(false, 2 * level, lines, i), lines, end, level, t)
    decreases t, 1
  {
    var text, child := ParseLine(t.text).1, Items(false, 2 * (level + 1), lines, i + 1);
    var item := Item(text, Some(List(false, child.items)));
    ChildrenTold(lines, i, level, t, mid, end);
    AfterChildren(lines, i, level, t, mid, end);
    BranchSequel(lines, i, level, t);
    ParentStage(lines, i, level, t.text, 2 * (level + 1), child);
    ItemsOfCons(t, text, Some(List(false, ItemsOf(t.children))));
    var l := Items(false, 2 * level, lines, i);
    if child.items != ItemsOf(t.children) {
      assert l.items[0] == item;
      ChildrenLost(lines, level, t, mid, end);
    } else if t.rest.Cons? {
      RestTold(l, item, Items(false, 2 * level, lines, mid), lines, end, level, t);
    } else {
      LastBranch(lines, i, level, t, end, child, l);
    }
  }

  lemma ChildrenLost(lines: seq<string>, level: nat, t: Tree, mid: nat, end: nat)
    requires t.Cons? && !Recovered(lines, mid, level + 1, t.children)
    requires if t.rest.Cons? then mid < |lines| && lines[mid] == Line(level, t.rest.text)
             else mid == end && t.children.Cons?
    ensures !Recovered(lines, end, level, t)
  {
  }

  /** After a nested list that comes last: the end of the lines, a short line, or one that is taken. */
  lemma LastBranch(lines: seq<string>, i: nat, level: nat, t: Tree, end: nat, child: Listed, l: Listed)
    requires t.Cons? && t.children.Cons? && t.rest.Nil? && child.items == ItemsOf(t.children)
             && child.next == end <= |lines|
    requires Recovered(lines, end, level + 1, t.children) && child.verdict == VerdictAt(lines, end, t.children)
    requires var item := Item(ParseLine(t.text).1, Some(List(false, child.items)));
             l == if Returns(child.verdict) then Before([item], Items(false, 2 * level, lines, end))
                  else Listed(child.verdict, [item], end)
    ensures Told(l, lines, end, level, t)
  {
    var more := Items(false, 2 * level, lines, end);
    var item := Item(ParseLine(t.text).1, Some(List(false, child.items)));
    ItemsOfCons(t, item.text, item.child);
    assert ItemsOf(t) == [item] && !LastIsChildless(t) && Recoverable(t) == Recoverable(t.children);
    if end == |lines| {
      ItemsFrom(false, 2 * level, lines, end, Ends(Listed(Threw, [], end)));
    } else if |lines[end]| <= 2 * level {
      ShortLineEnds(lines, end, 2 * level);
    } else {
      LongLineIsItem(lines, end, 2 * level);
      assert |l.items| > 1;
    }
  }

  lemma DashStartsList(recognizer: Recognizer, lines: seq<string>, i: nat, text: string)
    requires i < |lines| && lines[i] == Line(0, text)
    ensures Block(recognizer, lines, i) == ListBlock(false, lines, i)
  {
    assert lines[i][0] == '-' && lines[i][1] == ' ';
    assert SkipChar(lines[i], '-', 0) <= 1;
    assert Block(recognizer, lines, i) == DashBlock(lines, i);
  }

  /** A printed list between any lines parses back to itself, up to its last line, if and only if no item
      with a text dedents by more than one level, and the last item has no nested list or an empty line
      follows. The line that follows must not itself go on with the list. */
  lemma ItemListReadsBackExactly(recognizer: Recognizer, before: seq<string>, t: Tree, after: seq<string>)
    requires t.Cons? && TextsParse(t) && (after != [] ==> SequelOf(false, 0, after[0]) == Done)
    ensures var o := Block(recognizer, before + (Printed(0, t) + after), |before|);
            o == Outcome(Ok, [ItemList(List(false, ItemsOf(t)))], [], |before| + |Printed(0, t)|)
            <==> Recoverable(t) && (LastIsChildless(t) || (after != [] && after[0] == ""))
  {
    var i := |before|;
    var lines, end := before + (Printed(0, t) + after), i + Size(t);
    PrintedStands(before, 0, t, after);
    assert |lines| == end + |after| && (after != [] ==> lines[end] == after[0]);
    ListIsTold(lines, i, 0, t, end);
    DashStartsList(recognizer, lines, i, t.text);
  }

  /** The case of an empty line after the list. */
  lemma ItemListRoundTrip(recognizer: Recognizer, before: seq<string>, t: Tree, after: seq<string>)
    requires t.Cons? && TextsParse(t)
    ensures var lines := before + (Printed(0, t) + ([""] + after));
            Block(recognizer, lines, |before|)
              == Outcome(Ok, [ItemList(List(false, ItemsOf(t)))], [], |before| + |Printed(0, t)|)
            <==> Recoverable(t)
  {
    ItemListReadsBackExactly(recognizer, before, t, [""] + after);
  }

  /** The case of no line after the list: if the last item has a nested list, an exception escapes. */
  lemma ItemListAtEnd(recognizer: Recognizer, before: seq<string>, t: Tree)
    requires t.Cons? && TextsParse(t)
    ensures var lines := before + Printed(0, t);
            var o := Block(recognizer, lines, |before|);
            && (o == Outcome(Ok, [ItemList(List(false, ItemsOf(t)))], [], |lines|)
                <==> Recoverable(t) && LastIsChildless(t))
            && (Recoverable(t) && !LastIsChildless(t) ==> o.verdict == Threw)
  {
    var lines := before + Printed(0, t);
    PrintedStands(before, 0, t, []);
    assert Printed(0, t) + [] == Printed(0, t);
    ListIsTold(lines, |before|, 0, t, |lines|);
    DashStartsList(recognizer, lines, |before|, t.text);
  }

  // ---------------------------------------------------------------- dedenting by two levels

  ghost predicate FiveLines(lines: seq<string>, a: string, b: string, c: string, d: string) {
    lines == [Line(0, a), Line(1, b), Line(2, c), Line(0, d), ""]
  }

  lemma PrintedFiveLines(a: string, b: string, c: string, d: string)
    ensures FiveLines(Printed(0, Cons(a, Cons(b, Cons(c, Nil, Nil), Nil), Cons(d, Nil, Nil))) + [""], a, b, c, d)
  {
    assert Printed(2, Cons(c, Nil, Nil)) == [Line(2, c)];
    assert Printed(1, Cons(b, Cons(c, Nil, Nil), Nil)) == [Line(1, b), Line(2, c)];
    assert Printed(0, Cons(d, Nil, Nil)) == [Line(0, d)];
  }

  lemma InnermostOfFive(lines: seq<string>, a: string, b: string, c: string, d: string, ic: Item)
    requires FiveLines(lines, a, b, c, d) && ParseLine(c).0 == Paragraph.Ok && ic == Item(ParseLine(c).1, None)
    ensures Items(false, 4, lines, 2) == Listed(Ok, [ic], 3)
  {
    SequelLine(2, lines[3], 0, d);
    ItemStage(lines, 2, 2, c, Done);
  }

  lemma MiddleOfFive(lines: seq<string>, a: string, b: string, c: string, d: string, ib: Item, swallowed: Item)
    requires FiveLines(lines, a, b, c, d) && ParseLine(b).0 == ParseLine(c).0 == Paragraph.Ok
    requires d != "" && ParseLine(d[1..]).0 == Paragraph.Ok && swallowed == Item(ParseLine(d[1..]).1, None)
    requires ib == Item(ParseLine(b).1, Some(List(false, [Item(ParseLine(c).1, None)])))
    ensures Items(false, 2, lines, 1) == Listed(Ok, [ib, swallowed], 4)
  {
    var ic := Item(ParseLine(c).1, None);
    SequelLine(1, lines[2], 2, c);
    InnermostOfFive(lines, a, b, c, d, ic);
    Swallowed(lines, 3, d);
    ParentStage(lines, 1, 1, b, 4, Listed(Ok, [ic], 3));
  }

  lemma OuterOfFive(lines: seq<string>, a: string, b: string, c: string, d: string, inner: seq<Item>)
    requires FiveLines(lines, a, b, c, d) && ParseLine(a).0 == Paragraph.Ok
             && Items(false, 2, lines, 1) == Listed(Ok, inner, 4)
    ensures Items(false, 0, lines, 0) == Listed(Ok, [Item(ParseLine(a).1, Some(List(false, inner)))], 4)
  {
    SequelLine(0, lines[1], 1, b);
    ShortLineEnds(lines, 4, 0);
    ParentStage(lines, 0, 0, a, 2, Listed(Ok, inner, 4));
  }

  /** After a nested list the next line is not looked at again: an item with a text that dedents by two
      levels is taken into the list of the level between, without the first character of its text. */
  lemma DeepDedentIsMisread(a: string, b: string, c: string, d: string)
    requires ParseLine(a).0 == ParseLine(b).0 == ParseLine(c).0 == Paragraph.Ok
    requires d != "" && ParseLine(d[1..]).0 == Paragraph.Ok
    ensures var t := Cons(a, Cons(b, Cons(c, Nil, Nil), Nil), Cons(d, Nil, Nil));
            var ib := Item(ParseLine(b).1, Some(List(false, [Item(ParseLine(c).1, None)])));
            var swallowed := Item(ParseLine(d[1..]).1, None);
            Items(false, 0, Printed(0, t) + [""], 0)
              == Listed(Ok, [Item(ParseLine(a).1, Some(List(false, [ib, swallowed])))], 4)
  {
    var ib := Item(ParseLine(b).1, Some(List(false, [Item(ParseLine(c).1, None)])));
    var swallowed := Item(ParseLine(d[1..]).1, None);
    var lines := Printed(0, Cons(a, Cons(b, Cons(c, Nil, Nil), Nil), Cons(d, Nil, Nil))) + [""];
    PrintedFiveLines(a, b, c, d);
    MiddleOfFive(lines, a, b, c, d, ib, swallowed);
    OuterOfFive(lines, a, b, c, d, [ib, swallowed]);
  }

  lemma Swallowed(lines: seq<string>, i: nat, d: string)
    requires i + 1 < |lines| && lines[i] == Line(0, d) && lines[i + 1] == ""
    requires d != "" && ParseLine(d[1..]).0 == Paragraph.Ok
    ensures Items(false, 2, lines, i) == Listed(Ok, [Item(ParseLine(d[1..]).1, None)], i + 1)
  {
    assert lines[i][3..] == d[1..];
    ItemsFrom(false, 2, lines, i, Ends(Listed(Ok, [Item(ParseLine(d[1..]).1, None)], i + 1)));
  }
}
