/** Emphasis inside a run of plain text: "**", "*" and "~~" become opening and closing tags. */
module Emphasis {

  datatype Mark = Strong | Em | Strike

  datatype Token = Char(c: char) | Open(mark: Mark) | Close(mark: Mark)

  /** Marks still open, innermost last. */
  type Stack = seq<Mark>

  function Marker(m: Mark): string {
    match m
    case Strong => "**"
    case Em => "*"
    case Strike => "~~"
  }

  // ---------------------------------------------------------------- specification

  /** A marker closes the innermost mark when it is of the same kind, and opens a new one otherwise. */
  predicate Closes(stack: Stack, m: Mark) {
    stack != [] && stack[|stack| - 1] == m
  }

  function TagOf(stack: Stack, m: Mark): Token {
    if Closes(stack, m) then Close(m) else Open(m)
  }

  function Toggle(stack: Stack, m: Mark): Stack {
    if Closes(stack, m) then stack[..|stack| - 1] else stack + [m]
  }

  /** The marker read at the front of the text: the longest one, and none for a single '~'. */
  datatype Reading = NoMark | Read(mark: Mark)

  function FrontMark(s: string): (r: Reading)
    ensures r.Read? ==> |Marker(r.mark)| <= |s| && s[..|Marker(r.mark)|] == Marker(r.mark)
  {
    if s == "" || (s[0] != '*' && s[0] != '~') then NoMark
    else if s[0] == '~' then if |s| > 1 && s[1] == '~' then Read(Strike) else NoMark
    else if |s| > 1 && s[1] == '*' then Read(Strong) else Read(Em)
  }

  function Tokens(s: string, stack: Stack): (seq<Token>, Stack) {
    if s == "" then ([], stack)
    else match FrontMark(s)
      case NoMark =>
        var (rest, last) := Tokens(s[1..], stack);
        ([Char(s[0])] + rest, last)
      case Read(m) =>
        var (rest, last) := Tokens(s[|Marker(m)|..], Toggle(stack, m));
        ([TagOf(stack, m)] + rest, last)
  }

  function TagName(m: Mark): string {
    match m
    case Strong => "strong"
    case Em => "em"
    case Strike => "strike"
  }

  function TokenHtml(t: Token): string {
    match t
    case Char(c) => [c]
    case Open(m) => "<" + TagName(m) + ">"
    case Close(m) => "</" + TagName(m) + ">"
  }

  function Html(ts: seq<Token>): string {
    if ts == [] then "" else TokenHtml(ts[0]) + Html(ts[1..])
  }

  // ---------------------------------------------------------------- implementation

  /** The tag replacement of a text run: the HTML, and whether all marks were closed. */
  method Replace(substrView: string) returns (ss: string, closed: bool)
    ensures ss == Html(Tokens(substrView, []).0)
    ensures closed == (Tokens(substrView, []).1 == [])
  {
    var svIdx := 0;
    var markStates: Stack := [];
    ss := "";
    assert substrView[0..] == substrView;
    ghost var rest := substrView;
    while svIdx < |substrView|
      invariant 0 <= svIdx <= |substrView| && rest == substrView[svIdx..]
      invariant Resumes(substrView, ss, rest, markStates)
    {
      ss, markStates, svIdx, rest := ReplaceNext(substrView, svIdx, ss, markStates, rest);
    }
    closed := markStates == [];
  }

  /** Having written `ss`, with these marks open, the rest `s` completes the tokens of the whole. */
  ghost predicate Resumes(whole: string, ss: string, s: string, stack: Stack) {
    match (Tokens(whole, []), Tokens(s, stack))
    case ((all, end), (more, last)) => Html(all) == ss + Html(more) && end == last
  }

  lemma ResumeAfter(whole: string, ss: string, s: string, stack: Stack)
    requires Resumes(whole, ss, s, stack) && s != ""
    ensures match FrontMark(s)
            case NoMark => Resumes(whole, ss + [s[0]], s[1..], stack)
            case Read(m) => Resumes(whole, ss + TokenHtml(TagOf(stack, m)), s[|Marker(m)|..], Toggle(stack, m))
  {
  }

  /** The marker at `idx`, as the loop decides it. */
  lemma MarkAt(whole: string, idx: nat)
    requires idx < |whole|
    ensures var c := whole[idx];
            var twice := idx + 1 < |whole| && whole[idx + 1] == c;
            FrontMark(whole[idx..]) == (if c == '~' && twice then Read(Strike)
                                        else if c == '*' && twice then Read(Strong)
                                        else if c == '*' then Read(Em)
                                        else NoMark)
  {
  }

  lemma DropDrop(s: string, i: nat, k: nat)
    requires i + k <= |s|
    ensures s[i..][k..] == s[i + k..]
  {
  }

  /** One round of the loop over the text. */
  method ReplaceNext(whole: string, idx: nat, ss: string, stack: Stack, ghost rest: string)
      returns (ss': string, stack': Stack, idx': nat, ghost rest': string)
    requires idx < |whole| && rest == whole[idx..] && Resumes(whole, ss, rest, stack)
    ensures idx < idx' <= |whole| && rest' == whole[idx'..] && Resumes(whole, ss', rest', stack')
  {
    var reading := ReadMark(whole, idx);
    ResumeAfter(whole, ss, rest, stack);
    match reading {
      case NoMark =>
        rest' := rest[1..];
        return ss + [whole[idx]], stack, idx + 1, rest';
      case Read(m) =>
        rest' := rest[|Marker(m)|..];
        idx' := idx + |Marker(m)|;
        ss', stack' := Emit(ss, stack, m);
        DropDrop(whole, idx, |Marker(m)|);
    }
  }

  method ReadMark(whole: string, idx: nat) returns (r: Reading)
    requires idx < |whole|
    ensures r == FrontMark(whole[idx..])
  {
    MarkAt(whole, idx);
    if whole[idx] != '*' && whole[idx] != '~' {
      return NoMark;
    } else if whole[idx] == '~' {
      if idx + 1 < |whole| && whole[idx + 1] == '~' {
        return Read(Strike);
      } else {
        return NoMark;
      }
    } else {
      if idx + 1 < |whole| && whole[idx + 1] == '*' {
        return Read(Strong);
      } else {
        return Read(Em);
      }
    }
  }

  method Emit(ss: string, stack: Stack, m: Mark) returns (ss': string, stack': Stack)
    ensures ss' == ss + TokenHtml(TagOf(stack, m)) && stack' == Toggle(stack, m)
  {
    if stack == [] || stack[|stack| - 1] != m {
      return ss + ("<" + TagName(m) + ">"), stack + [m];
    } else {
      return ss + ("</" + TagName(m) + ">"), stack[..|stack| - 1];
    }
  }

  // ---------------------------------------------------------------- what the tokens are

  /** The text with its markers, as it stood in the source. */
  function Source(ts: seq<Token>): string {
    if ts == [] then ""
    else (match ts[0] case Char(c) => [c] case Open(m) => Marker(m) case Close(m) => Marker(m)) + Source(ts[1..])
  }

  /** Markers are read greedily: no single '*' stands before another one, and no single '~'. */
  ghost predicate Greedy(ts: seq<Token>) {
    ts == [] ||
    (&& Greedy(ts[1..])
     && var next := Source(ts[1..]);
        match ts[0]
        case Char(c) => c != '*' && (c == '~' ==> next == "" || next[0] != '~')
        case Open(m) => m == Em ==> next == "" || next[0] != '*'
        case Close(m) => m == Em ==> next == "" || next[0] != '*')
  }

  /** Starting with these marks open, tags only close the innermost mark, and never open a mark
      directly inside one of the same kind; `last` is what stays open. */
  ghost predicate Nests(ts: seq<Token>, stack: Stack, last: Stack)
    decreases |ts|
  {
    if ts == [] then stack == last
    else match ts[0]
      case Char(_) => Nests(ts[1..], stack, last)
      case Open(m) => !Closes(stack, m) && Nests(ts[1..], stack + [m], last)
      case Close(m) => Closes(stack, m) && Nests(ts[1..], stack[..|stack| - 1], last)
  }

  ghost predicate Faithful(s: string, stack: Stack, ts: seq<Token>, last: Stack) {
    Source(ts) == s && Greedy(ts) && Nests(ts, stack, last)
  }

  lemma CharStaysFaithful(c: char, s: string, stack: Stack, ts: seq<Token>, last: Stack)
    requires Faithful(s, stack, ts, last) && FrontMark([c] + s) == NoMark
    ensures Faithful([c] + s, stack, [Char(c)] + ts, last)
  {
  }

  lemma MarkStaysFaithful(m: Mark, s: string, stack: Stack, ts: seq<Token>, last: Stack)
    requires Faithful(s, Toggle(stack, m), ts, last) && FrontMark(Marker(m) + s) == Read(m)
    ensures Faithful(Marker(m) + s, stack, [TagOf(stack, m)] + ts, last)
  {
  }

  lemma {:induction false} TokensAreFaithful(s: string, stack: Stack)
    ensures var (ts, last) := Tokens(s, stack); Faithful(s, stack, ts, last)
  {
    if s != "" {
      match FrontMark(s) {
        case NoMark =>
          TokensAreFaithful(s[1..], stack);
          assert s == [s[0]] + s[1..];
          CharStaysFaithful(s[0], s[1..], stack, Tokens(s[1..], stack).0, Tokens(s[1..], stack).1);
        case Read(m) =>
          var rest := s[|Marker(m)|..];
          TokensAreFaithful(rest, Toggle(stack, m));
          assert s == Marker(m) + rest;
          MarkStaysFaithful(m, rest, stack, Tokens(rest, Toggle(stack, m)).0, Tokens(rest, Toggle(stack, m)).1);
      }
    }
  }

  lemma TokensOfChar(c: char, s: string, stack: Stack)
    requires c != '*' && (c == '~' ==> s == "" || s[0] != '~')
    ensures Tokens([c] + s, stack) == ([Char(c)] + Tokens(s, stack).0, Tokens(s, stack).1)
  {
  }

  lemma TokensOfMark(m: Mark, s: string, stack: Stack)
    requires m == Em ==> s == "" || s[0] != '*'
    ensures var (rest, last) := Tokens(s, Toggle(stack, m));
            Tokens(Marker(m) + s, stack) == ([TagOf(stack, m)] + rest, last)
  {
  }

  lemma {:induction false} TokensAreUnique(s: string, stack: Stack, ts: seq<Token>, last: Stack)
    requires Faithful(s, stack, ts, last)
    ensures Tokens(s, stack) == (ts, last)
    decreases |ts|
  {
    if ts != [] {
      var rest := Source(ts[1..]);
      assert ts == [ts[0]] + ts[1..];
      match ts[0] {
        case Char(c) =>
          TokensOfChar(c, rest, stack);
          TokensAreUnique(rest, stack, ts[1..], last);
        case Open(m) =>
          TokensOfMark(m, rest, stack);
          TokensAreUnique(rest, stack + [m], ts[1..], last);
        case Close(m) =>
          TokensOfMark(m, rest, stack);
          TokensAreUnique(rest, stack[..|stack| - 1], ts[1..], last);
      }
    }
  }

  /** The tokens of a text are exactly the greedy, nesting token sequence that spells it. */
  lemma TokensCharacterized(s: string, ts: seq<Token>, last: Stack)
    ensures Tokens(s, []) == (ts, last) <==> Faithful(s, [], ts, last)
  {
    TokensAreFaithful(s, []);
    if Faithful(s, [], ts, last) {
      TokensAreUnique(s, [], ts, last);
    }
  }

  // ---------------------------------------------------------------- nesting

  /** Properly nested text: characters, and marked passages which are again properly nested. */
  datatype Forest = Nil | Plain(c: char, after: Forest) | Marked(mark: Mark, inner: Forest, after: Forest)

  function Word(f: Forest): seq<Token> {
    match f
    case Nil => []
    case Plain(c, after) => [Char(c)] + Word(after)
    case Marked(m, inner, after) => [Open(m)] + (Word(inner) + ([Close(m)] + Word(after)))
  }

  /** The closing tags still owed for these open marks, innermost first. */
  function Closers(stack: Stack): seq<Token> {
    if stack == [] then [] else [Close(stack[|stack| - 1])] + Closers(stack[..|stack| - 1])
  }

  datatype Pairing = Stray | Left(stack: Stack)

  /** What a checker of tag pairs has left over, or that a closing tag fits no opening one. */
  function Pair(ts: seq<Token>, stack: Stack): Pairing
    decreases |ts|
  {
    if ts == [] then Left(stack)
    else match ts[0]
      case Char(_) => Pair(ts[1..], stack)
      case Open(m) => Pair(ts[1..], stack + [m])
      case Close(m) => if Closes(stack, m) then Pair(ts[1..], stack[..|stack| - 1]) else Stray
  }

  lemma {:induction false} NestsPair(ts: seq<Token>, stack: Stack, last: Stack)
    requires Nests(ts, stack, last)
    ensures Pair(ts, stack) == Left(last)
    decreases |ts|
  {
    if ts != [] {
      match ts[0]
      case Char(_) => NestsPair(ts[1..], stack, last);
      case Open(m) => NestsPair(ts[1..], stack + [m], last);
      case Close(m) => NestsPair(ts[1..], stack[..|stack| - 1], last);
    }
  }

  lemma {:induction false} PairAppend(a: seq<Token>, b: seq<Token>, stack: Stack)
    ensures Pair(a + b, stack) == (match Pair(a, stack) case Stray => Stray case Left(mid) => Pair(b, mid))
    decreases |a|
  {
    if a == [] {
      assert a + b == b;
    } else {
      assert (a + b)[1..] == a[1..] + b;
      match a[0]
      case Char(_) => PairAppend(a[1..], b, stack);
      case Open(m) => PairAppend(a[1..], b, stack + [m]);
      case Close(m) => if Closes(stack, m) { PairAppend(a[1..], b, stack[..|stack| - 1]); }
    }
  }

  /** Whatever marks are open around it, a nested word leaves just those open. */
  lemma {:induction false} WordKeepsStack(f: Forest, stack: Stack)
    ensures Pair(Word(f), stack) == Left(stack)
  {
    match f
    case Nil =>
    case Plain(c, after) =>
      assert Word(f)[1..] == Word(after);
      WordKeepsStack(after, stack);
    case Marked(m, inner, after) =>
      var rest := [Close(m)] + Word(after);
      assert Word(f)[1..] == Word(inner) + rest;
      WordKeepsStack(inner, stack + [m]);
      PairAppend(Word(inner), rest, stack + [m]);
      assert rest[1..] == Word(after);
      assert (stack + [m])[..|stack|] == stack;
      WordKeepsStack(after, stack);
  }

  /** The tags owed for some marks close exactly those marks. */
  lemma {:induction false} ClosersClose(open: Stack, stack: Stack)
    ensures Pair(Closers(open), stack) == Left([]) <==> open == stack
    decreases |open|
  {
    if open != [] {
      var n := |open| - 1;
      assert Closers(open)[1..] == Closers(open[..n]);
      if Closes(stack, open[n]) {
        ClosersClose(open[..n], stack[..|stack| - 1]);
        SameInnermost(open, stack);
      }
    }
  }

  lemma SameInnermost(open: Stack, stack: Stack)
    requires open != [] && Closes(stack, open[|open| - 1])
    ensures open[..|open| - 1] == stack[..|stack| - 1] <==> open == stack
  {
  }

  /** Reads the longest nested word in front. */
  lemma {:induction false} NestedPrefix(ts: seq<Token>, stack: Stack) returns (f: Forest, rest: seq<Token>)
    requires Pair(ts, stack) == Left([])
    ensures ts == Word(f) + rest && Pair(rest, stack) == Left([])
    ensures rest != [] ==> rest[0].Close?
    decreases |ts|
  {
    if ts == [] || ts[0].Close? {
      f, rest := Nil, ts;
    } else if ts[0].Char? {
      var after;
      after, rest := NestedPrefix(ts[1..], stack);
      f := Plain(ts[0].c, after);
    } else {
      var m := ts[0].mark;
      var inner, mid := NestedPrefix(ts[1..], stack + [m]);
      assert (stack + [m])[..|stack|] == stack;
      var after;
      after, rest := NestedPrefix(mid[1..], stack);
      f := Marked(m, inner, after);
      MarkedWord(ts, m, Word(inner), mid, Word(after), rest);
    }
  }

  lemma MarkedWord(ts: seq<Token>, m: Mark, inner: seq<Token>, mid: seq<Token>, after: seq<Token>, rest: seq<Token>)
    requires ts != [] && ts[0] == Open(m) && ts[1..] == inner + mid
    requires mid != [] && mid[0] == Close(m) && mid[1..] == after + rest
    ensures ts == [Open(m)] + (inner + ([Close(m)] + after)) + rest
  {
  }

  /** The tags of a text are the beginning of a nested word, and the marks the scan holds open are
      exactly those whose closing tags complete it. */
  lemma OpenMarksAreExact(s: string, open: Stack)
    ensures Tokens(s, []).1 == open <==> exists f :: Word(f) == Tokens(s, []).0 + Closers(open)
  {
    var (ts, last) := Tokens(s, []);
    TokensAreFaithful(s, []);
    NestsPair(ts, [], last);
    PairAppend(ts, Closers(open), []);
    ClosersClose(open, last);
    if last == open {
      var f, rest := NestedPrefix(ts + Closers(open), []);
      assert rest == [];
      assert Word(f) == ts + Closers(open);
    } else if f :| Word(f) == ts + Closers(open) {
      WordKeepsStack(f, []);
    }
  }

  /** Success is reported exactly for text whose tags are properly nested. */
  lemma ClosedExactlyWhenNested(s: string)
    ensures Tokens(s, []).1 == [] <==> exists f :: Word(f) == Tokens(s, []).0
  {
    OpenMarksAreExact(s, []);
    assert Tokens(s, []).0 + Closers([]) == Tokens(s, []).0;
  }
}
