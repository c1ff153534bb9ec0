/** Which lines are read past their end: those where the scan arrives at a bracket it cannot judge. */
module LineEnd {
  import opened Text
  import opened Paragraph
  import Blocks
  import Emphasis

  /** A bracket whose step looks beyond the line: "[^" at the very end, or any in a line so short that
      the bound `size() - 3` wraps around. */
  predicate ReadsPast(line: string, k: nat) {
    k < |line| && line[k] == '[' && (|line| < 3 || (k + 2 == |line| && line[k + 1] == '^'))
  }

  /** Successful steps lead from one position to the other. */
  predicate Reached(line: string, from: nat, k: nat)
    decreases |line| - from
  {
    || from == k
    || (from < |line| && StepAt(line, from).status == Ok && Reached(line, StepAt(line, from).next, k))
  }

  lemma StepReadsPast(line: string, k: nat)
    requires k < |line|
    ensures StepAt(line, k).status == PastEnd <==> ReadsPast(line, k)
  {
  }

  lemma ReachedOnward(line: string, from: nat, k: nat)
    requires Reached(line, from, k) && ReadsPast(line, k)
    ensures from < |line|
    ensures if StepAt(line, from).status == Ok then Reached(line, StepAt(line, from).next, k) else k == from
  {
    StepReadsPast(line, k);
  }

  /** A scan reads past the end exactly if it arrives at such a bracket. */
  lemma {:induction false} PastEndExactly(line: string, from: nat)
    ensures Scan(line, from).0 == PastEnd <==> exists k :: Reached(line, from, k) && ReadsPast(line, k)
    decreases |line| - from
  {
    if from < |line| {
      var step := StepAt(line, from);
      ScanFirst(line, from);
      StepReadsPast(line, from);
      assert Reached(line, from, from);
      forall k | Reached(line, from, k) && ReadsPast(line, k)
        ensures if step.status == Ok then Reached(line, step.next, k) else k == from
      {
        ReachedOnward(line, from, k);
      }
      if step.status == Ok { PastEndExactly(line, step.next); }
    }
  }

  /** A line of three characters or more is read past its end exactly if, without blanks around it, it
      ends in "[^" and no code, formula, link or footnote name takes in that bracket and no run of text
      before it leaves a mark open. */
  lemma LongLinePastEnd(line: string)
    requires |Strip(line)| >= 3
    ensures var s := Strip(line);
            Blocks.ParseLine(line).0 == PastEnd
            <==> s[|s| - 2..] == "[^" && Reached(s, Begin(s), |s| - 2)
  {
    var s := Strip(line);
    PastEndExactly(s, Begin(s));
    assert s[|s| - 2..] == [s[|s| - 2], s[|s| - 1]];
  }

  /** The case of plain text before the bracket. */
  lemma TextPastEnd(line: string, text: string)
    requires Strip(line) == text + "[^" && text != "" && NoSpecial(text) && Prefix(Strip(line)).None?
    ensures Blocks.ParseLine(line).0 == if Closed(text) then PastEnd else Illegal
  {
    var s := Strip(line);
    var n := |text|;
    assert forall k | 0 <= k < n :: s[k] == text[k];
    assert s[..n] == text && s[n] == '[' && s[n + 1] == '^';
    assert NextSpecial(s, 1) == n;
    assert StepAt(s, 0) == TextAt(s, 0);
    ScanFirst(s, 0);
    ScanFirst(s, n);
    StepReadsPast(s, n);
  }

  lemma OneCharacter(c: char)
    ensures Closed([c]) <==> c != '*'
  {
    assert [c][1..] == "" && Emphasis.Tokens("", []).1 == [];
    assert Emphasis.FrontMark([c]) == if c == '*' then Emphasis.Read(Emphasis.Em) else Emphasis.NoMark;
    assert Emphasis.Tokens("", Emphasis.Toggle([], Emphasis.Em)).1 == [Emphasis.Em];
  }

  /** Shorter lines are read past their end exactly if they begin with a bracket, or end with one that
      neither a code, nor a formula, nor an open mark comes before. */
  lemma ShortLinePastEnd(line: string)
    requires |Strip(line)| < 3
    ensures var s := Strip(line);
            Blocks.ParseLine(line).0 == PastEnd
            <==> || (s != "" && s[0] == '[')
                 || (|s| == 2 && s[1] == '[' && s[0] !in {'`', '$', '*'})
  {
    var s := Strip(line);
    if s != "" {
      ScanFirst(s, 0);
      StepReadsPast(s, 0);
      if |s| == 2 && !Special(s[0]) {
        OneCharacter(s[0]);
        assert s[1] == '[' ==> NextSpecial(s, 1) == 1 && s[0..1] == [s[0]];
        ScanFirst(s, 1);
        StepReadsPast(s, 1);
      }
    }
  }

  /** Without a bracket no line is. */
  lemma NoBracketNoPastEnd(line: string)
    requires Without(line, '[')
    ensures Blocks.ParseLine(line).0 != PastEnd
  {
    var s := Strip(line);
    var a, b := StripParts(line);
    assert forall k | 0 <= k < |s| :: s[k] == line[|a| + k];
    PastEndExactly(s, Begin(s));
  }

  /** A line that is read past its end, two that are not because code takes the bracket in, and one where
      an open mark ends the scan before. */
  lemma PastEndExamples()
    ensures Scan("x[^", 0).0 == PastEnd
    ensures Scan("`a[^", 0).0 == Ok && Scan("`[", 0).0 == Ok
    ensures Scan("*[", 0).0 == Illegal
  {
  }
}
