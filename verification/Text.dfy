/** Character and string helpers shared by the HTTP and Markdown parsers. */
module Text {

  predicate IsSpace(c: char) {
    c == ' ' || c == '\t'
  }

  ghost predicate Blank(s: string) {
    forall k | 0 <= k < |s| :: IsSpace(s[k])
  }

  ghost predicate Trimmed(s: string) {
    s == "" || (!IsSpace(s[0]) && !IsSpace(s[|s| - 1]))
  }

  /** The text without blanks at either end. */
  function Strip(s: string): string {
    if s == "" then ""
    else if IsSpace(s[0]) then Strip(s[1..])
    else if IsSpace(s[|s| - 1]) then Strip(s[..|s| - 1])
    else s
  }

  lemma {:induction false} StripBlank(s: string)
    requires Blank(s)
    ensures Strip(s) == ""
  {
    if s != "" { StripBlank(s[1..]); }
  }

  /** Stripping undoes any padding of a trimmed text. */
  lemma {:induction false} StripPadded(a: string, t: string, b: string)
    requires Blank(a) && Trimmed(t) && Blank(b)
    ensures Strip(a + t + b) == t
    decreases |a| + |b|
  {
    var s := a + t + b;
    if a != "" {
      assert s[1..] == a[1..] + t + b;
      StripPadded(a[1..], t, b);
    } else if t == "" {
      assert s == b;
      StripBlank(b);
    } else if b != "" {
      var n := |b| - 1;
      assert s[..|s| - 1] == a + t + b[..n];
      assert s[0] == t[0] && s[|s| - 1] == b[n];
      StripPadded(a, t, b[..n]);
    } else {
      assert s == t;
    }
  }

  /** The stripped text is the trimmed middle of the whole, between blanks. */
  lemma {:induction false} StripParts(s: string) returns (a: string, b: string)
    ensures s == a + Strip(s) + b && Blank(a) && Blank(b) && Trimmed(Strip(s))
  {
    if s == "" {
      a, b := "", "";
    } else if IsSpace(s[0]) {
      a, b := StripParts(s[1..]);
      a := [s[0]] + a;
    } else if IsSpace(s[|s| - 1]) {
      a, b := StripParts(s[..|s| - 1]);
      b := b + [s[|s| - 1]];
    } else {
      a, b := "", "";
    }
  }

  method ViewStripEmpty(str: string) returns (r: string)
    ensures r == Strip(str)
  {
    var len := |str|;
    var validStart := 0;
    while validStart < len && IsSpace(str[validStart])
      invariant 0 <= validStart <= len
      invariant Strip(str[validStart..]) == Strip(str)
    {
      validStart := validStart + 1;
    }
    if validStart == len { return ""; }
    var validEnd := len - 1;
    assert str[validStart..validEnd + 1] == str[validStart..];
    while validEnd > validStart && IsSpace(str[validEnd])
      invariant validStart <= validEnd < len
      invariant Strip(str[validStart..validEnd + 1]) == Strip(str)
    {
      assert str[validStart..validEnd + 1][..validEnd - validStart] == str[validStart..validEnd];
      validEnd := validEnd - 1;
    }
    return str[validStart..validEnd + 1];
  }

  // ---------------------------------------------------------------- searching

  /** The first position of `c` at or after `from`, or the length of the text. */
  function Find(s: string, c: char, from: nat): (r: nat)
    requires from <= |s|
    ensures from <= r <= |s|
    ensures r < |s| ==> s[r] == c
    ensures forall k | from <= k < r :: s[k] != c
    decreases |s| - from
  {
    if from == |s| || s[from] == c then from else Find(s, c, from + 1)
  }

  method FindMethod(s: string, c: char, from: nat) returns (r: nat)
    requires from <= |s|
    ensures r == Find(s, c, from)
  {
    r := from;
    while r < |s| && s[r] != c
      invariant from <= r <= |s| && Find(s, c, from) == Find(s, c, r)
    {
      r := r + 1;
    }
  }

  ghost predicate Without(s: string, c: char) {
    forall k | 0 <= k < |s| :: s[k] != c
  }

  lemma FindIs(s: string, c: char, from: nat, r: nat)
    requires from <= r <= |s| && (r < |s| ==> s[r] == c) && forall k | from <= k < r :: s[k] != c
    ensures Find(s, c, from) == r
  {
  }

  /** The first separator splits a text whose front part has none. */
  lemma FindSplit(a: string, c: char, b: string)
    requires Without(a, c)
    ensures var s := a + [c] + b;
            Find(s, c, 0) == |a| && s[..|a|] == a && s[|a| + 1..] == b
  {
    FindIs(a + [c] + b, c, 0, |a|);
  }

  lemma FindNone(s: string, c: char)
    requires Without(s, c)
    ensures Find(s, c, 0) == |s|
  {
  }

  // ---------------------------------------------------------------- decimal numbers

  predicate IsDigit(c: char) {
    '0' <= c <= '9'
  }

  function Decimal(n: nat): (s: string)
    ensures s != "" && forall k | 0 <= k < |s| :: IsDigit(s[k])
  {
    var digit := ('0' as int + n % 10) as char;
    if n < 10 then [digit] else Decimal(n / 10) + [digit]
  }

  /** The number formed by the leading digits, after `acc`. */
  function Digits(s: string, acc: nat): nat {
    if s == "" || !IsDigit(s[0]) then acc else Digits(s[1..], 10 * acc + (s[0] as int - '0' as int))
  }

  const LONG_MAX: int := 0x7fff_ffff_ffff_ffff

  predicate IsCSpace(c: char) {
    c == ' ' || ('\t' <= c <= '\r')
  }

  function SkipCSpace(s: string): string {
    if s != "" && IsCSpace(s[0]) then SkipCSpace(s[1..]) else s
  }

  /** `strtol` in base ten: leading white space, an optional sign, digits; out-of-range values saturate. */
  function Strtol(text: string): int {
    var s := SkipCSpace(text);
    var v: int := if s != "" && s[0] == '-' then -1 * Digits(s[1..], 0)
             else if s != "" && s[0] == '+' then Digits(s[1..], 0) else Digits(s, 0);
    if v > LONG_MAX then LONG_MAX else if v < -LONG_MAX - 1 then -LONG_MAX - 1 else v
  }

  lemma {:induction false} DigitsAppend(s: string, d: char, acc: nat)
    requires (forall k | 0 <= k < |s| :: IsDigit(s[k])) && IsDigit(d)
    ensures Digits(s + [d], acc) == 10 * Digits(s, acc) + (d as int - '0' as int)
  {
    if s == "" {
      assert s + [d] == [d] && [d][1..] == "";
    } else {
      assert (s + [d])[1..] == s[1..] + [d];
      DigitsAppend(s[1..], d, 10 * acc + (s[0] as int - '0' as int));
    }
  }

  lemma {:induction false} DigitsOfDecimal(n: nat)
    ensures Digits(Decimal(n), 0) == n
  {
    var digit := ('0' as int + n % 10) as char;
    if n < 10 {
      assert [digit][1..] == "";
    } else {
      DigitsOfDecimal(n / 10);
      DigitsAppend(Decimal(n / 10), digit, 0);
    }
  }

  lemma StrtolOfDecimal(n: nat)
    requires n <= LONG_MAX
    ensures Strtol(Decimal(n)) == n
  {
    DigitsOfDecimal(n);
    assert IsDigit(Decimal(n)[0]);
  }
}
