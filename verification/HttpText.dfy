/** HTTP messages as they are printed, and what the scanner makes of them. */
module HttpText {
  import opened Basics
  import opened Text
  import opened Url
  import opened Http

  const CRLF := "\r\n"

  // ---------------------------------------------------------------- the request line

  function RequestLine(verb: string, target: string, version: string): string {
    verb + " " + target + " HTTP/" + version
  }

  lemma {:induction false} LineEndOfPrinted(line: string, rest: string, from: nat)
    requires Without(line, '\n') && 1 <= from <= |line| + 1
    ensures LineEnd(line + CRLF + rest, from) == |line| + 1
    decreases |line| + 1 - from
  {
    var buf := line + CRLF + rest;
    assert buf[|line|] == '\r' && buf[|line| + 1] == '\n';
    if from <= |line| {
      assert buf[from] != '\n';
      LineEndOfPrinted(line, rest, from + 1);
    }
  }

  lemma {:induction false} ScanTargetSkips(line: string, idx: nat, to: nat, action: string, lastBlank: nat)
    requires idx <= to <= |line| && (lastBlank < idx || (lastBlank == 0 && action == ""))
    requires forall k | idx <= k < to :: !IsSpace(line[k])
    ensures ScanTarget(line, idx, action, lastBlank) == ScanTarget(line, to, action, lastBlank)
    decreases |line| - idx
  {
    if idx < to { ScanTargetSkips(line, idx + 1, to, action, lastBlank); }
  }

  lemma ScanTargetOfPrinted(verb: string, target: string, tail: string)
    requires Solid(verb) && verb != "" && Solid(target)
    ensures ScanTarget(verb + " " + target + " " + tail, 0, "", 0) == (verb, target, |verb| + 1 + |target|)
  {
    var line := verb + " " + target + " " + tail;
    var m, t := |verb|, |verb| + 1 + |target|;
    assert line[m] == ' ' && line[t] == ' ' && line[..m] == verb && line[m + 1..t] == target;
    ScanTargetSkips(line, 0, m, "", 0);
    ScanTargetSkips(line, m + 1, t, verb, m);
  }

  lemma VersionOfPrinted(version: string)
    requires version != ""
    ensures Version("HTTP/" + version) == Some(version)
  {
    assert "HTTP/" + version == "HTTP" + ['/'] + version;
    FindSplit("HTTP", '/', version);
  }

  /** A well-formed request line of a permitted length. */
  ghost predicate GoodLine(verb: string, target: string, version: string) {
    && Solid(verb) && verb != "" && Solid(target) && Solid(version) && version != ""
    && |RequestLine(verb, target, version)| + 1 < FIRST_LINE_LENGTH_LIMIT
  }

  lemma ProbeLineOfPrinted(r: Request, verb: string, target: string, version: string)
    requires Solid(verb) && verb != "" && Solid(target) && version != ""
    ensures ProbeLine(r, RequestLine(verb, target, version))
         == (r.(valid := true, action := verb, rawQ := target, query := ParseQuery(target), version := version),
             CONTINUE)
  {
    var line := RequestLine(verb, target, version);
    assert line == verb + " " + target + " " + ("HTTP/" + version);
    ScanTargetOfPrinted(verb, target, "HTTP/" + version);
    assert line[|verb| + 1 + |target| + 1..] == "HTTP/" + version;
    VersionOfPrinted(version);
  }

  lemma LineHasNoLineFeed(verb: string, target: string, version: string)
    requires Solid(verb) && Solid(target) && Solid(version)
    ensures Without(RequestLine(verb, target, version), '\n')
  {
  }

  /** Probing a printed request line recovers its parts, whatever follows it. */
  lemma ProbeOfPrinted(verb: string, target: string, version: string, rest: string)
    requires GoodLine(verb, target, version)
    ensures var line := RequestLine(verb, target, version);
            Probe(NEW_REQUEST, line + CRLF + rest)
            == (NEW_REQUEST.(firstLineEnd := |line| + 1, valid := true, action := verb, rawQ := target,
                             query := ParseQuery(target), version := version), CONTINUE)
  {
    var line := RequestLine(verb, target, version);
    LineHasNoLineFeed(verb, target, version);
    LineEndOfPrinted(line, rest, 1);
    assert (line + CRLF + rest)[..|line|] == line;
    ProbeLineOfPrinted(NEW_REQUEST.(firstLineEnd := |line| + 1), verb, target, version);
  }

  /** Verb, path, parameters and version all come back; the last value of a repeated key stays. */
  lemma ProbeRecoversQuery(verb: string, path: string, ps: seq<(string, string)>, version: string, rest: string)
    requires ps != [] && (forall k | 0 <= k < |ps| :: GoodParam(ps[k]))
    requires Solid(verb) && verb != "" && Solid(path) && Without(path, '?') && Solid(version) && version != ""
    requires |RequestLine(verb, path + "?" + PrintParams(ps), version)| + 1 < FIRST_LINE_LENGTH_LIMIT
    ensures var line := RequestLine(verb, path + "?" + PrintParams(ps), version);
            var (r, status) := Probe(NEW_REQUEST, line + CRLF + rest);
            && status == CONTINUE && r.valid
            && r.action == verb && r.version == version && r.query == Query(path, ParamMap(map[], ps))
  {
    PrintedIsSolid(ps);
    ProbeOfPrinted(verb, path + "?" + PrintParams(ps), version, rest);
    QueryRoundTrip(path, ps);
  }

  // ---------------------------------------------------------------- headers

  function HeaderLine(h: (string, string)): string {
    h.0 + ": " + h.1
  }

  function HeaderLines(hs: seq<(string, string)>): string {
    if hs == [] then "" else HeaderLine(hs[0]) + CRLF + HeaderLines(hs[1..])
  }

  /** Names are trimmed and have no colon; neither names nor values contain a line feed. */
  ghost predicate GoodHeader(h: (string, string)) {
    Trimmed(h.0) && Without(h.0, ':') && Without(h.0, '\n') && Without(h.1, '\n')
  }

  /** The last header of a name wins; values lose the blanks around them. */
  function HeaderMap(hs: Headers, list: seq<(string, string)>): Headers
    decreases |list|
  {
    if list == [] then hs else HeaderMap(hs[list[0].0 := Strip(list[0].1)], list[1..])
  }

  lemma AddPrinted(hs: Headers, h: (string, string))
    requires GoodHeader(h)
    ensures AddHeader(hs, HeaderLine(h)) == hs[h.0 := Strip(h.1)]
  {
    assert HeaderLine(h) == h.0 + [':'] + (" " + h.1);
    FindSplit(h.0, ':', " " + h.1);
    assert (" " + h.1)[1..] == h.1;
    StripPadded("", h.0, "");
    assert "" + h.0 + "" == h.0;
  }

  lemma {:induction false} ScanHeadersSkips(s: string, idx: nat, to: nat, begin: nat, hs: Headers)
    requires 1 <= idx <= to <= |s| && begin <= idx && (begin == idx ==> s[begin - 1] == '\n')
    requires forall k | idx <= k < to :: s[k] != '\n'
    requires begin == to ==> idx == to
    ensures ScanHeaders(s, idx, begin, hs) == ScanHeaders(s, to, begin, hs)
    decreases |s| - idx
  {
    if idx < to { ScanHeadersSkips(s, idx + 1, to, begin, hs); }
  }

  /** One line, from its first character to its line feed. */
  lemma ScanOneLine(s: string, begin: nat, line: string, hs: Headers)
    requires begin + |line| + 2 <= |s| && s[begin..begin + |line| + 2] == line + CRLF
    requires line != "" && Without(line, '\n') && (begin > 0 ==> s[begin - 1] == '\n')
    ensures s[begin + |line|] == '\r' && s[begin + |line| + 1] == '\n'
    ensures var next := begin + |line| + 2;
            ScanHeaders(s, if begin == 0 then 1 else begin, begin, hs)
            == ScanHeaders(s, next, next, AddHeader(hs, line))
  {
    var e := begin + |line| + 1;
    assert forall k | begin <= k < e :: s[k] == s[begin..begin + |line| + 2][k - begin];
    assert s[e] == s[begin..begin + |line| + 2][|line| + 1] == '\n';
    assert s[e - 1] == s[begin..begin + |line| + 2][|line|] == '\r';
    assert s[e - 2] == line[|line| - 1];
    ScanHeadersSkips(s, if begin == 0 then 1 else begin, e, begin, hs);
    assert s[begin..e - 1] == line;
  }

  lemma ScanEmptyLine(s: string, begin: nat, rest: string, hs: Headers)
    requires 3 <= begin <= |s| && s[begin..] == "" + CRLF + rest && s[begin - 1] == '\n' && s[begin - 2] == '\r'
    ensures ScanHeaders(s, begin, begin, hs) == (hs, Some((begin + 1) as nat))
  {
  }

  lemma {:induction false} ScanPrinted(s: string, begin: nat, list: seq<(string, string)>, rest: string, hs: Headers)
    requires begin <= |s| && s[begin..] == HeaderLines(list) + CRLF + rest
    requires forall k | 0 <= k < |list| :: GoodHeader(list[k])
    requires if begin == 0 then list != [] else begin >= 3 && s[begin - 1] == '\n' && s[begin - 2] == '\r'
    ensures ScanHeaders(s, if begin == 0 then 1 else begin, begin, hs)
         == (HeaderMap(hs, list), Some((begin + |HeaderLines(list)| + 1) as nat))
    decreases |list|
  {
    if list == [] {
      ScanEmptyLine(s, begin, rest, hs);
    } else {
      var next := begin + |HeaderLine(list[0])| + 2;
      ScanFirstHeader(s, begin, list, rest, hs);
      ScanPrinted(s, next, list[1..], rest, hs[list[0].0 := Strip(list[0].1)]);
    }
  }

  lemma FirstHeaderLine(s: string, begin: nat, list: seq<(string, string)>, rest: string)
    requires begin <= |s| && s[begin..] == HeaderLines(list) + CRLF + rest && list != []
    ensures var next := begin + |HeaderLine(list[0])| + 2;
            && next <= |s| && s[begin..next] == HeaderLine(list[0]) + CRLF
            && s[next..] == HeaderLines(list[1..]) + CRLF + rest
  {
    HeaderLinesTail(list, rest);
    PrefixOf(s, begin, HeaderLine(list[0]) + CRLF, HeaderLines(list[1..]) + CRLF + rest);
  }

  lemma ScanFirstHeader(s: string, begin: nat, list: seq<(string, string)>, rest: string, hs: Headers)
    requires begin <= |s| && s[begin..] == HeaderLines(list) + CRLF + rest
    requires list != [] && GoodHeader(list[0]) && (begin > 0 ==> s[begin - 1] == '\n')
    ensures var next := begin + |HeaderLine(list[0])| + 2;
            && next <= |s| && s[next..] == HeaderLines(list[1..]) + CRLF + rest
            && s[next - 1] == '\n' && s[next - 2] == '\r'
            && ScanHeaders(s, if begin == 0 then 1 else begin, begin, hs)
            == ScanHeaders(s, next, next, hs[list[0].0 := Strip(list[0].1)])
  {
    FirstHeaderLine(s, begin, list, rest);
    HeaderLineIsOneLine(list[0]);
    ScanOneLine(s, begin, HeaderLine(list[0]), hs);
    AddPrinted(hs, list[0]);
  }

  lemma HeaderLineIsOneLine(h: (string, string))
    requires GoodHeader(h)
    ensures HeaderLine(h) != "" && Without(HeaderLine(h), '\n')
  {
  }

  lemma HeaderLinesTail(list: seq<(string, string)>, rest: string)
    requires list != []
    ensures HeaderLines(list) + CRLF + rest == (HeaderLine(list[0]) + CRLF) + (HeaderLines(list[1..]) + CRLF + rest)
  {
  }

  lemma PrefixOf(s: string, begin: nat, a: string, b: string)
    requires begin <= |s| && s[begin..] == a + b
    ensures begin + |a| <= |s| && s[begin..begin + |a|] == a && s[begin + |a|..] == b
  {
  }
}
