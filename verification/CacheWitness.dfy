/** What the results about the cache ask of the JSON library and of a site's history can be met: here are
    a library and a history with a nonempty cache file. */
module CacheWitness {
  import opened Basics
  import opened CacheFile
  import opened PostCache
  import opened SiteMaker
  import opened BuildHistory

  // ---------------------------------------------------------------- a lossless library

  /** Every character in three bytes behind a one, and a zero at the end. */
  function Chars(s: string): (bs: seq<Byte>)
    ensures |bs| == 4 * |s| + 1
  {
    if s == "" then [0]
    else
      var c := s[0] as int;
      [1, c / 0x1_0000, c / 0x100 % 0x100, c % 0x100] + Chars(s[1..])
  }

  function Dump(j: Json): seq<Byte> {
    Chars(j.file_path) + (LittleEndian(ToUnsigned(j.file_last_write_time), 8) + ([if j.is_page then 1 else 0]
      + (Chars(j.post_id) + (Chars(j.post_title) + (Chars(j.post_updated_at) + Chars(j.post_content_html))))))
  }

  lemma Apart(a: seq<Byte>, x: seq<Byte>, b: seq<Byte>, y: seq<Byte>)
    requires |a| == |b| && a + x == b + y
    ensures a == b && x == y
  {
    assert a == (a + x)[..|a|] && b == (b + y)[..|b|];
    assert x == (a + x)[|a|..] && y == (b + y)[|b|..];
  }

  lemma {:induction false} CharsApart(s: string, x: seq<Byte>, t: string, y: seq<Byte>)
    requires Chars(s) + x == Chars(t) + y
    ensures s == t && x == y
  {
    assert (Chars(s) + x)[0] == (Chars(t) + y)[0];
    if s == "" {
      Apart([0], x, [0], y);
    } else {
      var a, b := Chars(s)[..4], Chars(t)[..4];
      assert Chars(s) + x == a + (Chars(s[1..]) + x) && Chars(t) + y == b + (Chars(t[1..]) + y);
      Apart(a, Chars(s[1..]) + x, b, Chars(t[1..]) + y);
      SameChar(s[0], t[0]);
      CharsApart(s[1..], x, t[1..], y);
      assert s == [s[0]] + s[1..] && t == [t[0]] + t[1..];
    }
  }

  lemma SameChar(c: char, d: char)
    requires var m, n := c as int, d as int;
             m / 0x1_0000 == n / 0x1_0000 && m / 0x100 % 0x100 == n / 0x100 % 0x100 && m % 0x100 == n % 0x100
    ensures c == d
  {
    var m, n := c as int, d as int;
    assert m / 0x100 == m / 0x1_0000 * 0x100 + m / 0x100 % 0x100;
    assert n / 0x100 == n / 0x1_0000 * 0x100 + n / 0x100 % 0x100;
  }

  lemma SameTime(t: Int64, u: Int64)
    requires LittleEndian(ToUnsigned(t), 8) == LittleEndian(ToUnsigned(u), 8)
    ensures t == u
  {
    Powers();
    NumberRoundTrip(ToUnsigned(t), 8);
    NumberRoundTrip(ToUnsigned(u), 8);
  }

  lemma DumpApart(i: Json, j: Json)
    requires Dump(i) == Dump(j)
    ensures i == j
  {
    var x5, y5 := Chars(i.post_content_html), Chars(j.post_content_html);
    var x4, y4 := Chars(i.post_updated_at) + x5, Chars(j.post_updated_at) + y5;
    var x3, y3 := Chars(i.post_title) + x4, Chars(j.post_title) + y4;
    var x2, y2 := Chars(i.post_id) + x3, Chars(j.post_id) + y3;
    var p, q: seq<Byte> := [if i.is_page then 1 else 0], [if j.is_page then 1 else 0];
    var t := LittleEndian(ToUnsigned(i.file_last_write_time), 8);
    var u := LittleEndian(ToUnsigned(j.file_last_write_time), 8);
    CharsApart(i.file_path, t + (p + x2), j.file_path, u + (q + y2));
    Apart(t, p + x2, u, q + y2);
    Apart(p, x2, q, y2);
    SameTime(i.file_last_write_time, j.file_last_write_time);
    CharsApart(i.post_id, x3, j.post_id, y3);
    CharsApart(i.post_title, x4, j.post_title, y4);
    CharsApart(i.post_updated_at, x5, j.post_updated_at, y5);
    assert x5 + [] == x5 && y5 + [] == y5;
    CharsApart(i.post_content_html, [], j.post_content_html, []);
    assert p[0] == q[0];
  }

  ghost function Parse(bs: seq<Byte>): (r: Option<Json>)
    ensures if r.Some? then Dump(r.value) == bs else forall j :: Dump(j) != bs
  {
    if exists j :: Dump(j) == bs then
      var j :| Dump(j) == bs;
      Some(j)
    else None
  }

  ghost function Codec(): JsonCodec {
    JsonCodec(j => Dump(j), bs => Parse(bs))
  }

  lemma CodecIsLossless()
    ensures Lossless(Codec())
  {
    forall j ensures Codec().parse(Codec().dump(j)) == Some(j) && Codec().dump(j) != [] {
      DumpApart(Parse(Dump(j)).value, j);
    }
  }

  // ---------------------------------------------------------------- a history

  const RENDERED := Parsed("i", "t", "d", "h")

  function TheSite(): Site {
    Site((_, _, _, _) => Some(RENDERED), _ => "s", _ => "f")
  }

  function TheEntry(path: string): Entry {
    Entry(path, 0, false, "i", "t", "d", "h")
  }

  lemma EntryFits(path: string)
    requires |path| < 1000
    ensures Fits(Codec(), TheEntry(path))
  {
  }

  lemma OneWrite(path: string, w: World)
    requires |path| < 1000 && !IsPagePath(path)
    requires w == World(map[path := File("", 0)], map[(path, 0 as Int64) := ""], None)
    ensures Step(TheSite(), Codec(), World(map[], map[], None), Write(path, "", 0), w)
    ensures Fresh(TheSite(), w.disk, path, false) == Some(TheEntry(path))
  {
    EntryFits(path);
  }

  /** A post is written, and a build puts it into the cache file. */
  lemma HistoryExists(path: string) returns (worlds: seq<World>, events: seq<Event>)
    requires !IsPagePath(path) && |path| < 1000
    ensures Lossless(Codec()) && Run(TheSite(), Codec(), worlds, events) && |events| == 2
    ensures Decode(Codec(), worlds[2].file).entries == map[path := TheEntry(path)]
    ensures Listing(worlds[2].disk, [path], [])
  {
    var e := TheEntry(path);
    var file := Some(Encode(Codec(), [e]));
    var w0 := World(map[], map[], None);
    var w1 := World(map[path := File("", 0)], map[(path, 0 as Int64) := ""], None);
    var w2 := w1.(file := file);
    CodecIsLossless();
    OneWrite(path, w1);
    OneBuildStep(TheSite(), Codec(), w1, path, e);
    var write, build := Write(path, "", 0), Build(false, [path], [], Access(true, true));
    TwoSteps(TheSite(), Codec(), w0, w1, w2, write, build);
    worlds, events := [w0, w1, w2], [write, build];
    FileHoldsEntry(path);
  }

  lemma TwoSteps(site: Site, codec: JsonCodec, w0: World, w1: World, w2: World, e0: Event, e1: Event)
    requires Initial(site, codec, w0) && Step(site, codec, w0, e0, w1) && Step(site, codec, w1, e1, w2)
    ensures Run(site, codec, [w0, w1, w2], [e0, e1])
  {
  }

  lemma FileHoldsEntry(path: string)
    requires |path| < 1000
    ensures Decode(Codec(), Some(Encode(Codec(), [TheEntry(path)]))).entries == map[path := TheEntry(path)]
  {
    CodecIsLossless();
    EntryFits(path);
    LoadAfterStore(Codec(), map[path := TheEntry(path)], [TheEntry(path)]);
  }

  lemma OneBuildStep(site: Site, codec: JsonCodec, w: World, path: string, e: Entry)
    requires path in w.disk && |w.disk| == 1 && w.file == None && !IsPagePath(path)
    requires e.path == path && Fresh(site, w.disk, path, false) == Some(e)
    ensures Step(site, codec, w, Build(false, [path], [], Access(true, true)), w.(file := Some(Encode(codec, [e]))))
  {
    OneBuild(site, codec, w.disk, path, e);
  }

  lemma OneBuild(site: Site, codec: JsonCodec, disk: Disk, path: string, e: Entry)
    requires path in disk && e.path == path && Fresh(site, disk, path, false) == Some(e)
    ensures Builds(site, codec, disk, None, false, [path], [], Access(true, true),
                   Done(true, [e], [], Some(Encode(codec, [e]))))
  {
    assert [path][..0] == [] && [] + [e] == [e] && [e][..0] == [] && [e] + [] == [e];
    assert NormalizeAll(site, map[]) == map[];
    assert BuildPosts(site, disk, map[], []) == (true, []);
    assert BuildPosts(site, disk, map[], [path]) == (true, [e]);
    assert Collect([e]) == map[path := e];
    assert Lists([e], map[path := e]);
  }
}
