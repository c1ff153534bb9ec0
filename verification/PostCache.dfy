/** Posts, the in-memory side of the build cache, and the parsing stage of the site maker. */
module PostCache {
  import opened Basics
  import opened CacheFile

  // ---------------------------------------------------------------- what a build should produce

  /** A parsed document after the plugins: its metadata (empty where absent), its title (from the
      metadata or the first top-level heading) and its HTML. */
  datatype Parsed = Parsed(id: string, title: string, date: string, html: string)

  type Content = string
  datatype File = File(content: Content, mtime: Int64)
  type Disk = map<string, File>

  /** Everything outside the cache that decides what a post becomes. Rendering may fail. */
  datatype Site = Site(
    render: (string, Content, Int64, bool) -> Option<Parsed>,
    stem: string -> string,
    formatTime: Int64 -> string)

  /** Empty ids and dates fall back to the file name and the write time. */
  function Normalize(site: Site, e: Entry): Entry {
    e.(id := if e.id != "" then e.id else site.stem(e.path),
       updatedAt := if e.updatedAt != "" then e.updatedAt else site.formatTime(e.mtime))
  }

  function NormalizeAll(site: Site, m: map<string, Entry>): map<string, Entry> {
    map p | p in m :: Normalize(site, m[p])
  }

  function Resolve(site: Site, path: string, mtime: Int64, isPage: bool, parsed: Parsed): Entry {
    Normalize(site, Entry(path, mtime, isPage, parsed.id, parsed.title, parsed.date, parsed.html))
  }

  /** The entry of a file that is parsed now. */
  function Fresh(site: Site, disk: Disk, path: string, isPage: bool): Option<Entry>
    requires path in disk
  {
    match site.render(path, disk[path].content, disk[path].mtime, isPage)
    case None => None
    case Some(parsed) => Some(Resolve(site, path, disk[path].mtime, isPage, parsed))
  }

  predicate Hit(disk: Disk, pre: map<string, Entry>, path: string)
    requires path in disk
  {
    path in pre && pre[path].mtime == disk[path].mtime
  }

  /** The entry a build uses for a file: the cached one when the write times agree. */
  function Obtain(site: Site, disk: Disk, pre: map<string, Entry>, path: string, isPage: bool): Option<Entry>
    requires path in disk
  {
    if Hit(disk, pre, path) then Some(pre[path]) else Fresh(site, disk, path, isPage)
  }

  predicate AllOnDisk(disk: Disk, paths: seq<string>) {
    forall k | 0 <= k < |paths| :: paths[k] in disk
  }

  /** Posts are processed in order and the first one that does not parse ends the stage. */
  function BuildPosts(site: Site, disk: Disk, pre: map<string, Entry>, paths: seq<string>): (bool, seq<Entry>)
    requires AllOnDisk(disk, paths)
  {
    if paths == [] then (true, [])
    else
      var n := |paths| - 1;
      var (ok, es) := BuildPosts(site, disk, pre, paths[..n]);
      if !ok then (false, es)
      else match Obtain(site, disk, pre, paths[n], false)
        case None => (false, es)
        case Some(e) => (true, es + [e])
  }

  /** A page that does not parse is skipped. */
  function BuildPages(site: Site, disk: Disk, pre: map<string, Entry>, paths: seq<string>): seq<Entry>
    requires AllOnDisk(disk, paths)
  {
    if paths == [] then []
    else
      var n := |paths| - 1;
      var es := BuildPages(site, disk, pre, paths[..n]);
      match Obtain(site, disk, pre, paths[n], true)
      case None => es
      case Some(e) => es + [e]
  }

  /** The order of `std::string`. */
  predicate StringLess(a: string, b: string) {
    b != "" && (a == "" || a[0] < b[0] || (a[0] == b[0] && StringLess(a[1..], b[1..])))
  }

  /** Newest first; posts of the same date by descending title. */
  predicate ComesBefore(a: Entry, b: Entry) {
    if a.updatedAt == b.updatedAt then StringLess(b.title, a.title) else StringLess(b.updatedAt, a.updatedAt)
  }

  ghost predicate Sorted(es: seq<Entry>) {
    forall j, k | 0 <= j < k < |es| :: !ComesBefore(es[k], es[j])
  }

  // ---------------------------------------------------------------- posts

  /** A post, on its way from a file or out of the cache. The four derived strings are computed on
      first use and kept while they are nonempty. */
  class Post {
    const isPage: bool
    const filePath: string
    const lastWriteTime: Int64
    const postUpdated: string
    const fileName: string
    var parser: Option<Parsed>
    var id_: string
    var title_: string
    var updatedAt_: string
    var html_: string

    /** What the getters answer, now and later. */
    function View(): Entry
      reads this
    {
      Entry(filePath, lastWriteTime, isPage,
            if id_ != "" then id_ else if parser.Some? && parser.value.id != "" then parser.value.id else fileName,
            if title_ != "" then title_ else if parser.Some? then parser.value.title else "",
            if updatedAt_ != "" then updatedAt_
            else if parser.Some? && parser.value.date != "" then parser.value.date else postUpdated,
            if html_ != "" then html_ else if parser.Some? then parser.value.html else "")
    }

    /** Nothing derived yet. */
    ghost predicate Blank(site: Site)
      reads this
    {
      && parser.Some? && id_ == title_ == updatedAt_ == html_ == ""
      && postUpdated == site.formatTime(lastWriteTime) && fileName == site.stem(filePath)
    }

    constructor (site: Site, path: string, mtime: Int64, page: bool)
      ensures Blank(site) && filePath == path && lastWriteTime == mtime && isPage == page
    {
      isPage, filePath, lastWriteTime := page, path, mtime;
      postUpdated, fileName := site.formatTime(mtime), site.stem(path);
      parser := Some(Parsed("", "", "", ""));
      id_, title_, updatedAt_, html_ := "", "", "", "";
    }

    /** A post out of the cache has no parser. */
    constructor Cached(site: Site, j: Json)
      ensures View() == Normalize(site, FromJson(j))
    {
      var e := FromJson(j);
      isPage, filePath, lastWriteTime := e.isPage, e.path, e.mtime;
      postUpdated, fileName := site.formatTime(e.mtime), site.stem(e.path);
      parser := None;
      id_, title_, updatedAt_, html_ := e.id, e.title, e.updatedAt, e.html;
    }

    method Parse(site: Site, disk: Disk) returns (ok: bool)
      requires filePath in disk && disk[filePath].mtime == lastWriteTime && Blank(site)
      modifies this`parser
      ensures ok == Fresh(site, disk, filePath, isPage).Some?
      ensures ok ==> View() == Fresh(site, disk, filePath, isPage).value
    {
      var parsed := site.render(filePath, disk[filePath].content, lastWriteTime, isPage);
      ok := parsed.Some?;
      if ok { parser := parsed; }
    }

    method Title() returns (r: string)
      modifies this`title_
      ensures View() == old(View()) && r == View().title
    {
      if title_ == "" && parser.Some? { title_ := parser.value.title; }
      return title_;
    }

    method UpdatedAt() returns (r: string)
      modifies this`updatedAt_
      ensures View() == old(View()) && r == View().updatedAt
    {
      if updatedAt_ != "" { return updatedAt_; }
      if parser.Some? && parser.value.date != "" { updatedAt_ := parser.value.date; }
      if updatedAt_ == "" { updatedAt_ := postUpdated; }
      return updatedAt_;
    }

    method Id() returns (r: string)
      modifies this`id_
      ensures View() == old(View()) && r == View().id
    {
      if id_ != "" { return id_; }
      if parser.Some? { id_ := parser.value.id; }
      if id_ == "" { id_ := fileName; }
      return id_;
    }

    method Html() returns (r: string)
      modifies this`html_
      ensures View() == old(View()) && r == View().html
    {
      if html_ == "" && parser.Some? { html_ := parser.value.html; }
      return html_;
    }

    method ToJson() returns (j: Json)
      modifies this`id_, this`title_, this`updatedAt_, this`html_
      ensures View() == old(View()) && j == CacheFile.ToJson(View())
    {
      var id := Id();
      var title := Title();
      var updatedAt := UpdatedAt();
      var html := Html();
      j := Json(filePath, lastWriteTime, isPage, id, title, updatedAt, html);
    }
  }

  // ---------------------------------------------------------------- the cache

  /** `es` are the entries of `m` outside `rest`, each once. */
  ghost predicate Outside(es: seq<Entry>, m: map<string, Entry>, rest: set<string>) {
    && (forall p | p in m :: m[p].path == p)
    && (forall j, k | 0 <= j < k < |es| :: es[j].path != es[k].path)
    && (forall e | e in es :: e.path in m && e.path !in rest && e == m[e.path])
    && (forall p | p in m && p !in rest :: m[p] in es)
  }

  lemma OneMoreOutside(es: seq<Entry>, m: map<string, Entry>, rest: set<string>, p: string)
    requires Outside(es, m, rest) && p in rest && p in m
    ensures Outside(es + [m[p]], m, rest - {p})
  {
  }

  /** `bs` is a file announcing `n` records, with those of `es` written: the entries of `m` outside
      `rest`, each once. */
  ghost predicate Written(codec: JsonCodec, n: nat, bs: seq<Byte>, es: seq<Entry>, m: map<string, Entry>,
                          rest: set<string>) {
    bs == Header(n) + Records(codec, es) && |es| + |rest| == n && Outside(es, m, rest)
  }

  lemma BytesOfOneMore(codec: JsonCodec, n: nat, es: seq<Entry>, e: Entry)
    ensures Header(n) + Records(codec, es) + Record(codec, e) == Header(n) + Records(codec, es + [e])
  {
    RecordsAppend(codec, es, e);
  }

  lemma WriteOneMore(codec: JsonCodec, n: nat, bs: seq<Byte>, es: seq<Entry>, m: map<string, Entry>,
                     rest: set<string>, p: string)
    requires Written(codec, n, bs, es, m, rest) && p in rest && p in m
    ensures Written(codec, n, bs + Record(codec, m[p]), es + [m[p]], m, rest - {p})
  {
    assert Outside(es + [m[p]], m, rest - {p}) by { OneMoreOutside(es, m, rest, p); }
    BytesOfOneMore(codec, n, es, m[p]);
    assert |rest - {p}| == |rest| - 1;
  }

  /** Reading has produced `done`, and `n` records are to come from `rest`. */
  ghost predicate Progress(codec: JsonCodec, all: (seq<Entry>, Ending), done: seq<Entry>, rest: seq<Byte>, n: nat) {
    var (es, ending) := ReadRecords(codec, rest, n);
    all == (done + es, ending)
  }

  lemma Advance(codec: JsonCodec, all: (seq<Entry>, Ending), done: seq<Entry>, rest: seq<Byte>, n: nat)
    requires n > 0 && Progress(codec, all, done, rest, n) && |rest| >= 8
    requires var size := Signed(Number(rest[..8]));
             0 < size && |rest| >= 8 + size && codec.parse(rest[8..8 + size]).Some?
    ensures var size := Signed(Number(rest[..8]));
            var e := FromJson(codec.parse(rest[8..8 + size]).value);
            Progress(codec, all, done + [e], rest[8 + size..], n - 1)
  {
    var size := Signed(Number(rest[..8]));
    var e := FromJson(codec.parse(rest[8..8 + size]).value);
    var (es, ending) := ReadRecords(codec, rest[8 + size..], n - 1);
    assert done + ([e] + es) == (done + [e]) + es;
  }

  lemma CollectAppend(site: Site, es: seq<Entry>, e: Entry)
    ensures NormalizeAll(site, Collect(es + [e])) == NormalizeAll(site, Collect(es))[e.path := Normalize(site, e)]
  {
  }

  class MakerCache {
    const site: Site
    const codec: JsonCodec
    var preState: map<string, Entry>
    var state: map<string, Entry>
    var changedPostCnt: nat

    constructor (site: Site, codec: JsonCodec)
      ensures Valid() && preState == map[] && state == map[] && changedPostCnt == 0
      ensures this.site == site && this.codec == codec
    {
      this.site, this.codec := site, codec;
      preState, state, changedPostCnt := map[], map[], 0;
    }

    /** Posts are filed under their own path, and without a change the new state only repeats posts
        of the old one. */
    ghost predicate Valid()
      reads this
    {
      && (forall p | p in preState :: preState[p].path == p)
      && (forall p | p in state :: state[p].path == p)
      && (changedPostCnt == 0 ==> forall p | p in state :: p in preState && state[p] == preState[p])
    }

    /** `readable` tells whether an existing file can be opened. */
    method Load(file: Option<seq<Byte>>, readable: bool) returns (status: LoadStatus)
      requires Valid() && preState == map[] && state == map[]
      modifies this`preState
      ensures Valid() && status == Loaded(codec, file, readable).status
      ensures preState == NormalizeAll(site, Loaded(codec, file, readable).entries)
    {
      if file == None { return Ok; }
      if !readable { return Rejected; }
      var bs := file.value;
      if |bs| < 8 || Number(bs[..4]) != MAGIC_HEADER { return Rejected; }
      var stateSize := Number(bs[4..8]);
      if stateSize == 0 { return Rejected; }
      status := LoadRecords(bs[8..], stateSize);
    }

    /** The record loop. A record that cannot be read leaves those before it loaded. */
    method LoadRecords(bs: seq<Byte>, stateSize: nat) returns (status: LoadStatus)
      requires Valid() && preState == map[] && state == map[]
      modifies this`preState
      ensures Valid()
      ensures var (es, ending) := ReadRecords(codec, bs, stateSize);
              status == StatusOf(ending) && preState == NormalizeAll(site, Collect(es))
    {
      var rest, idx := bs, 0;
      ghost var done: seq<Entry> := [];
      ghost var all := ReadRecords(codec, rest, stateSize);
      assert [] + all.0 == all.0;
      while idx < stateSize
        invariant idx <= stateSize
        invariant Progress(codec, all, done, rest, stateSize - idx)
        invariant Valid() && preState == NormalizeAll(site, Collect(done))
      {
        assert done + [] == done;
        if |rest| < 8 { return Thrown; }
        var size := Signed(Number(rest[..8]));
        if size <= 0 { return Rejected; }
        if |rest| < 8 + size { return Thrown; }
        var j := codec.parse(rest[8..8 + size]);
        if j == None { return Thrown; }
        Advance(codec, all, done, rest, stateSize - idx);
        CollectAppend(site, done, FromJson(j.value));
        var cp := new Post.Cached(site, j.value);
        preState := preState[cp.filePath := cp.View()];
        done := done + [FromJson(j.value)];
        rest, idx := rest[8 + size..], idx + 1;
      }
      assert done + [] == done;
      return Ok;
    }

    /** `writable` tells whether the file can be opened; a failed attempt leaves it as it is. The file
        is left alone without opening it exactly when nothing differs from what was loaded. */
    method Store(file: Option<seq<Byte>>, writable: bool) returns (ok: bool, file': Option<seq<Byte>>)
      requires Valid()
      ensures ok == (writable || (changedPostCnt == 0 && |state| == |preState|))
      ensures changedPostCnt == 0 && |state| == |preState| <==> changedPostCnt == 0 && state == preState
      ensures if !ok || (changedPostCnt == 0 && state == preState) then file' == file
              else exists es :: Lists(es, state) && file' == Some(Encode(codec, es))
    {
      if changedPostCnt == 0 && |state| == |preState| {
        SameSizeSubmap(state, preState);
        return true, file;
      }
      if !writable { return false, file; }
      var bs := Header(|state|);
      ghost var es: seq<Entry> := [];
      assert Written(codec, |state|, bs, es, state, state.Keys);
      var rest := state.Keys;
      while rest != {}
        invariant rest <= state.Keys
        invariant Written(codec, |state|, bs, es, state, rest)
      {
        var p :| p in rest;
        var text := codec.dump(ToJson(state[p]));
        WriteOneMore(codec, |state|, bs, es, state, rest, p);
        bs := bs + (LittleEndian(|text| % TWO_64, 8) + text);
        es := es + [state[p]];
        rest := rest - {p};
      }
      assert Lists(es, state);
      return true, Some(bs);
    }

    method CacheIt(post: Entry)
      requires Valid()
      modifies this`state, this`changedPostCnt
      ensures Valid() && state == old(state)[post.path := post] && changedPostCnt == old(changedPostCnt) + 1
    {
      state := state[post.path := post];
      changedPostCnt := changedPostCnt + 1;
    }

    method MatchThenGet(path: string, mtime: Int64) returns (hit: bool, post: Option<Entry>)
      requires Valid()
      modifies this`state
      ensures Valid()
      ensures post == (if path in preState then Some(preState[path]) else None)
      ensures hit <==> post.Some? && post.value.mtime == mtime
      ensures state == if hit then old(state)[path := preState[path]] else old(state)
    {
      if path !in preState { return false, None; }
      post := Some(preState[path]);
      if post.value.mtime != mtime { return false, post; }
      state := state[path := post.value];
      hit := true;
    }
  }

  lemma {:induction false} SameSizeSubmap<V>(a: map<string, V>, b: map<string, V>)
    requires forall p | p in a :: p in b && a[p] == b[p]
    requires |a| == |b|
    ensures a == b
  {
    SameSizeSubset(a.Keys, b.Keys);
  }

  lemma {:induction false} SameSizeSubset(a: set<string>, b: set<string>)
    requires a <= b && |a| == |b|
    ensures a == b
  {
    if x :| x in b && x !in a {
      assert a <= b - {x};
      SubsetSize(a, b - {x});
    }
  }

  lemma {:induction false} SubsetSize(a: set<string>, b: set<string>)
    requires a <= b
    ensures |a| <= |b|
  {
    if x :| x in a {
      SubsetSize(a - {x}, b - {x});
    }
  }
}
