/** The parsing stage of the site maker: every post and page comes out of the cache or is parsed,
    the posts are put in order, and the cache is written back. */
module SiteMaker {
  import opened Basics
  import opened CacheFile
  import opened PostCache

  class Maker {
    const site: Site
    const ignoreCache: bool
    const cache: MakerCache
    var parsedPosts: seq<Entry>
    var parsedPages: seq<Entry>

    constructor (site: Site, codec: JsonCodec, ignoreCache: bool)
      ensures this.site == site && this.ignoreCache == ignoreCache && fresh(cache)
      ensures cache.site == site && cache.codec == codec && cache.Valid()
      ensures cache.preState == map[] && cache.state == map[] && cache.changedPostCnt == 0
      ensures parsedPosts == [] && parsedPages == []
    {
      this.site, this.ignoreCache := site, ignoreCache;
      cache := new MakerCache(site, codec);
      parsedPosts, parsedPages := [], [];
    }

    /** What the build may reuse; a build that ignores the cache behaves as if nothing were loaded. */
    function Known(): map<string, Entry>
      reads cache
    {
      if ignoreCache then map[] else cache.preState
    }

    /** One post or page: out of the cache when the write times agree, else parsed and cached. */
    method ObtainPost(path: string, isPage: bool, disk: Disk) returns (r: Option<Entry>)
      requires cache.Valid() && cache.site == site && path in disk
      modifies cache`state, cache`changedPostCnt
      ensures cache.Valid() && r == Obtain(site, disk, Known(), path, isPage)
      ensures cache.state == if r.Some? then old(cache.state)[path := r.value] else old(cache.state)
    {
      var post := new Post(site, path, disk[path].mtime, isPage);
      if !ignoreCache {
        var hit, cached := cache.MatchThenGet(post.filePath, post.lastWriteTime);
        if hit { return cached; }
      }
      var ok := post.Parse(site, disk);
      if !ok { return None; }
      cache.CacheIt(post.View());
      return Some(post.View());
    }

    method ParsePosts(paths: seq<string>, disk: Disk) returns (ok: bool)
      requires cache.Valid() && cache.site == site && cache.state == map[] && parsedPosts == []
      requires AllOnDisk(disk, paths)
      modifies this`parsedPosts, cache`state, cache`changedPostCnt
      ensures cache.Valid() && (ok, parsedPosts) == BuildPosts(site, disk, Known(), paths)
      ensures cache.state == Collect(parsedPosts)
    {
      assert paths[..|paths|] == paths;
      for i := 0 to |paths|
        invariant cache.Valid() && (true, parsedPosts) == BuildPosts(site, disk, Known(), paths[..i])
        invariant cache.state == Collect(parsedPosts)
      {
        var r := ObtainPost(paths[i], false, disk);
        OneMorePost(site, disk, Known(), paths, i, r);
        if r == None {
          FailureStays(site, disk, Known(), paths, i + 1);
          return false;
        }
        CollectMore(parsedPosts, r.value);
        parsedPosts := parsedPosts + [r.value];
      }
      return true;
    }

    method ParsePages(paths: seq<string>, disk: Disk, ghost posts: seq<Entry>)
      requires cache.Valid() && cache.site == site && cache.state == Collect(posts) && parsedPages == []
      requires AllOnDisk(disk, paths)
      modifies this`parsedPages, cache`state, cache`changedPostCnt
      ensures cache.Valid() && parsedPages == BuildPages(site, disk, Known(), paths)
      ensures cache.state == Collect(posts + parsedPages)
    {
      assert paths[..|paths|] == paths && posts + [] == posts;
      for i := 0 to |paths|
        invariant cache.Valid() && parsedPages == BuildPages(site, disk, Known(), paths[..i])
        invariant cache.state == Collect(posts + parsedPages)
      {
        var r := ObtainPost(paths[i], true, disk);
        OneMorePage(site, disk, Known(), paths, i, r);
        if r.Some? {
          CollectMore(posts + parsedPages, r.value);
          Assoc(posts, parsedPages, [r.value]);
          parsedPages := parsedPages + [r.value];
        }
      }
    }

    method Parse(posts: seq<string>, pages: seq<string>, disk: Disk, file: Option<seq<Byte>>, writable: bool)
      returns (ok: bool, file': Option<seq<Byte>>)
      requires cache.Valid() && cache.site == site && cache.state == map[] && parsedPosts == [] && parsedPages == []
      requires AllOnDisk(disk, posts) && AllOnDisk(disk, pages)
      modifies this`parsedPosts, this`parsedPages, cache`state, cache`changedPostCnt
      ensures Produces(site, cache.codec, disk, Known(), cache.preState, file, posts, pages, writable,
                       Done(ok, parsedPosts, parsedPages, file'))
    {
      ok := ParsePosts(posts, disk);
      if !ok { return false, file; }
      ghost var es := parsedPosts;
      parsedPosts := SortPosts(parsedPosts);
      ParsePages(pages, disk, es);
      var stored;
      stored, file' := cache.Store(file, writable);
      Succeeds(site, cache.codec, disk, Known(), cache.preState, file, posts, pages, writable, es, parsedPosts,
               cache.state, file');
    }
  }

  /** What a build leaves behind; an exception while the cache is read ends the process. */
  datatype Outcome = Aborted | Done(ok: bool, posts: seq<Entry>, pages: seq<Entry>, file: Option<seq<Byte>>)

  /** The outcomes of the parsing stage when the entries `known` may be reused and `loaded` were loaded.
      The stage fails at the first post that does not parse, with the posts before it unsorted and the
      cache file as it was. */
  ghost predicate Produces(site: Site, codec: JsonCodec, disk: Disk,
                           known: map<string, Entry>, loaded: map<string, Entry>, file: Option<seq<Byte>>,
                           posts: seq<string>, pages: seq<string>, writable: bool, out: Outcome)
    requires AllOnDisk(disk, posts) && AllOnDisk(disk, pages)
  {
    var (ok, es) := BuildPosts(site, disk, known, posts);
    && out.Done? && out.ok == ok
    && if !ok then out.posts == es && out.pages == [] && out.file == file
       else && multiset(out.posts) == multiset(es) && Sorted(out.posts)
            && out.pages == BuildPages(site, disk, known, pages)
            && Stores(codec, file, loaded, Collect(es + out.pages), writable, out.file)
  }

  ghost predicate ListsState(codec: JsonCodec, state: map<string, Entry>, file: Option<seq<Byte>>) {
    exists rs :: Lists(rs, state) && file == Some(Encode(codec, rs))
  }

  /** The file stays, or it becomes one that lists the new state; the latter, if it can be written, whenever
      the state differs from what was loaded. */
  ghost predicate Stores(codec: JsonCodec, file: Option<seq<Byte>>,
                         loaded: map<string, Entry>, state: map<string, Entry>,
                         writable: bool, file': Option<seq<Byte>>) {
    && (file' == file || (writable && ListsState(codec, state, file')))
    && (writable && state != loaded ==> ListsState(codec, state, file'))
  }

  lemma Succeeds(site: Site, codec: JsonCodec, disk: Disk, known: map<string, Entry>, loaded: map<string, Entry>,
                 file: Option<seq<Byte>>, posts: seq<string>, pages: seq<string>, writable: bool, es: seq<Entry>,
                 sorted: seq<Entry>, state: map<string, Entry>, file': Option<seq<Byte>>)
    requires AllOnDisk(disk, posts) && AllOnDisk(disk, pages)
    requires (true, es) == BuildPosts(site, disk, known, posts)
    requires multiset(sorted) == multiset(es) && Sorted(sorted)
    requires state == Collect(es + BuildPages(site, disk, known, pages))
    requires Stores(codec, file, loaded, state, writable, file')
    ensures Produces(site, codec, disk, known, loaded, file, posts, pages, writable,
                     Done(true, sorted, BuildPages(site, disk, known, pages), file'))
  {
  }

  /** Whether the cache file, if it exists, can be opened for reading, and whether it can be written. */
  datatype Access = Access(readable: bool, writable: bool)

  /** What a build loads, and may reuse. */
  function Known(site: Site, codec: JsonCodec, file: Option<seq<Byte>>, ignoreCache: bool,
                 readable: bool): map<string, Entry> {
    if ignoreCache then map[] else NormalizeAll(site, Loaded(codec, file, readable).entries)
  }

  /** A build in a process of its own. */
  ghost predicate Builds(site: Site, codec: JsonCodec, disk: Disk, file: Option<seq<Byte>>, ignoreCache: bool,
                         posts: seq<string>, pages: seq<string>, access: Access, out: Outcome)
    requires AllOnDisk(disk, posts) && AllOnDisk(disk, pages)
  {
    var known := Known(site, codec, file, ignoreCache, access.readable);
    if !ignoreCache && Loaded(codec, file, access.readable).status == Thrown then out == Aborted
    else Produces(site, codec, disk, known, known, file, posts, pages, access.writable, out)
  }

  /** A cache file that is rejected is reported, and the build goes on with what was loaded of it. */
  method Make(site: Site, codec: JsonCodec, disk: Disk, file: Option<seq<Byte>>, ignoreCache: bool,
              posts: seq<string>, pages: seq<string>, access: Access) returns (out: Outcome)
    requires AllOnDisk(disk, posts) && AllOnDisk(disk, pages)
    ensures Builds(site, codec, disk, file, ignoreCache, posts, pages, access, out)
  {
    var maker := new Maker(site, codec, ignoreCache);
    if !ignoreCache {
      var status := maker.cache.Load(file, access.readable);
      if status == Thrown { return Aborted; }
    }
    var ok, file' := maker.Parse(posts, pages, disk, file, access.writable);
    return Done(ok, maker.parsedPosts, maker.parsedPages, file');
  }

  // ---------------------------------------------------------------- the order of the posts

  lemma {:induction false} StringLessTransitive(a: string, b: string, c: string)
    requires !StringLess(b, a) && !StringLess(c, b)
    ensures !StringLess(c, a)
  {
    if a != "" && b != "" && c != "" && a[0] == b[0] == c[0] {
      StringLessTransitive(a[1..], b[1..], c[1..]);
    }
  }

  lemma {:induction false} StringLessTotal(a: string, b: string)
    ensures !StringLess(a, b) && !StringLess(b, a) ==> a == b
    ensures !(StringLess(a, b) && StringLess(b, a))
  {
    if a != "" && b != "" && a[0] == b[0] {
      StringLessTotal(a[1..], b[1..]);
      assert a == [a[0]] + a[1..] && b == [b[0]] + b[1..];
    }
  }

  lemma BeforeTransitive(a: Entry, b: Entry, c: Entry)
    requires !ComesBefore(b, a) && !ComesBefore(c, b)
    ensures !ComesBefore(c, a)
  {
    StringLessTotal(a.updatedAt, b.updatedAt);
    StringLessTotal(b.updatedAt, c.updatedAt);
    StringLessTotal(a.updatedAt, c.updatedAt);
    StringLessTransitive(c.updatedAt, b.updatedAt, a.updatedAt);
    if a.updatedAt == c.updatedAt {
      StringLessTransitive(c.title, b.title, a.title);
    }
  }

  /** Stands in for the library's sort, of which only the contract is used. */
  method SortPosts(es: seq<Entry>) returns (r: seq<Entry>)
    ensures multiset(r) == multiset(es) && Sorted(r)
  {
    r := [];
    assert es[..|es|] == es;
    for i := 0 to |es|
      invariant multiset(r) == multiset(es[..i]) && Sorted(r)
    {
      var k: nat := |r|;
      while k > 0 && ComesBefore(es[i], r[k - 1])
        invariant 0 <= k <= |r| && forall j | k <= j < |r| :: ComesBefore(es[i], r[j])
      {
        k := k - 1;
      }
      InsertKeepsSorted(r, k, es[i]);
      assert es[..i + 1] == es[..i] + [es[i]];
      assert r == r[..k] + r[k..];
      r := r[..k] + [es[i]] + r[k..];
    }
  }

  lemma InsertKeepsSorted(r: seq<Entry>, k: nat, e: Entry)
    requires k <= |r| && Sorted(r)
    requires forall j | k <= j < |r| :: ComesBefore(e, r[j])
    requires k > 0 ==> !ComesBefore(e, r[k - 1])
    ensures Sorted(r[..k] + [e] + r[k..])
  {
    forall j | k <= j < |r| ensures !ComesBefore(r[j], e) {
      StringLessTotal(e.updatedAt, r[j].updatedAt);
      StringLessTotal(e.title, r[j].title);
    }
    forall j | 0 <= j < k ensures !ComesBefore(e, r[j]) {
      if j < k - 1 { BeforeTransitive(r[j], r[k - 1], e); }
    }
  }

  lemma OneMorePost(site: Site, disk: Disk, known: map<string, Entry>, paths: seq<string>, i: nat, r: Option<Entry>)
    requires AllOnDisk(disk, paths) && i < |paths| && BuildPosts(site, disk, known, paths[..i]).0
    requires r == Obtain(site, disk, known, paths[i], false) && forall p | p in known :: known[p].path == p
    ensures var es := BuildPosts(site, disk, known, paths[..i]).1;
            BuildPosts(site, disk, known, paths[..i + 1]) == if r == None then (false, es) else (true, es + [r.value])
    ensures r.Some? ==> r.value.path == paths[i]
  {
    assert paths[..i + 1][..i] == paths[..i];
    ObtainedPath(site, disk, known, paths[i], false);
  }

  lemma OneMorePage(site: Site, disk: Disk, known: map<string, Entry>, paths: seq<string>, i: nat, r: Option<Entry>)
    requires AllOnDisk(disk, paths) && i < |paths|
    requires r == Obtain(site, disk, known, paths[i], true) && forall p | p in known :: known[p].path == p
    ensures var es := BuildPages(site, disk, known, paths[..i]);
            BuildPages(site, disk, known, paths[..i + 1]) == if r == None then es else es + [r.value]
    ensures r.Some? ==> r.value.path == paths[i]
  {
    assert paths[..i + 1][..i] == paths[..i];
    ObtainedPath(site, disk, known, paths[i], true);
  }

  lemma CollectMore(es: seq<Entry>, e: Entry)
    ensures Collect(es + [e]) == Collect(es)[e.path := e]
  {
    assert (es + [e])[..|es|] == es;
  }

  lemma ObtainedPath(site: Site, disk: Disk, known: map<string, Entry>, path: string, isPage: bool)
    requires path in disk && forall p | p in known :: known[p].path == p
    ensures var r := Obtain(site, disk, known, path, isPage); r.Some? ==> r.value.path == path
  {
  }

  lemma {:induction false} FailureStays(site: Site, disk: Disk, known: map<string, Entry>, paths: seq<string>, n: nat)
    requires AllOnDisk(disk, paths) && n <= |paths| && !BuildPosts(site, disk, known, paths[..n]).0
    ensures BuildPosts(site, disk, known, paths) == BuildPosts(site, disk, known, paths[..n])
    decreases |paths|
  {
    if n == |paths| {
      assert paths[..n] == paths;
    } else {
      var front := paths[..|paths| - 1];
      assert front[..n] == paths[..n];
      FailureStays(site, disk, known, front, n);
    }
  }
}
