/** Histories in which an edit may bring back any write time: what a cached build then shows depends on
    which version of each file the cache holds. */
module EditHistory {
  import opened Basics
  import opened CacheFile
  import opened PostCache
  import opened SiteMaker
  import opened BuildHistory

  /** The disk, the version of each cached file that its entry was parsed from, and the cache file. */
  datatype Traced = Traced(disk: Disk, read: map<string, File>, file: Option<seq<Byte>>)

  /** What a version of a file is parsed to. */
  function EntryOf(site: Site, path: string, version: File): Option<Entry> {
    Fresh(site, map[path := version], path, IsPagePath(path))
  }

  /** The versions a build may reuse. */
  function Usable(w: Traced, ignoreCache: bool, readable: bool): map<string, File> {
    if ignoreCache || !readable then map[] else w.read
  }

  /** The version behind the entry a build has for a file: the cached one when the write times agree. */
  function VersionUsed(disk: Disk, usable: map<string, File>, path: string): File
    requires path in disk
  {
    if path in usable && usable[path].mtime == disk[path].mtime then usable[path] else disk[path]
  }

  function ReadBy(disk: Disk, usable: map<string, File>, state: map<string, Entry>): map<string, File> {
    map p | p in state && p in disk :: VersionUsed(disk, usable, p)
  }

  ghost predicate StorableVersion(site: Site, codec: JsonCodec, path: string, version: File) {
    Storable(site, codec, path, version.content, version.mtime)
  }

  ghost predicate AllVersionsStorable(site: Site, codec: JsonCodec, versions: map<string, File>) {
    forall p | p in versions :: StorableVersion(site, codec, p, versions[p])
  }

  /** A write may give a file any content and any write time. */
  ghost predicate TracedStep(site: Site, codec: JsonCodec, w: Traced, ev: Event, w': Traced) {
    match ev
    case Write(path, content, mtime) =>
      && Storable(site, codec, path, content, mtime)
      && w' == w.(disk := w.disk[path := File(content, mtime)])
    case Delete(path) =>
      w' == w.(disk := w.disk - {path})
    case Build(ignoreCache, posts, pages, access) =>
      && Listing(w.disk, posts, pages) && |w.disk| < TWO_32
      && exists out :: && Builds(site, codec, w.disk, w.file, ignoreCache, posts, pages, access, out)
                       && w' == AfterBuild(site, codec, w, ignoreCache, posts, access, out)
  }

  /** A build that rewrites the cache file leaves the versions behind the entries it has. */
  function AfterBuild(site: Site, codec: JsonCodec, w: Traced, ignoreCache: bool, posts: seq<string>, access: Access,
                      out: Outcome): Traced
    requires AllOnDisk(w.disk, posts)
  {
    if out.Aborted? || out.file == w.file then w
    else
      var known := Known(site, codec, w.file, ignoreCache, access.readable);
      var state := Collect(BuildPosts(site, w.disk, known, posts).1 + out.pages);
      Traced(w.disk, ReadBy(w.disk, Usable(w, ignoreCache, access.readable), state), out.file)
  }

  ghost predicate TracedRun(site: Site, codec: JsonCodec, worlds: seq<Traced>, events: seq<Event>) {
    && |worlds| == |events| + 1
    && worlds[0].file == None && worlds[0].read == map[] && AllVersionsStorable(site, codec, worlds[0].disk)
    && forall k | 0 <= k < |events| :: TracedStep(site, codec, worlds[k], events[k], worlds[k + 1])
  }

  // ---------------------------------------------------------------- every entry has a version behind it

  ghost predicate Backed(site: Site, read: map<string, File>, m: map<string, Entry>) {
    m.Keys == read.Keys && forall p | p in m :: EntryOf(site, p, read[p]) == Some(m[p])
  }

  ghost predicate Traceable(site: Site, codec: JsonCodec, w: Traced) {
    && AllVersionsStorable(site, codec, w.disk) && AllVersionsStorable(site, codec, w.read)
    && Decode(codec, w.file).status != Thrown
    && Backed(site, w.read, Decode(codec, w.file).entries)
  }

  lemma BackedEntry(site: Site, path: string, version: File)
    ensures var e := EntryOf(site, path, version);
            e.Some? ==> e.value.path == path && e.value.mtime == version.mtime && Normalize(site, e.value) == e.value
  {
  }

  lemma BackedFits(site: Site, codec: JsonCodec, path: string, version: File)
    requires StorableVersion(site, codec, path, version) && EntryOf(site, path, version).Some?
    ensures Fits(codec, EntryOf(site, path, version).value)
  {
  }

  lemma KnownBacked(site: Site, codec: JsonCodec, w: Traced, ignoreCache: bool, readable: bool)
    returns (known: map<string, Entry>)
    requires Traceable(site, codec, w)
    ensures known == Known(site, codec, w.file, ignoreCache, readable)
    ensures Backed(site, Usable(w, ignoreCache, readable), known)
    ensures Loaded(codec, w.file, readable).status != Thrown
  {
    known := if ignoreCache then map[] else Loaded(codec, w.file, readable).entries;
    BackedNormalized(site, Usable(w, ignoreCache, readable), known);
  }

  lemma BackedNormalized(site: Site, read: map<string, File>, m: map<string, Entry>)
    requires Backed(site, read, m)
    ensures NormalizeAll(site, m) == m
  {
    forall p | p in m ensures Normalize(site, m[p]) == m[p] {
      BackedEntry(site, p, read[p]);
    }
  }

  /** What a build has for a file is what the version behind it is parsed to. */
  lemma ObtainedFrom(site: Site, disk: Disk, usable: map<string, File>, known: map<string, Entry>, path: string)
    requires path in disk && Backed(site, usable, known)
    ensures Obtain(site, disk, known, path, IsPagePath(path)) == EntryOf(site, path, VersionUsed(disk, usable, path))
    ensures Hit(disk, known, path) <==> path in usable && usable[path].mtime == disk[path].mtime
  {
    if path in known { BackedEntry(site, path, usable[path]); }
  }

  ghost predicate FromVersions(site: Site, disk: Disk, usable: map<string, File>, es: seq<Entry>) {
    forall e | e in es :: e.path in disk && EntryOf(site, e.path, VersionUsed(disk, usable, e.path)) == Some(e)
  }

  lemma OneMoreFrom(site: Site, disk: Disk, usable: map<string, File>, es: seq<Entry>, path: string, e: Entry)
    requires FromVersions(site, disk, usable, es) && path in disk
    requires EntryOf(site, path, VersionUsed(disk, usable, path)) == Some(e)
    ensures FromVersions(site, disk, usable, es + [e])
  {
    BackedEntry(site, path, VersionUsed(disk, usable, path));
  }

  lemma {:induction false} PostsFrom(site: Site, disk: Disk, usable: map<string, File>, known: map<string, Entry>,
                                     posts: seq<string>)
    requires AllOnDisk(disk, posts) && (forall k | 0 <= k < |posts| :: !IsPagePath(posts[k]))
    requires Backed(site, usable, known)
    ensures FromVersions(site, disk, usable, BuildPosts(site, disk, known, posts).1)
  {
    if posts != [] {
      var n := |posts| - 1;
      var (ok, es) := BuildPosts(site, disk, known, posts[..n]);
      PostsFrom(site, disk, usable, known, posts[..n]);
      ObtainedFrom(site, disk, usable, known, posts[n]);
      var r := Obtain(site, disk, known, posts[n], false);
      if r.Some? { OneMoreFrom(site, disk, usable, es, posts[n], r.value); }
    }
  }

  lemma {:induction false} PagesFrom(site: Site, disk: Disk, usable: map<string, File>, known: map<string, Entry>,
                                     pages: seq<string>)
    requires AllOnDisk(disk, pages) && (forall k | 0 <= k < |pages| :: IsPagePath(pages[k]))
    requires Backed(site, usable, known)
    ensures FromVersions(site, disk, usable, BuildPages(site, disk, known, pages))
  {
    if pages != [] {
      var n := |pages| - 1;
      var es := BuildPages(site, disk, known, pages[..n]);
      PagesFrom(site, disk, usable, known, pages[..n]);
      ObtainedFrom(site, disk, usable, known, pages[n]);
      var r := Obtain(site, disk, known, pages[n], true);
      if r.Some? { OneMoreFrom(site, disk, usable, es, pages[n], r.value); }
    }
  }

  lemma StateBacked(site: Site, codec: JsonCodec, w: Traced, usable: map<string, File>, es: seq<Entry>)
    requires FromVersions(site, w.disk, usable, es)
    requires AllVersionsStorable(site, codec, w.disk) && AllVersionsStorable(site, codec, usable)
    ensures var state, read := Collect(es), ReadBy(w.disk, usable, Collect(es));
            Backed(site, read, state) && AllVersionsStorable(site, codec, read) && state.Keys <= w.disk.Keys
  {
    var state, read := Collect(es), ReadBy(w.disk, usable, Collect(es));
    CollectMembers(es);
    assert state.Keys == read.Keys;
    forall p | p in read ensures StorableVersion(site, codec, p, read[p]) {
      assert p in usable ==> StorableVersion(site, codec, p, usable[p]);
      assert StorableVersion(site, codec, p, w.disk[p]);
    }
  }

  lemma BackedLists(site: Site, codec: JsonCodec, read: map<string, File>, state: map<string, Entry>, rs: seq<Entry>)
    requires Backed(site, read, state) && AllVersionsStorable(site, codec, read) && Lists(rs, state)
    ensures AllFit(codec, rs)
  {
    forall e | e in rs ensures Fits(codec, e) {
      assert StorableVersion(site, codec, e.path, read[e.path]);
      BackedFits(site, codec, e.path, read[e.path]);
    }
  }

  lemma WrittenState(site: Site, codec: JsonCodec, disk: Disk, read: map<string, File>, state: map<string, Entry>,
                     file: Option<seq<Byte>>)
    requires Lossless(codec) && Backed(site, read, state) && AllVersionsStorable(site, codec, read)
    requires state.Keys <= disk.Keys && |disk| < TWO_32 && ListsState(codec, state, file)
    ensures Decode(codec, file).status != Thrown && Decode(codec, file).entries == state
  {
    var rs :| Lists(rs, state) && file == Some(Encode(codec, rs));
    SubsetSize(state.Keys, disk.Keys);
    ListsSize(rs, state, TWO_32);
    BackedLists(site, codec, read, state, rs);
    LoadAfterStore(codec, state, rs);
  }

  lemma BuildKeepsTraceable(site: Site, codec: JsonCodec, w: Traced, ignoreCache: bool, posts: seq<string>,
                            pages: seq<string>, access: Access, out: Outcome)
    requires Lossless(codec) && Traceable(site, codec, w) && Listing(w.disk, posts, pages) && |w.disk| < TWO_32
    requires Builds(site, codec, w.disk, w.file, ignoreCache, posts, pages, access, out)
    ensures out.Done? && Traceable(site, codec, AfterBuild(site, codec, w, ignoreCache, posts, access, out))
  {
    var usable := Usable(w, ignoreCache, access.readable);
    var known := KnownBacked(site, codec, w, ignoreCache, access.readable);
    if out.file != w.file {
      var es := BuildPosts(site, w.disk, known, posts).1 + out.pages;
      PostsFrom(site, w.disk, usable, known, posts);
      PagesFrom(site, w.disk, usable, known, pages);
      StateBacked(site, codec, w, usable, es);
      WrittenState(site, codec, w.disk, ReadBy(w.disk, usable, Collect(es)), Collect(es), out.file);
    }
  }

  lemma StepKeepsTraceable(site: Site, codec: JsonCodec, w: Traced, ev: Event, w': Traced)
    requires Lossless(codec) && Traceable(site, codec, w) && TracedStep(site, codec, w, ev, w')
    ensures Traceable(site, codec, w')
  {
    match ev
    case Write(path, content, mtime) =>
      forall p | p in w'.disk ensures StorableVersion(site, codec, p, w'.disk[p]) {
        if p != path { assert StorableVersion(site, codec, p, w.disk[p]); }
      }
    case Delete(path) =>
      forall p | p in w'.disk ensures StorableVersion(site, codec, p, w'.disk[p]) {
        assert StorableVersion(site, codec, p, w.disk[p]);
      }
    case Build(ignoreCache, posts, pages, access) =>
      var out :| && Builds(site, codec, w.disk, w.file, ignoreCache, posts, pages, access, out)
                 && w' == AfterBuild(site, codec, w, ignoreCache, posts, access, out);
      BuildKeepsTraceable(site, codec, w, ignoreCache, posts, pages, access, out);
  }

  lemma {:induction false} RunIsTraceable(site: Site, codec: JsonCodec, worlds: seq<Traced>, events: seq<Event>, n: nat)
    requires Lossless(codec) && TracedRun(site, codec, worlds, events) && n < |worlds|
    ensures Traceable(site, codec, worlds[n])
  {
    if n > 0 {
      RunIsTraceable(site, codec, worlds, events, n - 1);
      StepKeepsTraceable(site, codec, worlds[n - 1], events[n - 1], worlds[n]);
    }
  }

  // ---------------------------------------------------------------- when the old content shows

  /** If the cache holds a version of the file with the present write time, both are parsed alike. */
  predicate Alike(site: Site, disk: Disk, usable: map<string, File>, path: string)
    requires path in disk
  {
    path in usable && usable[path].mtime == disk[path].mtime ==>
      EntryOf(site, path, usable[path]) == EntryOf(site, path, disk[path])
  }

  lemma AlikeIsFresh(site: Site, disk: Disk, usable: map<string, File>, known: map<string, Entry>, path: string)
    requires path in disk && Backed(site, usable, known)
    ensures HitIsFresh(site, disk, known, path, IsPagePath(path)) <==> Alike(site, disk, usable, path)
  {
    ObtainedFrom(site, disk, usable, known, path);
  }

  /** No post that a clean build reaches is cached from a version that differs. */
  ghost predicate PostsAlike(site: Site, disk: Disk, usable: map<string, File>, posts: seq<string>)
    requires AllOnDisk(disk, posts)
  {
    forall k | 0 <= k < |posts| && Reached(site, disk, map[], posts, k) :: Alike(site, disk, usable, posts[k])
  }

  ghost predicate PagesAlike(site: Site, disk: Disk, usable: map<string, File>, pages: seq<string>)
    requires AllOnDisk(disk, pages)
  {
    forall k | 0 <= k < |pages| :: Alike(site, disk, usable, pages[k])
  }

  /** While every hit is fresh, a cached build and a clean one reach the same posts. */
  lemma {:induction false} SameReach(site: Site, disk: Disk, known: map<string, Entry>, posts: seq<string>, k: nat)
    requires AllOnDisk(disk, posts) && k <= |posts|
    requires PostHitsAreFresh(site, disk, known, posts) ||
             forall j | 0 <= j < |posts| && Reached(site, disk, map[], posts, j) ::
               HitIsFresh(site, disk, known, posts[j], false)
    ensures Reached(site, disk, known, posts, k) <==> Reached(site, disk, map[], posts, k)
  {
    if k > 0 {
      SameReach(site, disk, known, posts, k - 1);
      if Reached(site, disk, map[], posts, k - 1) {
        assert HitIsFresh(site, disk, known, posts[k - 1], false);
      }
    }
  }

  lemma PostsAlikeIsFresh(site: Site, disk: Disk, usable: map<string, File>, known: map<string, Entry>,
                          posts: seq<string>)
    requires AllOnDisk(disk, posts) && (forall k | 0 <= k < |posts| :: !IsPagePath(posts[k]))
    requires Backed(site, usable, known)
    ensures PostsAlike(site, disk, usable, posts) <==> PostHitsAreFresh(site, disk, known, posts)
  {
    forall k | 0 <= k < |posts|
      ensures HitIsFresh(site, disk, known, posts[k], false) <==> Alike(site, disk, usable, posts[k])
    {
      AlikeIsFresh(site, disk, usable, known, posts[k]);
    }
    if PostsAlike(site, disk, usable, posts) || PostHitsAreFresh(site, disk, known, posts) {
      forall k | 0 <= k < |posts|
        ensures Reached(site, disk, known, posts, k) <==> Reached(site, disk, map[], posts, k)
      {
        SameReach(site, disk, known, posts, k);
      }
    }
  }

  lemma PagesAlikeIsFresh(site: Site, disk: Disk, usable: map<string, File>, known: map<string, Entry>,
                          pages: seq<string>)
    requires AllOnDisk(disk, pages) && (forall k | 0 <= k < |pages| :: IsPagePath(pages[k]))
    requires Backed(site, usable, known)
    ensures PagesAlike(site, disk, usable, pages) <==> PageHitsAreFresh(site, disk, known, pages)
  {
    forall k | 0 <= k < |pages|
      ensures HitIsFresh(site, disk, known, pages[k], true) <==> Alike(site, disk, usable, pages[k])
    {
      AlikeIsFresh(site, disk, usable, known, pages[k]);
    }
  }

  /** The posts of a build are what it has for each file, in order. */
  lemma {:induction false} PostsInOrder(site: Site, disk: Disk, known: map<string, Entry>, posts: seq<string>)
    requires AllOnDisk(disk, posts) && forall p | p in known :: known[p].path == p
    ensures var es := BuildPosts(site, disk, known, posts).1;
            |es| <= |posts| && forall k | 0 <= k < |es| ::
              Obtain(site, disk, known, posts[k], false) == Some(es[k]) && es[k].path == posts[k]
  {
    if posts != [] {
      var n := |posts| - 1;
      PostsInOrder(site, disk, known, posts[..n]);
      BuildPostsLength(site, disk, known, posts[..n]);
      ObtainedPath(site, disk, known, posts[n], false);
    }
  }

  /** Two builds that have the same posts have them in the same order, before sorting. */
  lemma SamePostsSameOrder(site: Site, disk: Disk, known: map<string, Entry>, posts: seq<string>)
    requires AllOnDisk(disk, posts) && forall p | p in known :: known[p].path == p
    requires multiset(BuildPosts(site, disk, known, posts).1) == multiset(BuildPosts(site, disk, map[], posts).1)
    ensures BuildPosts(site, disk, known, posts).1 == BuildPosts(site, disk, map[], posts).1
  {
    var es, fs := BuildPosts(site, disk, known, posts).1, BuildPosts(site, disk, map[], posts).1;
    PostsInOrder(site, disk, known, posts);
    PostsInOrder(site, disk, map[], posts);
    assert |es| == |multiset(es)| == |multiset(fs)| == |fs|;
    forall k | 0 <= k < |es| ensures es[k] == fs[k] {
      assert es[k] in multiset(fs);
      var j :| 0 <= j < |fs| && fs[j] == es[k];
      assert posts[j] == posts[k];
    }
  }

  /** Both builds end, in the same way, with the same posts and pages. */
  ghost predicate Agree(a: Outcome, b: Outcome) {
    a.Done? && b.Done? && a.ok == b.ok && multiset(a.posts) == multiset(b.posts) && a.pages == b.pages
  }

  lemma BuildsAgreeExactly(site: Site, codec: JsonCodec, w: Traced, posts: seq<string>, pages: seq<string>,
                           access: Access, access': Access, cached: Outcome, clean: Outcome)
    requires Traceable(site, codec, w) && Listing(w.disk, posts, pages)
    requires Builds(site, codec, w.disk, w.file, false, posts, pages, access, cached)
    requires Builds(site, codec, w.disk, w.file, true, posts, pages, access', clean)
    ensures var usable := Usable(w, false, access.readable);
            Agree(cached, clean) <==>
              PostsAlike(site, w.disk, usable, posts) && (clean.ok ==> PagesAlike(site, w.disk, usable, pages))
  {
    var usable := Usable(w, false, access.readable);
    var known := KnownBacked(site, codec, w, false, access.readable);
    forall p | p in known ensures known[p].path == p { BackedEntry(site, p, usable[p]); }
    PostsAlikeIsFresh(site, w.disk, usable, known, posts);
    PagesAlikeIsFresh(site, w.disk, usable, known, pages);
    CachedPostsAgreeExactly(site, w.disk, known, posts);
    CachedPagesAgreeExactly(site, w.disk, known, pages);
    if Agree(cached, clean) { SamePostsSameOrder(site, w.disk, known, posts); }
  }

  /** At any point of any history, also one with edits that bring back a write time: a build that uses the
      cache and one that ignores it agree if and only if, for every file the clean one looks at, the version
      behind the cached entry has another write time or is parsed to the same entry as the present one. */
  lemma CachedBuildAgreesExactly(site: Site, codec: JsonCodec, worlds: seq<Traced>, events: seq<Event>,
                                 posts: seq<string>, pages: seq<string>, access: Access, access': Access,
                                 cached: Outcome, clean: Outcome)
    requires Lossless(codec) && TracedRun(site, codec, worlds, events)
    requires Listing(worlds[|events|].disk, posts, pages)
    requires Builds(site, codec, worlds[|events|].disk, worlds[|events|].file, false, posts, pages, access, cached)
    requires Builds(site, codec, worlds[|events|].disk, worlds[|events|].file, true, posts, pages, access', clean)
    ensures var w := worlds[|events|];
            var usable := Usable(w, false, access.readable);
            Agree(cached, clean) <==>
              PostsAlike(site, w.disk, usable, posts) && (clean.ok ==> PagesAlike(site, w.disk, usable, pages))
  {
    RunIsTraceable(site, codec, worlds, events, |events|);
    BuildsAgreeExactly(site, codec, worlds[|events|], posts, pages, access, access', cached, clean);
  }
}
