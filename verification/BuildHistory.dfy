/** The incremental build against the clean one, over any history of a site: files are written,
    deleted and written again, and builds with or without the cache succeed or fail in between. */
module BuildHistory {
  import opened Basics
  import opened CacheFile
  import opened PostCache
  import opened SiteMaker

  /** The disk, every version a file ever had, and the cache file. */
  datatype World = World(disk: Disk, versions: map<(string, Int64), Content>, file: Option<seq<Byte>>)

  datatype Event =
    | Write(path: string, content: Content, mtime: Int64)
    | Delete(path: string)
    | Build(ignoreCache: bool, posts: seq<string>, pages: seq<string>, access: Access)

  /** Posts and pages live in different directories. */
  predicate IsPagePath(path: string) {
    "pages/" <= path
  }

  /** A listing of the two directories, in any order. */
  predicate Listing(disk: Disk, posts: seq<string>, pages: seq<string>) {
    && AllOnDisk(disk, posts) && AllOnDisk(disk, pages)
    && (forall k | 0 <= k < |posts| :: !IsPagePath(posts[k]))
    && (forall k | 0 <= k < |pages| :: IsPagePath(pages[k]))
  }

  /** If a version renders, its entry is short enough for the cache file. */
  ghost predicate Storable(site: Site, codec: JsonCodec, path: string, content: Content, mtime: Int64) {
    var parsed := site.render(path, content, mtime, IsPagePath(path));
    parsed.Some? ==> Fits(codec, Resolve(site, path, mtime, IsPagePath(path), parsed.value))
  }

  ghost predicate AllStorable(site: Site, codec: JsonCodec, versions: map<(string, Int64), Content>) {
    forall p, t | (p, t) in versions :: Storable(site, codec, p, versions[(p, t)], t)
  }

  /** A write gives the file a write time it never had before with another content. */
  ghost predicate Step(site: Site, codec: JsonCodec, w: World, ev: Event, w': World) {
    match ev
    case Write(path, content, mtime) =>
      && ((path, mtime) in w.versions ==> w.versions[(path, mtime)] == content)
      && Storable(site, codec, path, content, mtime)
      && w' == World(w.disk[path := File(content, mtime)], w.versions[(path, mtime) := content], w.file)
    case Delete(path) =>
      w' == w.(disk := w.disk - {path})
    case Build(ignoreCache, posts, pages, access) =>
      && Listing(w.disk, posts, pages) && |w.disk| < TWO_32
      && exists out :: Builds(site, codec, w.disk, w.file, ignoreCache, posts, pages, access, out)
                       && w' == if out.Done? then w.(file := out.file) else w
  }

  /** A site starts without cache; its first files may have been written before. */
  ghost predicate Initial(site: Site, codec: JsonCodec, w: World) {
    && w.file == None && AllStorable(site, codec, w.versions)
    && forall p | p in w.disk :: Registered(w, p)
  }

  ghost predicate Registered(w: World, p: string)
    requires p in w.disk
  {
    (p, w.disk[p].mtime) in w.versions && w.versions[(p, w.disk[p].mtime)] == w.disk[p].content
  }

  ghost predicate Run(site: Site, codec: JsonCodec, worlds: seq<World>, events: seq<Event>) {
    && |worlds| == |events| + 1 && Initial(site, codec, worlds[0])
    && forall k | 0 <= k < |events| :: Step(site, codec, worlds[k], events[k], worlds[k + 1])
  }

  // ---------------------------------------------------------------- the cache file stays sound

  /** A cached entry is what rendering some version of its file gives, namely the version with the
      entry's write time. */
  ghost predicate SoundEntry(site: Site, versions: map<(string, Int64), Content>, path: string, e: Entry) {
    && e.path == path && (path, e.mtime) in versions
    && var parsed := site.render(path, versions[(path, e.mtime)], e.mtime, IsPagePath(path));
       parsed.Some? && e == Resolve(site, path, e.mtime, IsPagePath(path), parsed.value)
  }

  ghost predicate SoundMap(site: Site, versions: map<(string, Int64), Content>, m: map<string, Entry>) {
    forall p | p in m :: SoundEntry(site, versions, p, m[p])
  }

  ghost predicate Sound(site: Site, codec: JsonCodec, w: World) {
    && (forall p | p in w.disk :: Registered(w, p)) && AllStorable(site, codec, w.versions)
    && Decode(codec, w.file).status != Thrown
    && SoundMap(site, w.versions, Decode(codec, w.file).entries)
  }

  /** A sound cache gives what parsing gives. */
  lemma SoundHit(site: Site, w: World, known: map<string, Entry>, path: string)
    requires path in w.disk && Registered(w, path) && SoundMap(site, w.versions, known)
    ensures Obtain(site, w.disk, known, path, IsPagePath(path)) == Fresh(site, w.disk, path, IsPagePath(path))
  {
  }

  lemma NormalizedAlready(site: Site, versions: map<(string, Int64), Content>, m: map<string, Entry>)
    requires SoundMap(site, versions, m)
    ensures NormalizeAll(site, m) == m
  {
  }

  lemma {:induction false} SamePosts(site: Site, w: World, known: map<string, Entry>, posts: seq<string>)
    requires AllOnDisk(w.disk, posts) && forall k | 0 <= k < |posts| :: !IsPagePath(posts[k])
    requires (forall p | p in w.disk :: Registered(w, p)) && SoundMap(site, w.versions, known)
    ensures BuildPosts(site, w.disk, known, posts) == BuildPosts(site, w.disk, map[], posts)
    ensures forall e | e in BuildPosts(site, w.disk, known, posts).1 ::
              e.path in w.disk && SoundEntry(site, w.versions, e.path, e)
  {
    if posts != [] {
      var n := |posts| - 1;
      SamePosts(site, w, known, posts[..n]);
      SoundHit(site, w, known, posts[n]);
    }
  }

  lemma {:induction false} SamePages(site: Site, w: World, known: map<string, Entry>, pages: seq<string>)
    requires AllOnDisk(w.disk, pages) && forall k | 0 <= k < |pages| :: IsPagePath(pages[k])
    requires (forall p | p in w.disk :: Registered(w, p)) && SoundMap(site, w.versions, known)
    ensures BuildPages(site, w.disk, known, pages) == BuildPages(site, w.disk, map[], pages)
    ensures forall e | e in BuildPages(site, w.disk, known, pages) ::
              e.path in w.disk && SoundEntry(site, w.versions, e.path, e)
  {
    if pages != [] {
      var n := |pages| - 1;
      SamePages(site, w, known, pages[..n]);
      SoundHit(site, w, known, pages[n]);
    }
  }

  lemma {:induction false} CollectSound(site: Site, w: World, es: seq<Entry>)
    requires forall e | e in es :: e.path in w.disk && SoundEntry(site, w.versions, e.path, e)
    ensures SoundMap(site, w.versions, Collect(es)) && Collect(es).Keys <= w.disk.Keys
  {
    if es != [] {
      CollectSound(site, w, es[..|es| - 1]);
    }
  }

  /** The entries a build of a sound world may reuse are sound. */
  lemma KnownSound(site: Site, codec: JsonCodec, w: World, ignoreCache: bool, readable: bool)
    returns (known: map<string, Entry>)
    requires Sound(site, codec, w)
    ensures SoundMap(site, w.versions, known)
    ensures known == Known(site, codec, w.file, ignoreCache, readable)
  {
    known := if ignoreCache then map[] else Loaded(codec, w.file, readable).entries;
    NormalizedAlready(site, w.versions, known);
  }

  lemma ListsSize(es: seq<Entry>, m: map<string, Entry>, bound: nat)
    requires Lists(es, m) && |m| < bound
    ensures |es| < bound
  {
    var paths := seq(|es|, k requires 0 <= k < |es| => es[k].path);
    DistinctSize(paths, m.Keys);
  }

  lemma {:induction false} DistinctSize(paths: seq<string>, s: set<string>)
    requires (forall j, k | 0 <= j < k < |paths| :: paths[j] != paths[k]) && forall p | p in paths :: p in s
    ensures |paths| <= |s|
  {
    if paths != [] {
      var n := |paths| - 1;
      DistinctSize(paths[..n], s - {paths[n]});
    }
  }

  lemma ListedFit(site: Site, codec: JsonCodec, versions: map<(string, Int64), Content>, rs: seq<Entry>,
                  m: map<string, Entry>)
    requires AllStorable(site, codec, versions) && SoundMap(site, versions, m) && Lists(rs, m)
    ensures AllFit(codec, rs)
  {
    forall e | e in rs ensures Fits(codec, e) {
      assert SoundEntry(site, versions, e.path, m[e.path]);
    }
  }

  lemma BuildKeepsSound(site: Site, codec: JsonCodec, w: World, ignoreCache: bool, posts: seq<string>,
                        pages: seq<string>, access: Access, out: Outcome)
    requires Lossless(codec) && Sound(site, codec, w) && Listing(w.disk, posts, pages) && |w.disk| < TWO_32
    requires Builds(site, codec, w.disk, w.file, ignoreCache, posts, pages, access, out)
    ensures out.Done? && Sound(site, codec, w.(file := out.file))
  {
    var known := KnownSound(site, codec, w, ignoreCache, access.readable);
    SamePosts(site, w, known, posts);
    SamePages(site, w, known, pages);
    var w' := w.(file := out.file);
    assert forall p | p in w'.disk :: Registered(w, p) ==> Registered(w', p);
    if out.file != w.file {
      var es := BuildPosts(site, w.disk, known, posts).1 + out.pages;
      CollectSound(site, w, es);
      var rs :| Lists(rs, Collect(es)) && out.file == Some(Encode(codec, rs));
      SubsetSize(Collect(es).Keys, w.disk.Keys);
      ListsSize(rs, Collect(es), TWO_32);
      ListedFit(site, codec, w.versions, rs, Collect(es));
      LoadAfterStore(codec, Collect(es), rs);
    }
  }

  lemma StepKeepsSound(site: Site, codec: JsonCodec, w: World, ev: Event, w': World)
    requires Lossless(codec) && Sound(site, codec, w) && Step(site, codec, w, ev, w')
    ensures Sound(site, codec, w')
  {
    match ev
    case Write(path, content, mtime) =>
      forall p | p in w'.disk ensures Registered(w', p) {
        if p != path { assert Registered(w, p); }
      }
      forall p | p in Decode(codec, w.file).entries
        ensures SoundEntry(site, w'.versions, p, Decode(codec, w.file).entries[p])
      {
        assert SoundEntry(site, w.versions, p, Decode(codec, w.file).entries[p]);
      }
    case Delete(path) =>
      forall p | p in w'.disk ensures Registered(w', p) {
        assert Registered(w, p);
      }
    case Build(ignoreCache, posts, pages, access) =>
      var out :| Builds(site, codec, w.disk, w.file, ignoreCache, posts, pages, access, out)
                 && w' == if out.Done? then w.(file := out.file) else w;
      BuildKeepsSound(site, codec, w, ignoreCache, posts, pages, access, out);
  }

  lemma {:induction false} RunIsSound(site: Site, codec: JsonCodec, worlds: seq<World>, events: seq<Event>, n: nat)
    requires Lossless(codec) && Run(site, codec, worlds, events) && n < |worlds|
    ensures Sound(site, codec, worlds[n])
  {
    if n > 0 {
      RunIsSound(site, codec, worlds, events, n - 1);
      StepKeepsSound(site, codec, worlds[n - 1], events[n - 1], worlds[n]);
    }
  }

  // ---------------------------------------------------------------- the order of the posts

  /** What decides the place of a post. */
  datatype Rank = Rank(updatedAt: string, title: string)

  function RankOf(e: Entry): Rank {
    Rank(e.updatedAt, e.title)
  }

  function Ranks(es: seq<Entry>): (r: seq<Rank>) {
    if es == [] then [] else [RankOf(es[0])] + Ranks(es[1..])
  }

  lemma {:induction false} RanksAt(es: seq<Entry>)
    ensures |Ranks(es)| == |es| && forall k | 0 <= k < |es| :: Ranks(es)[k] == RankOf(es[k])
  {
    if es != [] { RanksAt(es[1..]); }
  }

  lemma SameRank(a: Entry, b: Entry)
    requires !ComesBefore(a, b) && !ComesBefore(b, a)
    ensures RankOf(a) == RankOf(b)
  {
    StringLessTotal(a.updatedAt, b.updatedAt);
    StringLessTotal(a.title, b.title);
  }

  /** No post ranks before the first of a sorted sequence. */
  lemma FirstIsLeast(s: seq<Entry>, e: Entry)
    requires s != [] && Sorted(s) && RankOf(e) in Ranks(s)
    ensures !ComesBefore(e, s[0])
  {
    RanksAt(s);
    var k :| 0 <= k < |s| && RankOf(s[k]) == RankOf(e);
    NotBeforeItself(s[0]);
    assert !ComesBefore(s[k], s[0]);
  }

  lemma RankMember(s: seq<Entry>, t: seq<Entry>)
    requires s != [] && multiset(Ranks(s)) == multiset(Ranks(t))
    ensures t != [] && RankOf(s[0]) in Ranks(t)
  {
  }

  /** Two sorted sequences whose ranks agree as multisets have them in the same places. */
  lemma {:induction false} SortedRanksAreUnique(s: seq<Entry>, t: seq<Entry>)
    requires Sorted(s) && Sorted(t) && multiset(Ranks(s)) == multiset(Ranks(t))
    ensures Ranks(s) == Ranks(t)
  {
    if s == [] {
      if t != [] { RankMember(t, s); }
    } else {
      RankMember(s, t);
      RankMember(t, s);
      FirstIsLeast(t, s[0]);
      FirstIsLeast(s, t[0]);
      SameRank(s[0], t[0]);
      assert multiset(Ranks(s[1..])) == multiset(Ranks(s)) - multiset{RankOf(s[0])};
      assert multiset(Ranks(t[1..])) == multiset(Ranks(t)) - multiset{RankOf(t[0])};
      SortedRanksAreUnique(s[1..], t[1..]);
    }
  }

  lemma NotBeforeItself(e: Entry)
    ensures !ComesBefore(e, e)
  {
    StringLessTotal(e.title, e.title);
  }

  lemma {:induction false} RanksAppend(s: seq<Entry>, t: seq<Entry>)
    ensures Ranks(s + t) == Ranks(s) + Ranks(t)
  {
    if s == [] {
      assert s + t == t;
    } else {
      assert (s + t)[1..] == s[1..] + t;
      RanksAppend(s[1..], t);
    }
  }

  lemma RemoveSame(s: seq<Entry>, t: seq<Entry>, k: nat)
    requires multiset(s) == multiset(t) && s != [] && k < |t| && t[k] == s[0]
    ensures multiset(s[1..]) == multiset(t[..k] + t[k + 1..])
  {
    assert s == [s[0]] + s[1..];
    assert t == t[..k] + [t[k]] + t[k + 1..];
    calc {
      multiset(s[1..]);
      multiset(s) - multiset{s[0]};
      multiset(t) - multiset{s[0]};
      multiset(t[..k]) + multiset{t[k]} + multiset(t[k + 1..]) - multiset{s[0]};
      multiset(t[..k]) + multiset(t[k + 1..]);
      multiset(t[..k] + t[k + 1..]);
    }
  }

  lemma Around<T>(t: seq<T>, k: nat)
    requires k < |t|
    ensures t == t[..k] + [t[k]] + t[k + 1..]
  {
  }

  lemma OneAmong<T>(a: seq<T>, x: T, b: seq<T>)
    ensures multiset(a + [x] + b) == multiset{x} + multiset(a + b)
  {
  }

  lemma RanksAround(t: seq<Entry>, k: nat)
    requires k < |t|
    ensures multiset(Ranks(t)) == multiset{RankOf(t[k])} + multiset(Ranks(t[..k] + t[k + 1..]))
  {
    var a, b := t[..k], t[k + 1..];
    RanksAppend(a, b);
    RanksAppend(a + [t[k]], b);
    RanksAppend(a, [t[k]]);
    Around(t, k);
    assert Ranks([t[k]]) == [RankOf(t[k])];
    OneAmong(Ranks(a), RankOf(t[k]), Ranks(b));
  }

  lemma {:induction false} PermutedRanks(s: seq<Entry>, t: seq<Entry>)
    requires multiset(s) == multiset(t)
    ensures multiset(Ranks(s)) == multiset(Ranks(t))
  {
    if s == [] {
      assert |multiset(t)| == 0;
    } else {
      assert s[0] in multiset(t);
      var k :| 0 <= k < |t| && t[k] == s[0];
      RemoveSame(s, t, k);
      PermutedRanks(s[1..], t[..k] + t[k + 1..]);
      RanksAround(t, k);
    }
  }

  // ---------------------------------------------------------------- the main result

  /** At any point of any history, a build that uses the cache and one that ignores it agree: both
      succeed or both stop at the same post; they yield the same posts and the same pages; and the
      posts come in the same order up to posts of the same date and title. */
  lemma CachedBuildEqualsCleanBuild(site: Site, codec: JsonCodec, worlds: seq<World>, events: seq<Event>,
                                    posts: seq<string>, pages: seq<string>, access: Access, access': Access,
                                    cached: Outcome, clean: Outcome)
    requires Lossless(codec) && Run(site, codec, worlds, events)
    requires Listing(worlds[|events|].disk, posts, pages)
    requires Builds(site, codec, worlds[|events|].disk, worlds[|events|].file, false, posts, pages, access, cached)
    requires Builds(site, codec, worlds[|events|].disk, worlds[|events|].file, true, posts, pages, access', clean)
    ensures cached.Done? && clean.Done? && cached.ok == clean.ok
    ensures multiset(cached.posts) == multiset(clean.posts) && cached.pages == clean.pages
    ensures Ranks(cached.posts) == Ranks(clean.posts)
    ensures !cached.ok ==> cached.posts == clean.posts
  {
    var w := worlds[|events|];
    RunIsSound(site, codec, worlds, events, |events|);
    var known := KnownSound(site, codec, w, false, access.readable);
    SamePosts(site, w, known, posts);
    SamePages(site, w, known, pages);
    PermutedRanks(cached.posts, clean.posts);
    if cached.ok {
      SortedRanksAreUnique(cached.posts, clean.posts);
    }
  }

  // ---------------------------------------------------------------- when a cache may be used at all

  lemma {:induction false} BuildPostsLength(site: Site, disk: Disk, known: map<string, Entry>, posts: seq<string>)
    requires AllOnDisk(disk, posts)
    ensures var (ok, es) := BuildPosts(site, disk, known, posts);
            if ok then |es| == |posts| else |es| < |posts|
    ensures BuildPosts(site, disk, known, posts).0 <==> Reached(site, disk, known, posts, |posts|)
  {
    if posts != [] { BuildPostsLength(site, disk, known, posts[..|posts| - 1]); }
  }

  /** No post before the `k`-th one ends the build. */
  ghost predicate Reached(site: Site, disk: Disk, known: map<string, Entry>, posts: seq<string>, k: nat)
    requires AllOnDisk(disk, posts) && k <= |posts|
  {
    forall j | 0 <= j < k :: Obtain(site, disk, known, posts[j], false).Some?
  }

  /** A file that is taken from the cache would be parsed to the same entry. */
  predicate HitIsFresh(site: Site, disk: Disk, known: map<string, Entry>, path: string, isPage: bool)
    requires path in disk
  {
    Hit(disk, known, path) ==> Fresh(site, disk, path, isPage) == Some(known[path])
  }

  ghost predicate PostHitsAreFresh(site: Site, disk: Disk, known: map<string, Entry>, posts: seq<string>)
    requires AllOnDisk(disk, posts)
  {
    forall k | 0 <= k < |posts| && Reached(site, disk, known, posts, k) ::
      HitIsFresh(site, disk, known, posts[k], false)
  }

  lemma PostHitsPrefix(site: Site, disk: Disk, known: map<string, Entry>, posts: seq<string>)
    requires AllOnDisk(disk, posts) && posts != []
    ensures var n := |posts| - 1;
            PostHitsAreFresh(site, disk, known, posts) <==>
              && PostHitsAreFresh(site, disk, known, posts[..n])
              && (BuildPosts(site, disk, known, posts[..n]).0 ==> HitIsFresh(site, disk, known, posts[n], false))
  {
    var n := |posts| - 1;
    var front := posts[..n];
    BuildPostsLength(site, disk, known, front);
    forall k | 0 <= k <= n
      ensures Reached(site, disk, known, posts, k) <==> Reached(site, disk, known, front, k)
    {
      assert forall j | 0 <= j < k :: posts[j] == front[j];
    }
    assert forall k | 0 <= k < n :: posts[k] == front[k];
  }

  /** Whatever is known, posts come out as without a cache if and only if every post that is taken from
      the cache, up to the first failure, would be parsed to the same entry. */
  lemma {:induction false} CachedPostsAgreeExactly(site: Site, disk: Disk, known: map<string, Entry>,
                                                   posts: seq<string>)
    requires AllOnDisk(disk, posts)
    ensures BuildPosts(site, disk, known, posts) == BuildPosts(site, disk, map[], posts)
            <==> PostHitsAreFresh(site, disk, known, posts)
  {
    if posts != [] {
      var n := |posts| - 1;
      var front := posts[..n];
      CachedPostsAgreeExactly(site, disk, known, front);
      PostHitsPrefix(site, disk, known, posts);
      BuildPostsLength(site, disk, known, front);
      BuildPostsLength(site, disk, map[], front);
      var (a, es) := BuildPosts(site, disk, known, front);
      var (b, fs) := BuildPosts(site, disk, map[], front);
      var x, y := Obtain(site, disk, known, posts[n], false), Fresh(site, disk, posts[n], false);
      if a && b && x.Some? && y.Some? {
        LastApart(es, x.value, fs, y.value);
      }
    }
  }

  lemma LastApart<T>(s: seq<T>, x: T, t: seq<T>, y: T)
    ensures s + [x] == t + [y] <==> s == t && x == y
  {
    if s + [x] == t + [y] {
      assert (s + [x])[|s|] == (t + [y])[|t|];
      assert s == (s + [x])[..|s|] && t == (t + [y])[..|t|];
    }
  }

  ghost predicate PageHitsAreFresh(site: Site, disk: Disk, known: map<string, Entry>, pages: seq<string>)
    requires AllOnDisk(disk, pages)
  {
    forall k | 0 <= k < |pages| :: HitIsFresh(site, disk, known, pages[k], true)
  }

  /** The same for pages, which a failure does not stop. */
  lemma {:induction false} CachedPagesAgreeExactly(site: Site, disk: Disk, known: map<string, Entry>,
                                                   pages: seq<string>)
    requires AllOnDisk(disk, pages)
    ensures |BuildPages(site, disk, map[], pages)| <= |BuildPages(site, disk, known, pages)|
    ensures BuildPages(site, disk, known, pages) == BuildPages(site, disk, map[], pages)
            <==> PageHitsAreFresh(site, disk, known, pages)
  {
    if pages != [] {
      var n := |pages| - 1;
      var front := pages[..n];
      CachedPagesAgreeExactly(site, disk, known, front);
      var es, fs := BuildPages(site, disk, known, front), BuildPages(site, disk, map[], front);
      var x, y := Obtain(site, disk, known, pages[n], true), Fresh(site, disk, pages[n], true);
      if x.Some? && y.Some? {
        LastApart(es, x.value, fs, y.value);
      }
      assert PageHitsAreFresh(site, disk, known, pages) <==>
             PageHitsAreFresh(site, disk, known, front) && HitIsFresh(site, disk, known, pages[n], true) by {
        assert forall k | 0 <= k < n :: pages[k] == front[k];
      }
    }
  }

  /** The write times matter: when an edit brings back a write time the file had with another content,
      the cached build keeps showing the old content. */
  lemma ReusedWriteTimeGoesUnnoticed(site: Site, path: string, mtime: Int64, was: Content, now: Content)
    requires site.render(path, was, mtime, false).Some? && site.render(path, now, mtime, false).Some?
    requires site.render(path, was, mtime, false).value.html != site.render(path, now, mtime, false).value.html
    ensures var before := map[path := File(was, mtime)];
            var after := map[path := File(now, mtime)];
            var cache := Collect(BuildPosts(site, before, map[], [path]).1);
            && BuildPosts(site, after, cache, [path]) == BuildPosts(site, before, map[], [path])
            && BuildPosts(site, after, cache, [path]) != BuildPosts(site, after, map[], [path])
  {
    var before := map[path := File(was, mtime)];
    var after := map[path := File(now, mtime)];
    var e := Fresh(site, before, path, false).value;
    assert [path][..0] == [] && [e][..0] == [] && [] + [e] == [e];
    assert BuildPosts(site, before, map[], [path]) == (true, [e]);
    assert Collect([e]) == map[path := e];
    assert BuildPosts(site, after, map[path := e], [path]) == (true, [e]);
    var e' := Fresh(site, after, path, false).value;
    assert [] + [e'] == [e'];
    assert BuildPosts(site, after, map[], [path]) == (true, [e']);
    assert e.html != e'.html;
  }

  // ---------------------------------------------------------------- what the cache is for

  ghost predicate UpToDate(disk: Disk, es: seq<Entry>) {
    forall e | e in es :: e.path in disk && e.mtime == disk[e.path].mtime
  }

  lemma ObtainedIsUpToDate(site: Site, w: World, known: map<string, Entry>, path: string, isPage: bool)
    requires path in w.disk && SoundMap(site, w.versions, known)
    ensures var r := Obtain(site, w.disk, known, path, isPage);
            r.Some? ==> r.value.path == path && r.value.mtime == w.disk[path].mtime
  {
    if path in known {
      assert SoundEntry(site, w.versions, path, known[path]);
    }
  }

  lemma {:induction false} PostsAreUpToDate(site: Site, w: World, known: map<string, Entry>, posts: seq<string>)
    requires AllOnDisk(w.disk, posts) && SoundMap(site, w.versions, known) && BuildPosts(site, w.disk, known, posts).0
    ensures var es := BuildPosts(site, w.disk, known, posts).1;
            UpToDate(w.disk, es) && forall p | p in posts :: exists e | e in es :: e.path == p
  {
    if posts != [] {
      var n := |posts| - 1;
      var front, r := BuildPosts(site, w.disk, known, posts[..n]).1, Obtain(site, w.disk, known, posts[n], false);
      PostsAreUpToDate(site, w, known, posts[..n]);
      ObtainedIsUpToDate(site, w, known, posts[n], false);
      OneMorePath(front, r.value, posts, n);
    }
  }

  lemma OneMorePath(es: seq<Entry>, e: Entry, paths: seq<string>, n: nat)
    requires |paths| == n + 1 && e.path == paths[n]
    requires forall p | p in paths[..n] :: exists d | d in es :: d.path == p
    ensures forall p | p in paths :: exists d | d in es + [e] :: d.path == p
  {
    forall p | p in paths ensures exists d | d in es + [e] :: d.path == p {
      if p == e.path {
        assert (es + [e])[|es|] == e;
      } else {
        var k :| 0 <= k <= n && paths[k] == p;
        assert paths[..n][k] == p && p in paths[..n];
        var d :| d in es && d.path == p;
        assert d in es + [e];
      }
    }
  }

  /** The pages among `paths` that parse. */
  function Parsable(site: Site, disk: Disk, paths: seq<string>): seq<string>
    requires AllOnDisk(disk, paths)
  {
    if paths == [] then []
    else
      var n := |paths| - 1;
      Parsable(site, disk, paths[..n]) + if Fresh(site, disk, paths[n], true).Some? then [paths[n]] else []
  }

  lemma {:induction false} PagesAreUpToDate(site: Site, w: World, known: map<string, Entry>, pages: seq<string>)
    requires AllOnDisk(w.disk, pages) && SoundMap(site, w.versions, known)
    ensures var es := BuildPages(site, w.disk, known, pages);
            UpToDate(w.disk, es) && forall p | p in Parsable(site, w.disk, pages) :: exists e | e in es :: e.path == p
  {
    if pages != [] {
      var n := |pages| - 1;
      var front, r := BuildPages(site, w.disk, known, pages[..n]), Obtain(site, w.disk, known, pages[n], true);
      var paths := Parsable(site, w.disk, pages[..n]);
      PagesAreUpToDate(site, w, known, pages[..n]);
      ObtainedIsUpToDate(site, w, known, pages[n], true);
      if r.Some? {
        assert (paths + [pages[n]])[..|paths|] == paths;
        OneMorePath(front, r.value, paths + [pages[n]], |paths|);
      }
    }
  }

  lemma {:induction false} CollectMembers(es: seq<Entry>)
    ensures forall e | e in es :: e.path in Collect(es)
    ensures forall p | p in Collect(es) :: Collect(es)[p] in es && Collect(es)[p].path == p
  {
    if es != [] {
      CollectMembers(es[..|es| - 1]);
      assert es == es[..|es| - 1] + [es[|es| - 1]];
    }
  }

  lemma CollectHits(disk: Disk, es: seq<Entry>, path: string)
    requires UpToDate(disk, es) && path in disk && exists e | e in es :: e.path == path
    ensures Hit(disk, Collect(es), path)
  {
    CollectMembers(es);
  }

  /** What the next build loads is the state of this one. */
  lemma NextBuildLoadsTheState(site: Site, codec: JsonCodec, w: World, ignoreCache: bool, posts: seq<string>,
                               pages: seq<string>, access: Access, out: Outcome)
    requires Lossless(codec) && Sound(site, codec, w) && Listing(w.disk, posts, pages) && |w.disk| < TWO_32
    requires Builds(site, codec, w.disk, w.file, ignoreCache, posts, pages, access, out)
    requires access.writable && out.Done? && out.ok
    ensures var known := Known(site, codec, w.file, ignoreCache, access.readable);
            var state := Collect(BuildPosts(site, w.disk, known, posts).1 + out.pages);
            state == map[] || Known(site, codec, out.file, false, true) == state
  {
    var known := KnownSound(site, codec, w, ignoreCache, access.readable);
    SamePosts(site, w, known, posts);
    SamePages(site, w, known, pages);
    var es := BuildPosts(site, w.disk, known, posts).1 + out.pages;
    var state := Collect(es);
    CollectSound(site, w, es);
    NormalizedAlready(site, w.versions, state);
    if state != known || out.file != w.file {
      var rs :| Lists(rs, state) && out.file == Some(Encode(codec, rs));
      SubsetSize(state.Keys, w.disk.Keys);
      ListsSize(rs, state, TWO_32);
      ListedFit(site, codec, w.versions, rs, state);
      LoadAfterStore(codec, state, rs);
    }
  }

  /** After a successful build whose cache file could be written, a cached build of the unchanged site
      parses no post again, and no page except those that do not parse. */
  lemma NextBuildParsesNothing(site: Site, codec: JsonCodec, w: World, ignoreCache: bool, posts: seq<string>,
                               pages: seq<string>, access: Access, out: Outcome)
    requires Lossless(codec) && Sound(site, codec, w) && Listing(w.disk, posts, pages) && |w.disk| < TWO_32
    requires Builds(site, codec, w.disk, w.file, ignoreCache, posts, pages, access, out)
    requires access.writable && out.Done? && out.ok
    ensures forall p | p in posts || p in Parsable(site, w.disk, pages) ::
              p in w.disk && Hit(w.disk, Known(site, codec, out.file, false, true), p)
  {
    var known := KnownSound(site, codec, w, ignoreCache, access.readable);
    var es := BuildPosts(site, w.disk, known, posts).1;
    PostsAreUpToDate(site, w, known, posts);
    PagesAreUpToDate(site, w, known, pages);
    NextBuildLoadsTheState(site, codec, w, ignoreCache, posts, pages, access, out);
    var all := es + out.pages;
    forall p | p in posts || p in Parsable(site, w.disk, pages)
      ensures p in w.disk && Hit(w.disk, Known(site, codec, out.file, false, true), p)
    {
      var e :| e in all && e.path == p;
      CollectHits(w.disk, all, p);
    }
  }
}
