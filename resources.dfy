/**
 * `ResourceManager`: where avatars, background images and the fortune table
 * live, and the decisions it makes about them. The network is replaced by the
 * outcomes of each download (see Downloader), the background folder by its
 * listing, and `random.choice`/`random.shuffle` by functions passed in.
 */
module Resources {
  import opened Wrappers
  import opened Text
  import opened FileSystem
  import opened CacheNaming
  import opened Downloader
  import opened FortuneTable
  import opened PyInt

  const OneDayInSeconds: real := 86400.0
  const MaxBackgroundAttempts: nat := 5
  const DefaultConcurrency: int := 3
  const MinConcurrency: int := 1
  const MaxConcurrency: int := 10
  /** `_download_to_path`'s default `retries`, used by every caller. */
  const DefaultRetries: int := 1
  /** `getattr(self, "name", None) or "unknown"`: the manager has no `name`. */
  const PluginName: string := "unknown"

  // ---------------------------------------------------------------- storage

  /** The directories `_ensure_storage_dirs` settles on. */
  datatype Layout = Layout(pluginDataDir: Path, avatarDir: Path, backgroundCacheDir: Path, backgroundTmpDir: Path)

  function BackgroundDir(dataDir: Path): Path {
    Join(dataDir, "backgroundFolder")
  }

  /**
   * Under `<data root>/plugin_data/unknown/cache` when the host reports its data
   * root, under `<plugin dir>/cache` otherwise; the three cache directories are
   * distinct and the temporary one is the background one plus "_tmp".
   */
  function LayoutFor(dataDir: Path, hostDataRoot: Option<Path>): (l: Layout)
    ensures l.backgroundTmpDir == l.backgroundCacheDir + "_tmp"
    ensures l.avatarDir != l.backgroundCacheDir && l.avatarDir != l.backgroundTmpDir
    ensures hostDataRoot.None? ==> l.pluginDataDir == dataDir
  {
    var base := if hostDataRoot.Some? then Join(Join(hostDataRoot.value, "plugin_data"), PluginName) else dataDir;
    var cache := Join(base, "cache");
    var l := Layout(base, Join(cache, "avatars"), Join(cache, "background_images"), Join(cache, "background_images_tmp"));
    assert l.avatarDir[|cache| + 1] == 'a' && l.backgroundCacheDir[|cache| + 1] == 'b';
    assert l.backgroundTmpDir[|cache| + 1] == 'b';
    l
  }

  /** One `_migrate_legacy_cache_dir(legacy, target)` call. */
  datatype Move = Move(legacy: Path, target: Path)

  /** The legacy directories folded into each cache directory, in the order they are tried. */
  function LegacyMoves(dataDir: Path, hostDataRoot: Option<Path>): (plan: seq<Move>)
    ensures |plan| == if hostDataRoot.Some? then 8 else 5
    ensures var l := LayoutFor(dataDir, hostDataRoot);
      forall m :: m in plan ==> m.target == l.avatarDir || m.target == l.backgroundCacheDir || m.target == l.backgroundTmpDir
  {
    var l := LayoutFor(dataDir, hostDataRoot);
    var bg := BackgroundDir(dataDir);
    var p := l.pluginDataDir;
    if hostDataRoot.Some? then
      [ Move(Join(dataDir, "avatars"), l.avatarDir), Move(Join(p, "avatars"), l.avatarDir),
        Move(Join(bg, "images"), l.backgroundCacheDir), Move(Join(dataDir, "background_images"), l.backgroundCacheDir),
        Move(Join(p, "background_images"), l.backgroundCacheDir),
        Move(Join(bg, "images_tmp"), l.backgroundTmpDir), Move(Join(dataDir, "background_images_tmp"), l.backgroundTmpDir),
        Move(Join(p, "background_images_tmp"), l.backgroundTmpDir) ]
    else
      [ Move(Join(dataDir, "avatars"), l.avatarDir),
        Move(Join(bg, "images"), l.backgroundCacheDir), Move(Join(dataDir, "background_images"), l.backgroundCacheDir),
        Move(Join(bg, "images_tmp"), l.backgroundTmpDir), Move(Join(dataDir, "background_images_tmp"), l.backgroundTmpDir) ]
  }

  /**
   * In the fallback layout no legacy directory is its own target, so every
   * planned migration really moves files.
   */
  lemma FallbackMovesNeverSelfTarget(dataDir: Path)
    ensures forall m :: m in LegacyMoves(dataDir, None) ==> m.legacy != m.target
  {
    var plan := LegacyMoves(dataDir, None);
    var k := |dataDir| + 1;
    forall m | m in plan
      ensures m.legacy != m.target
    {
      assert m.target[k] == 'c';
      assert m.legacy[k] != 'c';
    }
  }

  // ------------------------------------------------------------- avatars

  /** `f"{user_id}.jpg"` */
  function AvatarFileName(userId: string): string {
    userId + ".jpg"
  }

  /** The avatar URL the download is made from. */
  function AvatarUrl(userId: string): string {
    "http://q.qlogo.cn/g?b=qq&nk=" + userId + "&s=640"
  }

  /** A cached avatar younger than the expiration is served as it is. */
  predicate IsFresh(files: map<Path, FileInfo>, path: Path, now: real, ttl: real) {
    path in files && now - files[path].mtime < ttl
  }

  /** What an avatar lookup returns and the files afterwards. */
  datatype Fetched = Fetched(path: Option<Path>, files: map<Path, FileInfo>)

  function AvatarLookup(files: map<Path, FileInfo>, path: Path, fetch: Fetch, now: real, ttl: real): Fetched
    requires Covers(fetch, RetryBudget(DefaultRetries))
  {
    if IsFresh(files, path, now, ttl) then Fetched(Some(path), files)
    else
      var r := Run(files, path, fetch, RetryBudget(DefaultRetries), 0, now);
      Fetched(if r.ok then Some(path) else None, r.files)
  }

  /**
   * A fresh avatar is returned without a download; otherwise the path is
   * returned exactly when the download delivered, and the file then holds
   * the delivered body; a failed download leaves the old file as it was.
   */
  lemma AvatarLookupSpec(files: map<Path, FileInfo>, path: Path, fetch: Fetch, now: real, ttl: real)
    requires Covers(fetch, RetryBudget(DefaultRetries))
    ensures var a := AvatarLookup(files, path, fetch, now, ttl);
      && (IsFresh(files, path, now, ttl) ==> a == Fetched(Some(path), files))
      && (!IsFresh(files, path, now, ttl) ==>
            var r := Run(files, path, fetch, RetryBudget(DefaultRetries), 0, now);
            && (a.path.Some? <==> Delivers(fetch.outcomes[r.attempts - 1]))
            && (a.path.Some? ==> a.path == Some(path) && path in a.files && a.files[path] == FileInfo(now, fetch.outcomes[r.attempts - 1].written))
            && (a.path.None? ==> (path in a.files <==> path in files) && (path in files ==> a.files[path] == files[path])))
  {
    RunSpec(files, path, fetch, RetryBudget(DefaultRetries), 0, now);
  }

  /**
   * With a positive expiration, an avatar just downloaded is fresh: asking
   * again at the same moment returns it without another download.
   */
  lemma AvatarCachedAfterDownload(files: map<Path, FileInfo>, path: Path, fetch: Fetch, again: Fetch, now: real, ttl: real)
    requires Covers(fetch, RetryBudget(DefaultRetries)) && Covers(again, RetryBudget(DefaultRetries))
    requires ttl > 0.0
    ensures var a := AvatarLookup(files, path, fetch, now, ttl);
      a.path.Some? ==> AvatarLookup(a.files, path, again, now, ttl) == Fetched(Some(path), a.files)
  {
    AvatarLookupSpec(files, path, fetch, now, ttl);
  }

  // ---------------------------------------------------------- backgrounds

  /**
   * A file of the background folder: its name, the lines read from it, and
   * whether reading raised after those lines.
   */
  datatype ListFile = ListFile(name: string, lines: seq<string>, readError: bool)

  /** The `.txt` files of a listing, in listing order. */
  function TxtFiles(listing: seq<ListFile>): (r: seq<ListFile>)
    ensures forall f :: f in r <==> f in listing && EndsWith(f.name, ".txt")
  {
    if listing == [] then []
    else (if EndsWith(listing[0].name, ".txt") then [listing[0]] else []) + TxtFiles(listing[1..])
  }

  /** `[line.strip() for line in f if line.strip()]` */
  function NonBlankLines(lines: seq<string>): seq<string> {
    if lines == [] then []
    else (if Strip(lines[0]) != "" then [Strip(lines[0])] else []) + NonBlankLines(lines[1..])
  }

  /** Every kept line is a stripped, non-empty line of the file, and every such line is kept. */
  lemma {:induction false} NonBlankLinesSpec(lines: seq<string>)
    ensures forall u :: u in NonBlankLines(lines) ==> u != "" && exists l :: l in lines && u == Strip(l)
    ensures forall l :: l in lines && Strip(l) != "" ==> Strip(l) in NonBlankLines(lines)
  {
    if lines != [] {
      var rest := NonBlankLines(lines[1..]);
      NonBlankLinesSpec(lines[1..]);
      var head := if Strip(lines[0]) != "" then [Strip(lines[0])] else [];
      assert NonBlankLines(lines) == head + rest;
      forall u | u in NonBlankLines(lines)
        ensures u != "" && exists l :: l in lines && u == Strip(l)
      {
        if u in rest {
          var l :| l in lines[1..] && u == Strip(l);
          assert l in lines;
        } else {
          assert u == Strip(lines[0]) && lines[0] in lines;
        }
      }
      forall l | l in lines && Strip(l) != ""
        ensures Strip(l) in NonBlankLines(lines)
      {
        if l != lines[0] {
          assert l in lines[1..];
        }
      }
    }
  }

  /** `random.choice`: picks an index below any positive length. */
  ghost predicate IsChoice(choose: nat -> nat) {
    forall n: nat :: n > 0 ==> choose(n) < n
  }

  /** `random.shuffle`: a permutation of its argument. */
  ghost predicate IsShuffle(shuffle: seq<string> -> seq<string>) {
    forall s :: multiset(shuffle(s)) == multiset(s)
  }

  function Min(a: int, b: int): int {
    if a < b then a else b
  }

  /**
   * The URLs `get_background_image` will try: `None` when the folder cannot
   * be listed, holds no `.txt` file, or the chosen file cannot be read or has
   * no non-blank line; otherwise at most five of its shuffled non-blank lines.
   */
  function BackgroundCandidates(listing: Option<seq<ListFile>>, choose: nat -> nat, shuffle: seq<string> -> seq<string>): (r: Option<seq<string>>)
    requires IsChoice(choose) && IsShuffle(shuffle)
    ensures r.Some? ==> listing.Some? && 1 <= |r.value| <= MaxBackgroundAttempts
  {
    if listing.None? then None
    else
      var txt := TxtFiles(listing.value);
      if txt == [] then None
      else
        var f := txt[choose(|txt|)];
        if f.readError then None
        else
          var urls := NonBlankLines(f.lines);
          if urls == [] then None
          else
            var s := shuffle(urls);
            assert multiset(s) == multiset(urls);
            assert |s| == |urls| by {
              assert |multiset(s)| == |multiset(urls)|;
            }
            Some(s[..Min(MaxBackgroundAttempts, |s|)])
  }

  /** Every candidate is a stripped, non-empty line of one of the listed ".txt" files. */
  lemma CandidatesAreTxtLines(listing: Option<seq<ListFile>>, choose: nat -> nat, shuffle: seq<string> -> seq<string>)
    requires IsChoice(choose) && IsShuffle(shuffle)
    ensures var r := BackgroundCandidates(listing, choose, shuffle);
      r.Some? ==> forall u :: u in r.value ==>
        u != "" && exists f, l :: f in listing.value && EndsWith(f.name, ".txt") && l in f.lines && u == Strip(l)
  {
    var r := BackgroundCandidates(listing, choose, shuffle);
    if r.Some? {
      var txt := TxtFiles(listing.value);
      var f := txt[choose(|txt|)];
      assert f in txt;
      var urls := NonBlankLines(f.lines);
      NonBlankLinesSpec(f.lines);
      var s := shuffle(urls);
      assert multiset(s) == multiset(urls);
      forall u | u in r.value
        ensures u != "" && exists f, l :: f in listing.value && EndsWith(f.name, ".txt") && l in f.lines && u == Strip(l)
      {
        assert u in multiset(s);
        assert u in urls;
      }
    }
  }

  /**
   * The candidates come from the one ".txt" file `choose` picks: there are
   * none exactly when the folder cannot be listed, holds no ".txt" file, or
   * that file cannot be read or has no non-blank line; otherwise they are
   * `min(5, n)` of its `n` non-blank lines, none taken more often than it
   * occurs there.
   */
  lemma CandidatesOfChosenFile(listing: Option<seq<ListFile>>, choose: nat -> nat, shuffle: seq<string> -> seq<string>)
    requires IsChoice(choose) && IsShuffle(shuffle)
    ensures var r := BackgroundCandidates(listing, choose, shuffle);
      && (listing.None? || TxtFiles(listing.value) == [] ==> r.None?)
      && (listing.Some? && TxtFiles(listing.value) != [] ==>
            var txt := TxtFiles(listing.value);
            var f := txt[choose(|txt|)];
            var urls := NonBlankLines(f.lines);
            && (r.None? <==> f.readError || urls == [])
            && (r.Some? ==> |r.value| == Min(MaxBackgroundAttempts, |urls|) && multiset(r.value) <= multiset(urls)))
  {
    if listing.Some? && TxtFiles(listing.value) != [] {
      var txt := TxtFiles(listing.value);
      var f := txt[choose(|txt|)];
      var urls := NonBlankLines(f.lines);
      if !f.readError && urls != [] {
        var s := shuffle(urls);
        ShuffledPrefix(urls, s, Min(MaxBackgroundAttempts, |urls|));
        assert BackgroundCandidates(listing, choose, shuffle) == Some(s[..Min(MaxBackgroundAttempts, |urls|)]);
      }
    }
  }

  /**
   * The first half of `get_background_image`: list the folder, pick a
   * ".txt" file, read its non-blank lines, shuffle them and keep at most
   * five; `None` wherever the source logs a warning and returns `None`.
   */
  method ReadCandidates(listing: Option<seq<ListFile>>, choose: nat -> nat, shuffle: seq<string> -> seq<string>)
    returns (cands: Option<seq<string>>)
    requires IsChoice(choose) && IsShuffle(shuffle)
    ensures cands == BackgroundCandidates(listing, choose, shuffle)
  {
    if listing.None? {
      return None;
    }
    var backgroundFiles := TxtFiles(listing.value);
    if backgroundFiles == [] {
      return None;
    }
    var backgroundFile := backgroundFiles[choose(|backgroundFiles|)];
    if backgroundFile.readError {
      return None;
    }
    var backgroundUrls := NonBlankLines(backgroundFile.lines);
    if backgroundUrls == [] {
      return None;
    }
    backgroundUrls := shuffle(backgroundUrls);
    var maxAttempts := Min(MaxBackgroundAttempts, |backgroundUrls|);
    cands := Some(backgroundUrls[..maxAttempts]);
  }

  /** The first `k` elements of a permutation of `urls`: `k` of them, none more often than in `urls`. */
  lemma ShuffledPrefix(urls: seq<string>, s: seq<string>, k: nat)
    requires multiset(s) == multiset(urls) && k <= |urls|
    ensures |s| == |urls| && |s[..k]| == k && multiset(s[..k]) <= multiset(urls)
  {
    assert |multiset(s)| == |multiset(urls)|;
    assert s == s[..k] + s[k..];
    assert multiset(s) == multiset(s[..k]) + multiset(s[k..]);
  }

  /** The inputs cover one download per candidate: its outcomes and a fresh name. */
  predicate Attempts(cands: seq<string>, fetches: seq<Fetch>, tokens: seq<string>) {
    |fetches| >= |cands| && |tokens| >= |cands| &&
    forall i :: 0 <= i < |cands| ==> Covers(fetches[i], RetryBudget(DefaultRetries))
  }

  /** The background handed out (path and whether the caller must delete it) and the files afterwards. */
  datatype Pick = Pick(found: Option<(Path, bool)>, files: map<Path, FileInfo>)

  /**
   * The candidate loop from candidate `i` on: non-http(s) entries are skipped,
   * a cached copy is returned for keeps, otherwise the URL is downloaded to a
   * fresh temporary name (`ephemeral`) or to its cache path.
   */
  function PickFrom(files: map<Path, FileInfo>, cands: seq<string>, i: nat, n: Naming, ephemeral: bool,
                    fetches: seq<Fetch>, tokens: seq<string>, now: real): Pick
    requires i <= |cands| && Attempts(cands, fetches, tokens)
    decreases |cands| - i
  {
    if i == |cands| then Pick(None, files)
    else
      var url := cands[i];
      if !IsHttpUrl(url) then PickFrom(files, cands, i + 1, n, ephemeral, fetches, tokens, now)
      else if CachePathFor(n, url) in files then Pick(Some((CachePathFor(n, url), false)), files)
      else
        var target := if ephemeral then TmpPathFor(n, url, tokens[i]) else CachePathFor(n, url);
        var r := Run(files, target, fetches[i], RetryBudget(DefaultRetries), 0, now);
        if r.ok then Pick(Some((target, ephemeral)), r.files)
        else PickFrom(r.files, cands, i + 1, n, ephemeral, fetches, tokens, now)
  }

  /** One step of the candidate loop, unfolded. */
  lemma PickFromStep(files: map<Path, FileInfo>, cands: seq<string>, i: nat, n: Naming, ephemeral: bool,
                     fetches: seq<Fetch>, tokens: seq<string>, now: real)
    requires i < |cands| && Attempts(cands, fetches, tokens)
    ensures !IsHttpUrl(cands[i]) ==>
      PickFrom(files, cands, i, n, ephemeral, fetches, tokens, now) == PickFrom(files, cands, i + 1, n, ephemeral, fetches, tokens, now)
    ensures IsHttpUrl(cands[i]) && CachePathFor(n, cands[i]) in files ==>
      PickFrom(files, cands, i, n, ephemeral, fetches, tokens, now) == Pick(Some((CachePathFor(n, cands[i]), false)), files)
    ensures IsHttpUrl(cands[i]) && CachePathFor(n, cands[i]) !in files ==>
      var target := if ephemeral then TmpPathFor(n, cands[i], tokens[i]) else CachePathFor(n, cands[i]);
      var r := Run(files, target, fetches[i], RetryBudget(DefaultRetries), 0, now);
      PickFrom(files, cands, i, n, ephemeral, fetches, tokens, now)
        == if r.ok then Pick(Some((target, ephemeral)), r.files) else PickFrom(r.files, cands, i + 1, n, ephemeral, fetches, tokens, now)
  {
  }

  /**
   * A returned background exists on disk and comes from an http(s) candidate:
   * for keeps it is that URL's cache path, to be deleted it is a fresh
   * temporary path, which happens only in ephemeral mode.
   */
  lemma {:induction false} PickFromSpec(files: map<Path, FileInfo>, cands: seq<string>, i: nat, n: Naming, ephemeral: bool,
                                        fetches: seq<Fetch>, tokens: seq<string>, now: real)
    requires i <= |cands| && Attempts(cands, fetches, tokens)
    ensures var p := PickFrom(files, cands, i, n, ephemeral, fetches, tokens, now);
      p.found.Some? ==>
        && p.found.value.0 in p.files
        && (p.found.value.1 ==> ephemeral)
        && exists j :: i <= j < |cands| && PickedFor(p.found.value, cands, j, n, tokens)
    decreases |cands| - i
  {
    var p := PickFrom(files, cands, i, n, ephemeral, fetches, tokens, now);
    if i < |cands| {
      var url := cands[i];
      if !IsHttpUrl(url) {
        PickFromSpec(files, cands, i + 1, n, ephemeral, fetches, tokens, now);
      } else if CachePathFor(n, url) in files {
        assert PickedFor(p.found.value, cands, i, n, tokens);
      } else {
        var target := if ephemeral then TmpPathFor(n, url, tokens[i]) else CachePathFor(n, url);
        DownloadSpec(files, target, fetches[i], DefaultRetries, now);
        var r := Run(files, target, fetches[i], RetryBudget(DefaultRetries), 0, now);
        if r.ok {
          assert PickedFor(p.found.value, cands, i, n, tokens);
        } else {
          PickFromSpec(r.files, cands, i + 1, n, ephemeral, fetches, tokens, now);
        }
      }
    }
  }

  /** `found` is what the loop hands out for the http(s) candidate `j`. */
  predicate PickedFor(found: (Path, bool), cands: seq<string>, j: int, n: Naming, tokens: seq<string>)
    requires 0 <= j < |cands| && |tokens| >= |cands|
  {
    IsHttpUrl(cands[j]) && found.0 == (if found.1 then TmpPathFor(n, cands[j], tokens[j]) else CachePathFor(n, cands[j]))
  }

  /** A cached http(s) candidate is returned for keeps, with no download and no change on disk. */
  lemma CacheHitNeedsNoDownload(files: map<Path, FileInfo>, cands: seq<string>, n: Naming, ephemeral: bool,
                                fetches: seq<Fetch>, tokens: seq<string>, now: real)
    requires Attempts(cands, fetches, tokens) && |cands| > 0
    requires IsHttpUrl(cands[0]) && CachePathFor(n, cands[0]) in files
    ensures PickFrom(files, cands, 0, n, ephemeral, fetches, tokens, now) == Pick(Some((CachePathFor(n, cands[0]), false)), files)
  {
  }

  /** Without a single http(s) candidate nothing is downloaded and nothing is returned. */
  lemma {:induction false} NoHttpCandidateGivesNone(files: map<Path, FileInfo>, cands: seq<string>, i: nat, n: Naming, ephemeral: bool,
                                                    fetches: seq<Fetch>, tokens: seq<string>, now: real)
    requires i <= |cands| && Attempts(cands, fetches, tokens)
    requires forall j :: i <= j < |cands| ==> !IsHttpUrl(cands[j])
    ensures PickFrom(files, cands, i, n, ephemeral, fetches, tokens, now) == Pick(None, files)
    decreases |cands| - i
  {
    if i < |cands| {
      NoHttpCandidateGivesNone(files, cands, i + 1, n, ephemeral, fetches, tokens, now);
    }
  }

  /** Where a candidate is downloaded to: a fresh temporary path in ephemeral mode, its cache path otherwise. */
  function DownloadTarget(n: Naming, ephemeral: bool, url: string, token: string): Path {
    if ephemeral then TmpPathFor(n, url, token) else CachePathFor(n, url)
  }

  /** Every file of `after` outside `except` was already in `before`, unchanged. */
  predicate Keeps(before: map<Path, FileInfo>, after: map<Path, FileInfo>, except: set<Path>) {
    forall q :: q in after && q !in except ==> q in before && after[q] == before[q]
  }

  lemma KeepsTrans(a: map<Path, FileInfo>, b: map<Path, FileInfo>, c: map<Path, FileInfo>, except: set<Path>)
    requires Keeps(a, b, {}) && Keeps(b, c, except)
    ensures Keeps(a, c, except)
  {
  }

  /** A download adds or changes no file but its destination, and that only when it succeeds. */
  lemma RunOnlyTouchesDest(files: map<Path, FileInfo>, dest: Path, f: Fetch, budget: nat, now: real)
    requires Covers(f, budget)
    ensures var r := Run(files, dest, f, budget, 0, now);
      Keeps(files, r.files, if r.ok then {dest} else {})
  {
    RunSpec(files, dest, f, budget, 0, now);
    var r := Run(files, dest, f, budget, 0, now);
    forall q | q in r.files && q !in (if r.ok then {dest} else {})
      ensures q in files && r.files[q] == files[q]
    {
      if q != dest {
        forall i | 0 <= i < r.attempts
          ensures q != TmpPath(dest, f.tokens[i])
        {
          assert TmpPath(dest, f.tokens[i]) !in r.files;
        }
      }
    }
  }

  /** A failed download whose temporary names were all free leaves the files exactly as they were. */
  lemma FailedRunLeavesFiles(files: map<Path, FileInfo>, dest: Path, f: Fetch, budget: nat, now: real)
    requires Covers(f, budget) && Temps(dest, f, budget + 1) !! files.Keys
    requires !Run(files, dest, f, budget, 0, now).ok
    ensures Run(files, dest, f, budget, 0, now).files == files
  {
    RunSpec(files, dest, f, budget, 0, now);
    RunOnlyTouchesDest(files, dest, f, budget, now);
    var r := Run(files, dest, f, budget, 0, now);
    forall q | q in files
      ensures q in r.files
    {
      if q != dest {
        forall i | 0 <= i < r.attempts
          ensures q != TmpPath(dest, f.tokens[i])
        {
          assert TmpPath(dest, f.tokens[i]) in Temps(dest, f, budget + 1);
        }
      }
    }
    assert r.files.Keys == files.Keys;
  }

  /**
   * The candidate loop adds or changes no file but the background it hands
   * out; a failed download only takes its temporary files away again.
   */
  lemma {:induction false} PickFromOnlyAddsFound(files: map<Path, FileInfo>, cands: seq<string>, i: nat, n: Naming, ephemeral: bool,
                                                 fetches: seq<Fetch>, tokens: seq<string>, now: real)
    requires i <= |cands| && Attempts(cands, fetches, tokens)
    ensures var p := PickFrom(files, cands, i, n, ephemeral, fetches, tokens, now);
      Keeps(files, p.files, if p.found.Some? then {p.found.value.0} else {})
    decreases |cands| - i
  {
    if i < |cands| {
      var url := cands[i];
      if IsHttpUrl(url) && CachePathFor(n, url) !in files {
        var r := Run(files, DownloadTarget(n, ephemeral, url, tokens[i]), fetches[i], RetryBudget(DefaultRetries), 0, now);
        if !r.ok {
          PickFromOnlyAddsFound(r.files, cands, i + 1, n, ephemeral, fetches, tokens, now);
        }
        DownloadStepKeeps(files, cands, i, n, ephemeral, fetches, tokens, now);
      } else if !IsHttpUrl(url) {
        PickFromOnlyAddsFound(files, cands, i + 1, n, ephemeral, fetches, tokens, now);
      }
    }
  }

  /** The download step of `PickFromOnlyAddsFound`, given what the rest of the loop keeps. */
  lemma DownloadStepKeeps(files: map<Path, FileInfo>, cands: seq<string>, i: nat, n: Naming, ephemeral: bool,
                          fetches: seq<Fetch>, tokens: seq<string>, now: real)
    requires i < |cands| && Attempts(cands, fetches, tokens)
    requires IsHttpUrl(cands[i]) && CachePathFor(n, cands[i]) !in files
    requires var r := Run(files, DownloadTarget(n, ephemeral, cands[i], tokens[i]), fetches[i], RetryBudget(DefaultRetries), 0, now);
      !r.ok ==>
        var p := PickFrom(r.files, cands, i + 1, n, ephemeral, fetches, tokens, now);
        Keeps(r.files, p.files, if p.found.Some? then {p.found.value.0} else {})
    ensures var p := PickFrom(files, cands, i, n, ephemeral, fetches, tokens, now);
      Keeps(files, p.files, if p.found.Some? then {p.found.value.0} else {})
  {
    var target := DownloadTarget(n, ephemeral, cands[i], tokens[i]);
    var r := Run(files, target, fetches[i], RetryBudget(DefaultRetries), 0, now);
    RunOnlyTouchesDest(files, target, fetches[i], RetryBudget(DefaultRetries), now);
    PickFromStep(files, cands, i, n, ephemeral, fetches, tokens, now);
    if !r.ok {
      var p := PickFrom(r.files, cands, i + 1, n, ephemeral, fetches, tokens, now);
      KeepsTrans(files, r.files, p.files, if p.found.Some? then {p.found.value.0} else {});
    }
  }

  /** No temporary file of the downloads from candidate `i` on exists yet: each is named after a fresh uuid. */
  predicate FreshTemps(files: map<Path, FileInfo>, cands: seq<string>, i: nat, n: Naming, ephemeral: bool,
                       fetches: seq<Fetch>, tokens: seq<string>)
    requires i <= |cands| && Attempts(cands, fetches, tokens)
  {
    forall j :: i <= j < |cands| ==>
      Temps(DownloadTarget(n, ephemeral, cands[j], tokens[j]), fetches[j], RetryBudget(DefaultRetries) + 1) !! files.Keys
  }

  /** Candidate `j` yields nothing: it is not http(s), or it has no cached copy and its download does not deliver. */
  predicate Fails(files: map<Path, FileInfo>, cands: seq<string>, j: int, n: Naming, ephemeral: bool,
                  fetches: seq<Fetch>, tokens: seq<string>, now: real)
    requires 0 <= j < |cands| && Attempts(cands, fetches, tokens)
  {
    IsHttpUrl(cands[j]) ==>
      && CachePathFor(n, cands[j]) !in files
      && !Run(files, DownloadTarget(n, ephemeral, cands[j], tokens[j]), fetches[j], RetryBudget(DefaultRetries), 0, now).ok
  }

  /** Every candidate from `i` on fails. */
  predicate AllFail(files: map<Path, FileInfo>, cands: seq<string>, i: nat, n: Naming, ephemeral: bool,
                    fetches: seq<Fetch>, tokens: seq<string>, now: real)
    requires i <= |cands| && Attempts(cands, fetches, tokens)
  {
    forall j :: i <= j < |cands| ==> Fails(files, cands, j, n, ephemeral, fetches, tokens, now)
  }

  lemma AllFailStep(files: map<Path, FileInfo>, cands: seq<string>, i: nat, n: Naming, ephemeral: bool,
                    fetches: seq<Fetch>, tokens: seq<string>, now: real)
    requires i < |cands| && Attempts(cands, fetches, tokens)
    ensures AllFail(files, cands, i, n, ephemeral, fetches, tokens, now)
       <==> Fails(files, cands, i, n, ephemeral, fetches, tokens, now) && AllFail(files, cands, i + 1, n, ephemeral, fetches, tokens, now)
  {
    if Fails(files, cands, i, n, ephemeral, fetches, tokens, now) && AllFail(files, cands, i + 1, n, ephemeral, fetches, tokens, now) {
      forall j | i <= j < |cands|
        ensures Fails(files, cands, j, n, ephemeral, fetches, tokens, now)
      {
        if j != i {
          assert i + 1 <= j;
        }
      }
    }
  }

  /**
   * No background is handed out exactly when every candidate fails, and then
   * the files are as they were: no temporary file survives.
   */
  lemma {:induction false} PickFromFailsExactly(files: map<Path, FileInfo>, cands: seq<string>, i: nat, n: Naming, ephemeral: bool,
                                                fetches: seq<Fetch>, tokens: seq<string>, now: real)
    requires i <= |cands| && Attempts(cands, fetches, tokens)
    requires FreshTemps(files, cands, i, n, ephemeral, fetches, tokens)
    ensures var p := PickFrom(files, cands, i, n, ephemeral, fetches, tokens, now);
      && (p.found.None? <==> AllFail(files, cands, i, n, ephemeral, fetches, tokens, now))
      && (p.found.None? ==> p.files == files)
    decreases |cands| - i
  {
    if i < |cands| {
      AllFailStep(files, cands, i, n, ephemeral, fetches, tokens, now);
      var url := cands[i];
      var target := DownloadTarget(n, ephemeral, url, tokens[i]);
      var r := Run(files, target, fetches[i], RetryBudget(DefaultRetries), 0, now);
      if IsHttpUrl(url) && CachePathFor(n, url) !in files && !r.ok {
        FailedRunLeavesFiles(files, target, fetches[i], RetryBudget(DefaultRetries), now);
        assert PickFrom(files, cands, i, n, ephemeral, fetches, tokens, now) == PickFrom(files, cands, i + 1, n, ephemeral, fetches, tokens, now);
        PickFromFailsExactly(files, cands, i + 1, n, ephemeral, fetches, tokens, now);
      } else if !IsHttpUrl(url) {
        PickFromFailsExactly(files, cands, i + 1, n, ephemeral, fetches, tokens, now);
      }
    }
  }

  // -------------------------------------------------------------- pre-cache

  /** The URLs of some lines: those whose stripped text starts with http:// or https://. */
  function UrlsIn(lines: seq<string>): set<string> {
    set l | l in lines && IsHttpUrl(Strip(l)) :: Strip(l)
  }

  /** The URLs of several list files. */
  function UrlsOf(files: seq<ListFile>): set<string> {
    set f, l | f in files && l in f.lines && IsHttpUrl(Strip(l)) :: Strip(l)
  }

  /** Reading one more line adds its URL, if it holds one. */
  lemma UrlsInStep(lines: seq<string>, j: nat)
    requires j < |lines|
    ensures UrlsIn(lines[..j + 1]) == UrlsIn(lines[..j]) + (if IsHttpUrl(Strip(lines[j])) then {Strip(lines[j])} else {})
  {
    assert lines[..j + 1] == lines[..j] + [lines[j]];
    UrlsInGrow(lines[..j], lines[j]);
  }

  lemma UrlsInGrow(before: seq<string>, x: string)
    ensures UrlsIn(before + [x]) == UrlsIn(before) + (if IsHttpUrl(Strip(x)) then {Strip(x)} else {})
  {
    var after := before + [x];
    assert forall l :: l in after <==> l in before || l == x;
    UrlsInMonotone(before, after);
    forall u | u in UrlsIn(after)
      ensures u in UrlsIn(before) || (IsHttpUrl(Strip(x)) && u == Strip(x))
    {
      var l :| l in after && IsHttpUrl(Strip(l)) && u == Strip(l);
      if l != x {
        assert l in before;
      }
    }
    if IsHttpUrl(Strip(x)) {
      assert x in after;
    }
  }

  lemma UrlsInMonotone(a: seq<string>, b: seq<string>)
    requires forall l :: l in a ==> l in b
    ensures UrlsIn(a) <= UrlsIn(b)
  {
  }

  /** Reading one more file adds its URLs. */
  lemma UrlsOfStep(files: seq<ListFile>, i: nat)
    requires i < |files|
    ensures UrlsOf(files[..i + 1]) == UrlsOf(files[..i]) + UrlsIn(files[i].lines)
  {
    assert forall f :: f in files[..i + 1] <==> f in files[..i] || f == files[i];
  }

  /** The inner loop of `_collect_all_background_urls`: adds the http(s) lines of one file. */
  method AddUrls(found: set<string>, lines: seq<string>) returns (r: set<string>)
    ensures r == found + UrlsIn(lines)
  {
    r := found;
    var j := 0;
    while j < |lines|
      invariant 0 <= j <= |lines|
      invariant r == found + UrlsIn(lines[..j])
    {
      var url := Strip(lines[j]);
      UrlsInStep(lines, j);
      ghost var added := if IsHttpUrl(url) then {url} else {};
      assert UrlsIn(lines[..j + 1]) == UrlsIn(lines[..j]) + added;
      if url != "" && IsHttpUrl(url) {
        r := r + {url};
      } else {
        assert added == {};
      }
      assert r == found + UrlsIn(lines[..j + 1]);
      j := j + 1;
    }
    assert lines[..j] == lines;
  }

  /** `sorted(s)` for a set of strings: its elements in increasing order, each once. */
  method SortedList(s: set<string>) returns (r: seq<string>)
    ensures StrictlySorted(r) && Elements(r) == s && |r| == |s|
  {
    r := [];
    var rest := s;
    while rest != {}
      invariant StrictlySorted(r)
      invariant Elements(r) !! rest && Elements(r) + rest == s
      invariant |r| + |rest| == |s|
      decreases |rest|
    {
      var u :| u in rest;
      r := Insert(r, u);
      rest := rest - {u};
    }
  }

  /** A `pre_cache_concurrency` setting as read from the configuration. */
  datatype ConfigValue = Missing | IntValue(i: int) | BoolValue(b: bool) | FloatValue(x: real) | TextValue(s: string) | OtherValue

  /** `int(x)` for a finite float: truncation toward zero. */
  function TruncateTowardZero(x: real): (r: int)
    ensures x >= 0.0 ==> r >= 0 && r as real <= x < r as real + 1.0
    ensures x < 0.0 ==> r <= 0 && r as real - 1.0 < x <= r as real
  {
    if x >= 0.0 then x.Floor else -((-x).Floor)
  }

  /** `int(plugin_config.get("pre_cache_concurrency", 3))`; `None` where `int()` raises. */
  function IntOf(v: ConfigValue): Option<int> {
    match v
    case Missing => Some(DefaultConcurrency)
    case IntValue(i) => Some(i)
    case BoolValue(b) => Some(if b then 1 else 0)
    case FloatValue(x) => Some(TruncateTowardZero(x))
    case TextValue(s) => ParseInt(s)
    case OtherValue => None
  }

  function Distance(a: int, b: int): nat {
    if a < b then b - a else a - b
  }

  /** `max(1, min(c, 10))`: the allowed value nearest to `c`. */
  function Clamp(c: int): (r: int)
    ensures MinConcurrency <= r <= MaxConcurrency
    ensures forall k :: MinConcurrency <= k <= MaxConcurrency ==> Distance(r, c) <= Distance(k, c)
  {
    if c < MinConcurrency then MinConcurrency else if c > MaxConcurrency then MaxConcurrency else c
  }

  /** The concurrency the pre-cache runs with: 3 when the setting cannot be read as an integer. */
  function ConcurrencyFrom(v: ConfigValue): (r: int)
    ensures MinConcurrency <= r <= MaxConcurrency
    ensures IntOf(v).None? ==> r == DefaultConcurrency
    ensures IntOf(v).Some? && MinConcurrency <= IntOf(v).value <= MaxConcurrency ==> r == IntOf(v).value
  {
    Clamp(IntOf(v).GetOr(DefaultConcurrency))
  }

  lemma ConcurrencyExamples()
    ensures ConcurrencyFrom(Missing) == 3
    ensures ConcurrencyFrom(IntValue(0)) == 1
    ensures ConcurrencyFrom(IntValue(64)) == 10
    ensures ConcurrencyFrom(FloatValue(7.9)) == 7
    ensures ConcurrencyFrom(FloatValue(-0.5)) == 1
    ensures ConcurrencyFrom(OtherValue) == 3
  {
    assert TruncateTowardZero(7.9) == 7;
  }

  /** The URLs whose cache file is missing, each with the path it would be cached under. */
  function Uncached(urls: seq<string>, n: Naming, files: map<Path, FileInfo>): seq<(string, Path)> {
    if urls == [] then []
    else
      var u := urls[|urls| - 1];
      Uncached(urls[..|urls| - 1], n, files) + (if CachePathFor(n, u) in files then [] else [(u, CachePathFor(n, u))])
  }

  /** Exactly the URLs without a cache file are queued, each with its cache path. */
  lemma {:induction false} UncachedMembers(urls: seq<string>, n: Naming, files: map<Path, FileInfo>)
    ensures |Uncached(urls, n, files)| <= |urls|
    ensures forall p :: p in Uncached(urls, n, files) ==> p.0 in urls && p.1 == CachePathFor(n, p.0) && p.1 !in files
    ensures forall u :: u in urls && CachePathFor(n, u) !in files ==> (u, CachePathFor(n, u)) in Uncached(urls, n, files)
  {
    if urls != [] {
      var init := urls[..|urls| - 1];
      UncachedMembers(init, n, files);
      assert forall x :: x in urls <==> x in init || x == urls[|urls| - 1];
    }
  }

  /** The cache paths that already exist. */
  function CountCached(urls: seq<string>, n: Naming, files: map<Path, FileInfo>): nat {
    if urls == [] then 0
    else CountCached(urls[..|urls| - 1], n, files) + (if CachePathFor(n, urls[|urls| - 1]) in files then 1 else 0)
  }

  /** Every URL is either already cached or queued for download, never both. */
  lemma {:induction false} CachedPlusQueuedIsTotal(urls: seq<string>, n: Naming, files: map<Path, FileInfo>)
    ensures CountCached(urls, n, files) + |Uncached(urls, n, files)| == |urls|
  {
    if urls != [] {
      CachedPlusQueuedIsTotal(urls[..|urls| - 1], n, files);
    }
  }

  /** The files after the queued downloads and how many of them ended with the file in place. */
  datatype BatchResult = BatchResult(files: map<Path, FileInfo>, downloaded: nat)

  /**
   * The queued downloads one after another (each `_dl` call): a destination
   * that exists by then counts as done, otherwise the download's verdict counts.
   */
  function Batch(files: map<Path, FileInfo>, pending: seq<(string, Path)>, fetchFor: string -> Fetch, now: real): (b: BatchResult)
    requires forall u :: Covers(fetchFor(u), RetryBudget(DefaultRetries))
    ensures b.downloaded <= |pending|
  {
    if pending == [] then BatchResult(files, 0)
    else
      var b := Batch(files, pending[..|pending| - 1], fetchFor, now);
      var url := pending[|pending| - 1].0;
      var dest := pending[|pending| - 1].1;
      if dest in b.files then BatchResult(b.files, b.downloaded + 1)
      else
        var r := Run(b.files, dest, fetchFor(url), RetryBudget(DefaultRetries), 0, now);
        BatchResult(r.files, b.downloaded + if r.ok then 1 else 0)
  }

  /** A queued download that delivers is counted, and its file holds the delivered body afterwards. */
  lemma BatchStepCountsDelivery(files: map<Path, FileInfo>, pending: seq<(string, Path)>, fetchFor: string -> Fetch, now: real)
    requires forall u :: Covers(fetchFor(u), RetryBudget(DefaultRetries))
    requires pending != []
    ensures var b := Batch(files, pending[..|pending| - 1], fetchFor, now);
      var url := pending[|pending| - 1].0;
      var dest := pending[|pending| - 1].1;
      var after := Batch(files, pending, fetchFor, now);
      && (dest in after.files <==>
            dest in b.files || Delivers(fetchFor(url).outcomes[Run(b.files, dest, fetchFor(url), RetryBudget(DefaultRetries), 0, now).attempts - 1]))
      && (after.downloaded == b.downloaded + 1 <==> dest in after.files)
  {
    var b := Batch(files, pending[..|pending| - 1], fetchFor, now);
    var url := pending[|pending| - 1].0;
    var dest := pending[|pending| - 1].1;
    var r := Run(b.files, dest, fetchFor(url), RetryBudget(DefaultRetries), 0, now);
    assert Batch(files, pending, fetchFor, now)
        == if dest in b.files then BatchResult(b.files, b.downloaded + 1)
           else BatchResult(r.files, b.downloaded + if r.ok then 1 else 0);
    if dest !in b.files {
      FreshDownloadCreatesDest(b.files, dest, fetchFor(url), now);
    }
  }

  /** A download into a missing destination creates it exactly when the last attempt delivers. */
  lemma FreshDownloadCreatesDest(files: map<Path, FileInfo>, dest: Path, f: Fetch, now: real)
    requires Covers(f, RetryBudget(DefaultRetries)) && dest !in files
    ensures var r := Run(files, dest, f, RetryBudget(DefaultRetries), 0, now);
      && (dest in r.files <==> r.ok)
      && (r.ok <==> Delivers(f.outcomes[r.attempts - 1]))
  {
    DownloadSpec(files, dest, f, DefaultRetries, now);
  }

  /** What `_pre_cache_background_images` logs at the end. */
  datatype PreCacheReport = PreCacheReport(urls: seq<string>, concurrency: int, cached: nat,
                                           toDownload: seq<(string, Path)>, downloaded: nat, failed: nat)

  // -------------------------------------------------------------- jrys.json

  /** What `jrys.json` holds: a parsable object, or text `json.loads` rejects. */
  datatype Stored = Json(doc: Doc) | Corrupt

  class ResourceManager {
    const disk: Disk
    /** The plugin's own directory (`os.path.dirname(__file__)`). */
    const dataDir: Path
    /** What the host's `get_astrbot_data_path()` reports; `None` when it is unavailable. */
    const hostDataRoot: Option<Path>
    const avatarCacheExpiration: real
    const preCacheEnabled: bool
    const cleanupDownloads: bool
    /** sha256 hex digest of a URL. */
    const digestOf: string -> string
    /** `urlparse(url).path`. */
    const urlPathOf: string -> string

    var storageInitialized: bool
    var avatarDir: Path
    var backgroundCacheDir: Option<Path>
    var backgroundTmpDir: Option<Path>
    var isDataLoaded: bool
    /** `self.jrys_data`; `null` while the attribute has never been assigned. */
    var jrysData: JsonObject?
    /** `<plugin dir>/jrys.json`; `None` when the file does not exist. */
    var jrysFile: Option<Stored>

    ghost predicate Valid()
      reads this, jrysData
    {
      && (storageInitialized ==>
            var l := LayoutFor(dataDir, hostDataRoot);
            avatarDir == l.avatarDir && backgroundCacheDir == Some(l.backgroundCacheDir) && backgroundTmpDir == Some(l.backgroundTmpDir))
      && (isDataLoaded <==> jrysData != null)
      && (jrysData != null ==> WellFormed(jrysData.doc))
      && (jrysFile.Some? && jrysFile.value.Json? ==> WellFormed(jrysFile.value.doc))
    }

    /** The naming the two path functions use once storage is set up. */
    function StorageNaming(): Naming {
      var l := LayoutFor(dataDir, hostDataRoot);
      Naming(l.backgroundCacheDir, l.backgroundTmpDir, digestOf, urlPathOf)
    }

    /** On-demand downloads are deleted after use exactly when pre-caching is off and cleanup is on. */
    predicate Ephemeral() {
      !preCacheEnabled && cleanupDownloads
    }

    /** Reads the three settings with their defaults (one day, off, on). */
    constructor(disk: Disk, dataDir: Path, hostDataRoot: Option<Path>, expiration: Option<real>,
                preCache: Option<bool>, cleanup: Option<bool>,
                digestOf: string -> string, urlPathOf: string -> string, jrysFile: Option<Stored>)
      requires jrysFile.Some? && jrysFile.value.Json? ==> WellFormed(jrysFile.value.doc)
      ensures Valid()
      ensures this.disk == disk && this.dataDir == dataDir && this.hostDataRoot == hostDataRoot
      ensures avatarCacheExpiration == expiration.GetOr(OneDayInSeconds)
      ensures preCacheEnabled == preCache.GetOr(false) && cleanupDownloads == cleanup.GetOr(true)
      ensures this.digestOf == digestOf && this.urlPathOf == urlPathOf && this.jrysFile == jrysFile
      ensures !storageInitialized && !isDataLoaded && jrysData == null
      ensures avatarDir == Join(dataDir, "avatars") && backgroundCacheDir.None? && backgroundTmpDir.None?
    {
      this.disk := disk;
      this.dataDir := dataDir;
      this.hostDataRoot := hostDataRoot;
      avatarCacheExpiration := expiration.GetOr(OneDayInSeconds);
      preCacheEnabled := preCache.GetOr(false);
      cleanupDownloads := cleanup.GetOr(true);
      this.digestOf := digestOf;
      this.urlPathOf := urlPathOf;
      storageInitialized := false;
      avatarDir := Join(dataDir, "avatars");
      backgroundCacheDir := None;
      backgroundTmpDir := None;
      isDataLoaded := false;
      jrysData := null;
      this.jrysFile := jrysFile;
    }

    /**
     * `_ensure_storage_dirs`: settles the directories once and returns the
     * legacy migrations it runs (see Migration); later calls do nothing.
     */
    method EnsureStorageDirs() returns (plan: seq<Move>)
      requires Valid()
      modifies this
      ensures Valid() && storageInitialized
      ensures plan == if old(storageInitialized) then [] else LegacyMoves(dataDir, hostDataRoot)
      ensures old(storageInitialized) ==> avatarDir == old(avatarDir) && backgroundCacheDir == old(backgroundCacheDir) && backgroundTmpDir == old(backgroundTmpDir)
      ensures isDataLoaded == old(isDataLoaded) && jrysData == old(jrysData) && jrysFile == old(jrysFile)
    {
      if storageInitialized {
        return [];
      }
      var bg := BackgroundDir(dataDir);
      ghost var l := LayoutFor(dataDir, hostDataRoot);
      if hostDataRoot.Some? {
        var pluginDataDir := Join(Join(hostDataRoot.value, "plugin_data"), PluginName);
        var cacheDir := Join(pluginDataDir, "cache");
        var cache := Join(cacheDir, "background_images");
        var tmp := Join(cacheDir, "background_images_tmp");
        var avatars := Join(cacheDir, "avatars");
        assert cache == l.backgroundCacheDir && tmp == l.backgroundTmpDir && avatars == l.avatarDir;
        backgroundCacheDir := Some(cache);
        backgroundTmpDir := Some(tmp);
        avatarDir := avatars;
        plan := [ Move(Join(dataDir, "avatars"), avatars), Move(Join(pluginDataDir, "avatars"), avatars),
                  Move(Join(bg, "images"), cache), Move(Join(dataDir, "background_images"), cache),
                  Move(Join(pluginDataDir, "background_images"), cache),
                  Move(Join(bg, "images_tmp"), tmp), Move(Join(dataDir, "background_images_tmp"), tmp),
                  Move(Join(pluginDataDir, "background_images_tmp"), tmp) ];
      } else {
        var cacheDir := Join(dataDir, "cache");
        var cache := Join(cacheDir, "background_images");
        var tmp := Join(cacheDir, "background_images_tmp");
        var avatars := Join(cacheDir, "avatars");
        assert cache == l.backgroundCacheDir && tmp == l.backgroundTmpDir && avatars == l.avatarDir;
        backgroundCacheDir := Some(cache);
        backgroundTmpDir := Some(tmp);
        avatarDir := avatars;
        plan := [ Move(Join(dataDir, "avatars"), avatars),
                  Move(Join(bg, "images"), cache), Move(Join(dataDir, "background_images"), cache),
                  Move(Join(bg, "images_tmp"), tmp), Move(Join(dataDir, "background_images_tmp"), tmp) ];
      }
      storageInitialized := true;
    }

    /**
     * `get_avatar_img`: serves `<avatar dir>/<user id>.jpg` while it is younger
     * than the expiration, otherwise downloads it (one retry).
     */
    method GetAvatarImg(userId: string, fetch: Fetch, now: real) returns (r: Option<Path>)
      requires Valid() && Covers(fetch, RetryBudget(DefaultRetries))
      modifies this, disk
      ensures Valid() && storageInitialized
      ensures isDataLoaded == old(isDataLoaded) && jrysData == old(jrysData) && jrysFile == old(jrysFile)
      ensures var a := AvatarLookup(old(disk.files), Join(LayoutFor(dataDir, hostDataRoot).avatarDir, AvatarFileName(userId)),
                                    fetch, now, avatarCacheExpiration);
        r == a.path && disk.files == a.files
    {
      var _ := EnsureStorageDirs();
      var avatarPath := Join(avatarDir, AvatarFileName(userId));
      if avatarPath in disk.files {
        var age := now - disk.files[avatarPath].mtime;
        if age < avatarCacheExpiration {
          return Some(avatarPath);
        }
      }
      var ok, _ := DownloadToPath(disk, AvatarUrl(userId), avatarPath, fetch, DefaultRetries, now);
      r := if ok then Some(avatarPath) else None;
    }

    /**
     * `get_background_image`. `choose` and `shuffle` stand for `random.choice`
     * and `random.shuffle`; candidate `i` is downloaded with `fetches[i]`, to
     * the fresh name `tokens[i]` when downloads are ephemeral.
     */
    method GetBackgroundImage(listing: Option<seq<ListFile>>, choose: nat -> nat, shuffle: seq<string> -> seq<string>,
                              fetches: seq<Fetch>, tokens: seq<string>, now: real)
      returns (r: Option<(Path, bool)>)
      requires Valid() && IsChoice(choose) && IsShuffle(shuffle)
      requires |fetches| >= MaxBackgroundAttempts && |tokens| >= MaxBackgroundAttempts
      requires forall i :: 0 <= i < |fetches| ==> Covers(fetches[i], RetryBudget(DefaultRetries))
      modifies this, disk
      ensures Valid() && storageInitialized
      ensures isDataLoaded == old(isDataLoaded) && jrysData == old(jrysData) && jrysFile == old(jrysFile)
      ensures match BackgroundCandidates(listing, choose, shuffle)
        case None => r == None && disk.files == old(disk.files)
        case Some(cands) =>
          var p := PickFrom(old(disk.files), cands, 0, StorageNaming(), Ephemeral(), fetches, tokens, now);
          r == p.found && disk.files == p.files
    {
      var _ := EnsureStorageDirs();
      var cands := ReadCandidates(listing, choose, shuffle);
      if cands.None? {
        return None;
      }
      assert Attempts(cands.value, fetches, tokens);
      r := TryCandidates(cands.value, fetches, tokens, now);
    }

    /**
     * The candidate loop of `get_background_image`: the first cached or
     * successfully downloaded http(s) candidate, with whether to delete it.
     */
    method TryCandidates(cands: seq<string>, fetches: seq<Fetch>, tokens: seq<string>, now: real)
      returns (r: Option<(Path, bool)>)
      requires Valid() && storageInitialized && Attempts(cands, fetches, tokens)
      modifies disk
      ensures var p := PickFrom(old(disk.files), cands, 0, StorageNaming(), Ephemeral(), fetches, tokens, now);
        r == p.found && disk.files == p.files
    {
      var shouldCleanupDownloads := !preCacheEnabled && cleanupDownloads;
      ghost var n := StorageNaming();
      var i := 0;
      while i < |cands|
        invariant 0 <= i <= |cands|
        invariant PickFrom(old(disk.files), cands, 0, n, Ephemeral(), fetches, tokens, now)
               == PickFrom(disk.files, cands, i, n, Ephemeral(), fetches, tokens, now)
      {
        var imageUrl := cands[i];
        ghost var files := disk.files;
        PickFromStep(files, cands, i, n, Ephemeral(), fetches, tokens, now);
        if IsHttpUrl(imageUrl) {
          var cachePath := Join(backgroundCacheDir.value, CacheFileName(digestOf(imageUrl), urlPathOf(imageUrl)));
          assert cachePath == CachePathFor(n, imageUrl);
          if cachePath in disk.files {
            return Some((cachePath, false));
          }
          var imagePath := cachePath;
          var shouldCleanup := false;
          if shouldCleanupDownloads {
            imagePath := Join(backgroundTmpDir.value, TmpFileName(tokens[i], urlPathOf(imageUrl)));
            shouldCleanup := true;
          }
          assert imagePath == if Ephemeral() then TmpPathFor(n, imageUrl, tokens[i]) else CachePathFor(n, imageUrl);
          assert shouldCleanup == Ephemeral();
          var ok, _ := DownloadToPath(disk, imageUrl, imagePath, fetches[i], DefaultRetries, now);
          ghost var run := Run(files, imagePath, fetches[i], RetryBudget(DefaultRetries), 0, now);
          assert ok == run.ok && disk.files == run.files;
          if ok {
            return Some((imagePath, shouldCleanup));
          }
        }
        i := i + 1;
      }
      return None;
    }

    /**
     * `_collect_all_background_urls`: every http(s) line of every `.txt` file,
     * de-duplicated and sorted; a file that fails part-way contributes the
     * lines read before the failure. `None`: the folder cannot be listed.
     */
    method CollectAllBackgroundUrls(listing: Option<seq<ListFile>>) returns (urls: Option<seq<string>>)
      ensures listing.None? ==> urls.None?
      ensures listing.Some? ==>
        && urls.Some? && StrictlySorted(urls.value)
        && Elements(urls.value) == UrlsOf(TxtFiles(listing.value))
        && |urls.value| == |UrlsOf(TxtFiles(listing.value))|
    {
      if listing.None? {
        return None;
      }
      var backgroundFiles := TxtFiles(listing.value);
      var found: set<string> := {};
      var i := 0;
      while i < |backgroundFiles|
        invariant 0 <= i <= |backgroundFiles|
        invariant found == UrlsOf(backgroundFiles[..i])
      {
        found := AddUrls(found, backgroundFiles[i].lines);
        UrlsOfStep(backgroundFiles, i);
        i := i + 1;
      }
      assert backgroundFiles[..i] == backgroundFiles;
      var sorted := SortedList(found);
      return Some(sorted);
    }

    /** The partition loop of the pre-cache: cached URLs are counted, the others queued with their cache path. */
    method PartitionCached(urls: seq<string>) returns (alreadyCached: nat, toDownload: seq<(string, Path)>)
      ensures toDownload == Uncached(urls, StorageNaming(), disk.files)
      ensures alreadyCached == CountCached(urls, StorageNaming(), disk.files)
      ensures alreadyCached + |toDownload| == |urls|
    {
      var n := StorageNaming();
      alreadyCached := 0;
      toDownload := [];
      var i := 0;
      while i < |urls|
        invariant 0 <= i <= |urls|
        invariant toDownload == Uncached(urls[..i], n, disk.files)
        invariant alreadyCached == CountCached(urls[..i], n, disk.files)
        invariant alreadyCached + |toDownload| == i
      {
        var dest := CachePathFor(n, urls[i]);
        ghost var prefix := urls[..i + 1];
        assert prefix[..i] == urls[..i] && prefix[i] == urls[i];
        assert Uncached(prefix, n, disk.files) == Uncached(urls[..i], n, disk.files) + (if dest in disk.files then [] else [(urls[i], dest)]);
        assert CountCached(prefix, n, disk.files) == CountCached(urls[..i], n, disk.files) + (if dest in disk.files then 1 else 0);
        if dest in disk.files {
          alreadyCached := alreadyCached + 1;
        } else {
          toDownload := toDownload + [(urls[i], dest)];
        }
        i := i + 1;
      }
      assert urls[..i] == urls;
    }

    /**
     * `_pre_cache_background_images`: collects the URLs, clamps the
     * concurrency, queues the uncached ones and downloads them, counting the
     * results. The downloads are made one after another (see README).
     * `None`: no report, because listing failed or no URL was found.
     */
    method PreCacheBackgroundImages(listing: Option<seq<ListFile>>, setting: ConfigValue, fetchFor: string -> Fetch, now: real)
      returns (report: Option<PreCacheReport>)
      requires Valid() && forall u :: Covers(fetchFor(u), RetryBudget(DefaultRetries))
      modifies this, disk
      ensures Valid() && storageInitialized
      ensures isDataLoaded == old(isDataLoaded) && jrysData == old(jrysData) && jrysFile == old(jrysFile)
      ensures report.None? ==> disk.files == old(disk.files)
      ensures report.Some? ==>
        var rep := report.value;
        && listing.Some? && StrictlySorted(rep.urls) && Elements(rep.urls) == UrlsOf(TxtFiles(listing.value)) && |rep.urls| > 0
        && rep.concurrency == ConcurrencyFrom(setting)
        && rep.toDownload == Uncached(rep.urls, StorageNaming(), old(disk.files))
        && rep.cached + |rep.toDownload| == |rep.urls|
        && rep.downloaded + rep.failed == |rep.toDownload|
        && var b := Batch(old(disk.files), rep.toDownload, fetchFor, now);
           rep.downloaded == b.downloaded && disk.files == b.files
      ensures listing.Some? && UrlsOf(TxtFiles(listing.value)) != {} ==> report.Some?
    {
      var _ := EnsureStorageDirs();
      var collected := CollectAllBackgroundUrls(listing);
      if collected.None? {
        return None;
      }
      var urls := collected.value;
      var total := |urls|;
      if total == 0 {
        return None;
      }
      var rep := PreCacheUrls(urls, setting, fetchFor, now);
      return Some(rep);
    }

    /** The part of the pre-cache after the URLs are known: clamp, partition, download, count. */
    method PreCacheUrls(urls: seq<string>, setting: ConfigValue, fetchFor: string -> Fetch, now: real)
      returns (rep: PreCacheReport)
      requires forall u :: Covers(fetchFor(u), RetryBudget(DefaultRetries))
      modifies disk
      ensures rep.urls == urls && rep.concurrency == ConcurrencyFrom(setting)
      ensures rep.toDownload == Uncached(urls, StorageNaming(), old(disk.files))
      ensures rep.cached + |rep.toDownload| == |urls|
      ensures rep.downloaded + rep.failed == |rep.toDownload|
      ensures var b := Batch(old(disk.files), rep.toDownload, fetchFor, now);
        rep.downloaded == b.downloaded && disk.files == b.files
    {
      var concurrency: int;
      var parsed := IntOf(setting);
      if parsed.Some? {
        concurrency := parsed.value;
      } else {
        concurrency := DefaultConcurrency;
      }
      concurrency := if concurrency > MaxConcurrency then MaxConcurrency else concurrency;
      concurrency := if concurrency < MinConcurrency then MinConcurrency else concurrency;
      var alreadyCached, toDownload := PartitionCached(urls);
      assert toDownload == Uncached(urls, StorageNaming(), old(disk.files));
      assert concurrency == ConcurrencyFrom(setting);
      var downloaded, failed := DownloadQueued(toDownload, fetchFor, now);
      ghost var b := Batch(old(disk.files), toDownload, fetchFor, now);
      assert downloaded == b.downloaded && disk.files == b.files;
      return PreCacheReport(urls, concurrency, alreadyCached, toDownload, downloaded, failed);
    }

    /**
     * The `_dl` tasks of the pre-cache, one per queued URL: an existing
     * destination counts as downloaded, otherwise the download's verdict counts.
     */
    method DownloadQueued(toDownload: seq<(string, Path)>, fetchFor: string -> Fetch, now: real)
      returns (downloaded: nat, failed: nat)
      requires forall u :: Covers(fetchFor(u), RetryBudget(DefaultRetries))
      modifies disk
      ensures Batch(old(disk.files), toDownload, fetchFor, now) == BatchResult(disk.files, downloaded)
      ensures downloaded + failed == |toDownload|
    {
      ghost var start := disk.files;
      downloaded, failed := 0, 0;
      var i := 0;
      while i < |toDownload|
        invariant 0 <= i <= |toDownload|
        invariant Batch(start, toDownload[..i], fetchFor, now) == BatchResult(disk.files, downloaded)
        invariant downloaded + failed == i
      {
        var url := toDownload[i].0;
        var dest := toDownload[i].1;
        ghost var prefix := toDownload[..i + 1];
        assert prefix[..i] == toDownload[..i] && prefix[i] == toDownload[i];
        var ok: bool;
        if dest in disk.files {
          ok := true;
        } else {
          var delivered, _ := DownloadToPath(disk, url, dest, fetchFor(url), DefaultRetries, now);
          ok := delivered;
        }
        if ok {
          downloaded := downloaded + 1;
        } else {
          failed := failed + 1;
        }
        i := i + 1;
      }
      assert toDownload[..i] == toDownload;
    }

    /** The storage set-up `_ensure_storage_dirs` records: its flag and the three directories. */
    ghost function Storage(): (bool, Path, Option<Path>, Option<Path>)
      reads this
    {
      (storageInitialized, avatarDir, backgroundCacheDir, backgroundTmpDir)
    }

    /**
     * `_load_jrys_data`: once loaded, the same object is returned on every
     * call. Otherwise a missing file is first created as `{}`; a parsable file
     * becomes the shared table and sets the flag; a corrupt one yields a fresh
     * empty object and leaves both the flag and the attribute as they were.
     */
    method LoadJrysData() returns (t: JsonObject)
      requires Valid()
      modifies this
      ensures Valid() && WellFormed(t.doc)
      ensures storageInitialized == old(storageInitialized) && avatarDir == old(avatarDir)
      ensures backgroundCacheDir == old(backgroundCacheDir) && backgroundTmpDir == old(backgroundTmpDir)
      ensures old(isDataLoaded) ==> t == jrysData && isDataLoaded && jrysData == old(jrysData) && jrysFile == old(jrysFile)
      ensures !old(isDataLoaded) ==>
        && jrysFile == Some(if old(jrysFile).None? then Json(EmptyDoc) else old(jrysFile).value)
        && fresh(t)
        && (jrysFile.value.Json? ==> isDataLoaded && jrysData == t && t.doc == jrysFile.value.doc)
        && (jrysFile.value.Corrupt? ==> !isDataLoaded && jrysData == old(jrysData) && t.doc == EmptyDoc)
    {
      if isDataLoaded {
        return jrysData;
      }
      if jrysFile.None? {
        jrysFile := Some(Json(EmptyDoc));
      }
      match jrysFile.value {
        case Json(d) =>
          t := new JsonObject(d);
          jrysData := t;
          isDataLoaded := true;
        case Corrupt =>
          t := new JsonObject(EmptyDoc);
      }
    }

    /**
     * `_save_jrys_data`: writes the shared table. Without one, the file has
     * already been opened for writing (and so emptied) when the missing
     * attribute raises, which leaves text `json.loads` rejects.
     */
    method SaveJrysData()
      requires Valid()
      modifies this
      ensures Valid()
      ensures jrysFile == if jrysData != null then Some(Json(jrysData.doc)) else Some(Corrupt)
      ensures storageInitialized == old(storageInitialized) && avatarDir == old(avatarDir)
      ensures backgroundCacheDir == old(backgroundCacheDir) && backgroundTmpDir == old(backgroundTmpDir)
      ensures isDataLoaded == old(isDataLoaded) && jrysData == old(jrysData)
    {
      if jrysData != null {
        jrysFile := Some(Json(jrysData.doc));
      } else {
        jrysFile := Some(Corrupt);
      }
    }
  }
}
