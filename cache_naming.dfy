/**
 * How a background URL is turned into a file name: the permanent cache file
 * is `<sha256 hex of the URL><extension>`, the ephemeral one `<uuid hex><extension>`,
 * and the extension comes from the URL's path.
 */
module CacheNaming {
  import opened Text
  import opened FileSystem

  /** `s.rfind(c)`: the index of the last `c`, or -1. */
  function LastIndexOf(s: string, c: char): (r: int)
    ensures -1 <= r < |s|
    ensures r >= 0 ==> s[r] == c
    ensures forall i :: r < i < |s| ==> s[i] != c
  {
    if s == [] then -1
    else if s[|s| - 1] == c then |s| - 1
    else LastIndexOf(s[..|s| - 1], c)
  }

  /**
   * `os.path.splitext(path)[1]` for POSIX paths: from the last dot of the last
   * path component, unless everything before that dot in the component is dots.
   */
  function SplitExt(path: string): (ext: string)
    ensures ext == [] || (ext[0] == '.' && EndsWith(path, ext))
    ensures forall i :: 1 <= i < |ext| ==> ext[i] != '.' && ext[i] != '/'
  {
    var sep := LastIndexOf(path, '/');
    var dot := LastIndexOf(path, '.');
    if dot > sep && exists i :: sep + 1 <= i < dot && path[i] != '.' then path[dot..] else ""
  }

  const DefaultExtension: string := ".img"
  const MaxExtensionLength: nat := 10

  /**
   * The extension rule shared by both names: the lower-cased `splitext` suffix of
   * the URL path, replaced by ".img" when it is empty or longer than ten characters.
   */
  function ExtensionFor(urlPath: string): (ext: string)
    ensures 1 <= |ext| <= MaxExtensionLength && ext[0] == '.'
    ensures forall i :: 0 <= i < |ext| ==> ext[i] != '/' && !('A' <= ext[i] <= 'Z')
    ensures ext == DefaultExtension || ext == Lower(SplitExt(urlPath))
  {
    var e := Lower(SplitExt(urlPath));
    LoweredSuffixShape(SplitExt(urlPath));
    DefaultExtensionShape();
    if e == [] || |e| > MaxExtensionLength then DefaultExtension else e
  }

  /** A `splitext` suffix, lower-cased, still starts with its dot and holds no slash and no capital. */
  lemma LoweredSuffixShape(s: string)
    requires s == [] || s[0] == '.'
    requires forall i :: 1 <= i < |s| ==> s[i] != '.' && s[i] != '/'
    ensures var e := Lower(s);
      |e| == |s| && (e != [] ==> e[0] == '.') && forall i :: 0 <= i < |e| ==> e[i] != '/' && !('A' <= e[i] <= 'Z')
  {
  }

  lemma DefaultExtensionShape()
    ensures var e := DefaultExtension;
      |e| == 4 && e[0] == '.' && forall i :: 0 <= i < |e| ==> e[i] != '/' && !('A' <= e[i] <= 'Z')
  {
  }

  /** `f"{digest}{ext}"`: the permanent cache file name of a URL. */
  function CacheFileName(digest: string, urlPath: string): string {
    digest + ExtensionFor(urlPath)
  }

  /** `f"{uuid4().hex}{ext}"`: an ephemeral file name; `token` is the fresh uuid. */
  function TmpFileName(token: string, urlPath: string): string {
    token + ExtensionFor(urlPath)
  }

  /**
   * What the two path functions of the resource manager read: the two cache
   * directories, sha256 of a URL as hex, and `urlparse(url).path`.
   */
  datatype Naming = Naming(cacheDir: Path, tmpDir: Path, digestOf: string -> string, urlPathOf: string -> string)

  /** `_background_cache_path_for_url`: a function of the URL alone. */
  function CachePathFor(n: Naming, url: string): Path {
    Join(n.cacheDir, CacheFileName(n.digestOf(url), n.urlPathOf(url)))
  }

  /** `_background_tmp_path_for_url`, with `token` the fresh uuid hex. */
  function TmpPathFor(n: Naming, url: string, token: string): Path {
    Join(n.tmpDir, TmpFileName(token, n.urlPathOf(url)))
  }

  /**
   * With the temporary directory named after the cache directory plus "_tmp",
   * an ephemeral download can never land on a permanent cache file.
   */
  lemma EphemeralPathsAvoidCache(n: Naming, url: string, other: string, token: string)
    requires n.tmpDir == n.cacheDir + "_tmp"
    ensures TmpPathFor(n, other, token) != CachePathFor(n, url)
  {
    var k := |n.cacheDir|;
    assert CachePathFor(n, url)[k] == '/';
    assert TmpPathFor(n, other, token)[k] == '_';
  }

  /**
   * Digests of one length (sha256 hex is always 64 characters) give distinct
   * cache names whenever the digests differ, and the digest can be read back.
   */
  lemma CacheNamesSeparateDigests(d1: string, p1: string, d2: string, p2: string)
    requires |d1| == |d2|
    ensures CacheFileName(d1, p1)[..|d1|] == d1
    ensures d1 != d2 ==> CacheFileName(d1, p1) != CacheFileName(d2, p2)
  {
    assert CacheFileName(d1, p1)[..|d1|] == d1;
    assert CacheFileName(d2, p2)[..|d2|] == d2;
  }

  /** Characters that appear nowhere in `s`. */
  predicate Avoids(s: string, c: char, d: char) {
    forall i :: 0 <= i < |s| ==> s[i] != c && s[i] != d
  }

  /** What follows the separator in `dir + sep + name` is `name`. */
  lemma TailAvoids(dir: string, sep: string, name: string, c: char)
    requires forall i :: 0 <= i < |name| ==> name[i] != c
    ensures forall i :: |dir + sep| <= i < |dir + sep + name| ==> (dir + sep + name)[i] != c
  {
    var p := dir + sep + name;
    forall i | |dir + sep| <= i < |p|
      ensures p[i] != c
    {
      assert p[i] == name[i - |dir + sep|];
    }
  }

  /** The last slash of `dir + "/" + name` is the one before `name` when `name` has none. */
  lemma LastSlash(dir: string, name: string)
    requires forall i :: 0 <= i < |name| ==> name[i] != '/'
    ensures LastIndexOf(dir + "/" + name, '/') == |dir|
  {
    TailAvoids(dir, "/", name, '/');
    assert (dir + "/" + name)[|dir|] == '/';
    LastIndexIs(dir + "/" + name, '/', |dir|);
  }

  /** A last path component without a dot has no suffix: the extension falls back to ".img". */
  lemma NoSuffixFallsBack(dir: string, name: string)
    requires Avoids(name, '.', '/')
    ensures ExtensionFor(dir + "/" + name) == DefaultExtension
  {
    var p := dir + "/" + name;
    LastSlash(dir, name);
    forall i | |dir| < i < |p|
      ensures p[i] != '.'
    {
      assert p[i] == name[i - |dir| - 1];
    }
    assert LastIndexOf(p, '.') <= |dir|;
    assert SplitExt(p) == "";
  }

  /** A dot-file (one leading dot, no other) has no suffix either. */
  lemma DotFileFallsBack(dir: string, name: string)
    requires Avoids(name, '.', '/')
    ensures ExtensionFor(dir + "/." + name) == DefaultExtension
  {
    var p := dir + "/." + name;
    assert p == dir + "/" + ("." + name);
    LastSlash(dir, "." + name);
    forall i | |dir| + 1 < i < |p|
      ensures p[i] != '.'
    {
      assert p[i] == name[i - |dir| - 2];
    }
    LastIndexIs(p, '.', |dir| + 1);
    assert SplitExt(p) == "";
  }

  /** `dir/stem.suffix` with a stem that does not start with a dot: `splitext` gives ".suffix". */
  lemma SuffixOf(dir: string, stem: string, suffix: string)
    requires stem != [] && stem[0] != '.' && forall i :: 0 <= i < |stem| ==> stem[i] != '/'
    requires Avoids(suffix, '.', '/')
    ensures SplitExt(dir + "/" + stem + "." + suffix) == "." + suffix
  {
    var p := dir + "/" + stem + "." + suffix;
    var name := stem + "." + suffix;
    assert p == dir + "/" + name;
    forall i | 0 <= i < |name|
      ensures name[i] != '/'
    {
      if i < |stem| {
        assert name[i] == stem[i];
      } else if i > |stem| {
        assert name[i] == suffix[i - |stem| - 1];
      }
    }
    LastSlash(dir, name);
    var dot := |dir| + 1 + |stem|;
    forall i | dot < i < |p|
      ensures p[i] != '.'
    {
      assert p[i] == suffix[i - dot - 1];
    }
    LastIndexIs(p, '.', dot);
    assert p[|dir| + 1] == stem[0];
    assert p[dot..] == "." + suffix;
  }

  /** An ordinary suffix of at most nine characters is kept, lower-cased. */
  lemma SuffixIsLowerCased(dir: string, stem: string, suffix: string)
    requires stem != [] && stem[0] != '.' && forall i :: 0 <= i < |stem| ==> stem[i] != '/'
    requires Avoids(suffix, '.', '/') && 1 <= |suffix| < MaxExtensionLength
    ensures ExtensionFor(dir + "/" + stem + "." + suffix) == Lower("." + suffix)
  {
    SuffixOf(dir, stem, suffix);
  }

  /** A suffix of ten or more characters after the dot is replaced by ".img". */
  lemma LongSuffixFallsBack(dir: string, stem: string, suffix: string)
    requires stem != [] && stem[0] != '.' && forall i :: 0 <= i < |stem| ==> stem[i] != '/'
    requires Avoids(suffix, '.', '/') && |suffix| >= MaxExtensionLength
    ensures ExtensionFor(dir + "/" + stem + "." + suffix) == DefaultExtension
  {
    SuffixOf(dir, stem, suffix);
  }

  lemma LastIndexIs(s: string, c: char, k: int)
    requires k == -1 || (0 <= k < |s| && s[k] == c)
    requires forall i :: k < i < |s| ==> s[i] != c
    ensures LastIndexOf(s, c) == k
  {
  }
}
