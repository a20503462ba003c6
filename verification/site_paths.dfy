/**
 * Resolution of a site name to a project directory: the configured paths are
 * scanned in order, and in each `path/siteName` is tried before
 * `path/domainSegment`. The scan also counts the sub-directories of every
 * path it passes over without a match.
 */
module SitePaths {

  import opened Wrappers
  import opened PhpStrings
  import opened PhpStringFacts

  /**
   * The file system as the router sees it: which paths are directories
   * (is_dir), the sub-directories that glob lists for a path with
   * GLOB_ONLYDIR, as full paths, and realpath's canonical form of a path.
   */
  datatype FileSystem = FileSystem(
    dirs: set<string>,
    subdirs: map<string, seq<string>>,
    realpath: string -> string)

  function Subdirs(fs: FileSystem, path: string): seq<string> {
    if path in fs.subdirs then fs.subdirs[path] else []
  }

  function JoinPath(path: string, name: string): string {
    path + "/" + name
  }

  /** The last '.'-separated label of the site name ("foo.bar" gives "bar", "foo" gives "foo"). */
  function DomainSegment(siteName: string): string
  {
    AfterLast(siteName, '.')
  }

  /** The domain segment ends the site name, holds no '.', and is the whole name when it has no '.'. */
  lemma DomainSegmentIsLastLabel(siteName: string)
    ensures '.' !in DomainSegment(siteName) && EndsWith(siteName, DomainSegment(siteName))
    ensures '.' !in siteName ==> DomainSegment(siteName) == siteName
    ensures |DomainSegment(siteName)| < |siteName| ==> siteName[|siteName| - |DomainSegment(siteName)| - 1] == '.'
  {
    AfterLastParts(siteName, '.');
  }

  /** The label after the last dot is the domain segment. */
  lemma DomainSegmentOfDotted(name: string, last: string)
    requires '.' !in last
    ensures DomainSegment(name + "." + last) == last
  {
    assert name + "." + last == name + ['.'] + last;
    AfterLastOfJoin(name, '.', last);
  }

  /** What one configured path offers: `path/siteName` if a directory, else `path/domain` if a directory. */
  function Candidate(fs: FileSystem, path: string, siteName: string, domain: string): (r: Option<string>)
    ensures r.Some? <==> JoinPath(path, siteName) in fs.dirs || JoinPath(path, domain) in fs.dirs
    ensures r.Some? ==> r.value in fs.dirs
    ensures JoinPath(path, siteName) in fs.dirs ==> r == Some(JoinPath(path, siteName))
    ensures JoinPath(path, siteName) !in fs.dirs && JoinPath(path, domain) in fs.dirs ==> r == Some(JoinPath(path, domain))
  {
    if JoinPath(path, siteName) in fs.dirs then Some(JoinPath(path, siteName))
    else if JoinPath(path, domain) in fs.dirs then Some(JoinPath(path, domain))
    else None
  }

  /** The index of the first path with a candidate, or |paths| when none has one. */
  function MatchIndex(fs: FileSystem, paths: seq<string>, siteName: string, domain: string): (k: nat)
    ensures k <= |paths|
    ensures k < |paths| ==> Candidate(fs, paths[k], siteName, domain).Some?
    ensures forall j :: 0 <= j < k ==> Candidate(fs, paths[j], siteName, domain).None?
    decreases |paths|
  {
    if paths == [] then 0
    else if Candidate(fs, paths[0], siteName, domain).Some? then 0
    else
      var k := 1 + MatchIndex(fs, paths[1..], siteName, domain);
      assert forall j :: 1 <= j < k ==> paths[j] == paths[1..][j - 1];
      k
  }

  /** The directory the scan settles on, before realpath. */
  function ResolvePath(fs: FileSystem, paths: seq<string>, siteName: string, domain: string): (r: Option<string>)
    ensures r.None? <==> forall j :: 0 <= j < |paths| ==> Candidate(fs, paths[j], siteName, domain).None?
    ensures r.Some? ==> r.value in fs.dirs
  {
    var k := MatchIndex(fs, paths, siteName, domain);
    if k < |paths| then Candidate(fs, paths[k], siteName, domain) else None
  }

  /** The first path with a candidate wins over every later path. */
  lemma FirstPathWins(fs: FileSystem, paths: seq<string>, siteName: string, domain: string, i: nat)
    requires i < |paths| && Candidate(fs, paths[i], siteName, domain).Some?
    requires forall j :: 0 <= j < i ==> Candidate(fs, paths[j], siteName, domain).None?
    ensures ResolvePath(fs, paths, siteName, domain) == Candidate(fs, paths[i], siteName, domain)
  {
  }

  /** With the site directory under two paths, the one listed first is used. */
  lemma EarlierPathPreferred(fs: FileSystem, first: string, second: string, siteName: string)
    requires JoinPath(first, siteName) in fs.dirs && JoinPath(second, siteName) in fs.dirs
    ensures ResolvePath(fs, [first, second], siteName, DomainSegment(siteName)) == Some(JoinPath(first, siteName))
  {
    FirstPathWins(fs, [first, second], siteName, DomainSegment(siteName), 0);
  }

  /**
   * When the first path with a candidate has no `path/siteName` directory,
   * the scan falls back to `path/domainSegment` there.
   */
  lemma DomainFallback(fs: FileSystem, paths: seq<string>, siteName: string, i: nat)
    requires i < |paths|
    requires forall j :: 0 <= j < i ==> Candidate(fs, paths[j], siteName, DomainSegment(siteName)).None?
    requires JoinPath(paths[i], siteName) !in fs.dirs && JoinPath(paths[i], DomainSegment(siteName)) in fs.dirs
    ensures ResolvePath(fs, paths, siteName, DomainSegment(siteName)) == Some(JoinPath(paths[i], DomainSegment(siteName)))
  {
    FirstPathWins(fs, paths, siteName, DomainSegment(siteName), i);
  }

  /** A subdomain `sub.site` without its own directory is served from `path/site`. */
  lemma SubdomainServedBySite(fs: FileSystem, path: string, sub: string, site: string)
    requires '.' !in site
    requires JoinPath(path, sub + "." + site) !in fs.dirs && JoinPath(path, site) in fs.dirs
    ensures ResolvePath(fs, [path], sub + "." + site, DomainSegment(sub + "." + site)) == Some(JoinPath(path, site))
  {
    DomainSegmentOfDotted(sub, site);
    DomainFallback(fs, [path], sub + "." + site, 0);
  }

  /** The total number of sub-directories of the given paths. */
  function SubdirTotal(fs: FileSystem, paths: seq<string>): (total: nat)
    decreases |paths|
  {
    if paths == [] then 0 else SubdirTotal(fs, paths[..|paths| - 1]) + |Subdirs(fs, paths[|paths| - 1])|
  }

  /** Counting over `a + b` is counting over `a` and then over `b`. */
  lemma {:induction false} SubdirTotalAppend(fs: FileSystem, a: seq<string>, b: seq<string>)
    ensures SubdirTotal(fs, a + b) == SubdirTotal(fs, a) + SubdirTotal(fs, b)
    decreases |b|
  {
    if b == [] {
      assert a + b == a;
    } else {
      assert (a + b)[..|a + b| - 1] == a + b[..|b| - 1];
      SubdirTotalAppend(fs, a, b[..|b| - 1]);
    }
  }

  /**
   * The scan of the router: for each path in order, stop at `path/siteName`
   * or `path/domain` when either is a directory; otherwise add the number of
   * the path's sub-directories to the count and go on.
   */
  method ScanPaths(fs: FileSystem, paths: seq<string>, siteName: string, domain: string)
    returns (sitePath: Option<string>, siteCount: nat)
    ensures sitePath == ResolvePath(fs, paths, siteName, domain)
    ensures siteCount == SubdirTotal(fs, paths[..MatchIndex(fs, paths, siteName, domain)])
  {
    sitePath := None;
    siteCount := 0;
    var i := 0;
    while i < |paths|
      invariant 0 <= i <= |paths|
      invariant forall j :: 0 <= j < i ==> Candidate(fs, paths[j], siteName, domain).None?
      invariant siteCount == SubdirTotal(fs, paths[..i])
      invariant sitePath.None?
    {
      var path := paths[i];
      if JoinPath(path, siteName) in fs.dirs {
        sitePath := Some(JoinPath(path, siteName));
        break;
      }
      if JoinPath(path, domain) in fs.dirs {
        sitePath := Some(JoinPath(path, domain));
        break;
      }
      assert paths[..i + 1][..i] == paths[..i];
      siteCount := siteCount + |Subdirs(fs, path)|;
      i := i + 1;
    }
    assert MatchIndex(fs, paths, siteName, domain) == i;
  }
}
