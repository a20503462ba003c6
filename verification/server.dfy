/**
 * One request through the router: parse the request, resolve rewrites, find
 * the site directory (cache, else scan and cache), ask for a driver, then
 * serve a static file or hand over to the driver's front controller. Every
 * way the request can end is an Outcome.
 */
module Server {

  import opened Wrappers
  import opened PhpStrings
  import opened PhpStringFacts
  import opened Config
  import opened Request
  import opened Rewrites
  import opened SitePaths
  import opened SiteCache
  import opened Diagnostics

  /**
   * The driver chosen for a site, reduced to what the router asks of it.
   * A result of None stands for the driver returning false.
   */
  datatype Driver = Driver(
    mutateUri: string -> string,
    isStaticFile: (string, string, string) -> Option<string>,
    frontControllerPath: (string, string, string) -> Option<string>)

  /**
   * Everything a request is handled against besides the server variables and
   * the cache: the configuration, the file system, the Valet home directory,
   * the certificate files its glob lists, urldecode, and the driver
   * assignment (None when no driver claims the site).
   */
  datatype Environment = Environment(
    config: ConfigDoc,
    fs: FileSystem,
    home: string,
    certificateFiles: seq<string>,
    urlDecode: string -> string,
    assignDriver: (string, string, string) -> Option<Driver>)

  datatype Outcome =
    | NoSiteMatch(diagnostics: Diagnostics)
    | NoDriver
    | StaticFile(staticPath: string, sitePath: string, siteName: string, uri: string)
    | FrontController(path: string, workingDir: string)
    | NoFrontController

  /** A driver answer PHP treats as true: a string other than "" and "0". */
  predicate Returned(answer: Option<string>) {
    answer.Some? && Truthy(answer.value)
  }

  predicate IsPhpFile(uri: string) {
    Extension(uri) == Some("php")
  }

  /**
   * The static-or-dynamic decision on the driver's mutated URI: a static file
   * only for a URI other than "/" without the "php" extension for which the
   * driver names a file; otherwise the driver's front controller, run from
   * its own directory, or no front controller at all.
   */
  function Dispatch(driver: Driver, sitePath: string, siteName: string, uri: string): (o: Outcome)
    ensures o.StaticFile? || o.FrontController? || o.NoFrontController?
    ensures o.StaticFile? <==>
      var mutated := driver.mutateUri(uri);
      mutated != "/" && !IsPhpFile(mutated) && Returned(driver.isStaticFile(sitePath, siteName, mutated))
    ensures o.StaticFile? ==>
      o.uri == driver.mutateUri(uri) && o.sitePath == sitePath && o.siteName == siteName
      && driver.isStaticFile(sitePath, siteName, o.uri) == Some(o.staticPath)
    ensures !o.StaticFile? ==>
      (o.FrontController? <==> Returned(driver.frontControllerPath(sitePath, siteName, driver.mutateUri(uri))))
    ensures o.FrontController? ==>
      driver.frontControllerPath(sitePath, siteName, driver.mutateUri(uri)) == Some(o.path)
      && o.workingDir == Dirname(o.path)
  {
    var mutated := driver.mutateUri(uri);
    var staticFile := driver.isStaticFile(sitePath, siteName, mutated);
    if mutated != "/" && !IsPhpFile(mutated) && Returned(staticFile) then
      StaticFile(staticFile.value, sitePath, siteName, mutated)
    else
      var frontController := driver.frontControllerPath(sitePath, siteName, mutated);
      if Returned(frontController) then FrontController(frontController.value, Dirname(frontController.value))
      else NoFrontController
  }

  /** A request whose mutated URI ends in ".php" is never served as a static file. */
  lemma PhpRequestNotStatic(driver: Driver, sitePath: string, siteName: string, uri: string, stem: string)
    requires driver.mutateUri(uri) == stem + ".php"
    ensures !Dispatch(driver, sitePath, siteName, uri).StaticFile?
  {
    PhpSuffixHasPhpExtension(stem);
  }

  /** The site name of a request: from the Host header, then through the rewrite table. */
  function RequestSiteName(config: ConfigDoc, vars: map<string, string>): string
    requires WellFormed(config) && HTTP_HOST in vars
  {
    RewriteAll(Config.Rewrites(config), SiteNameFromHost(vars[HTTP_HOST], Domain(config)))
  }

  /** A cache hit as the router counts it: a live entry with a truthy value. */
  function CachedSitePath(cache: CacheMap, siteName: string, now: int): (r: Option<string>)
    ensures r.Some? ==> Truthy(r.value) && Fetch(cache, CacheKey(siteName), now) == r
    ensures Fetch(cache, CacheKey(siteName), now).Some? && Truthy(Fetch(cache, CacheKey(siteName), now).value) ==>
      r == Fetch(cache, CacheKey(siteName), now)
  {
    var hit := Fetch(cache, CacheKey(siteName), now);
    if hit.Some? && Truthy(hit.value) then hit else None
  }

  /** The site directory: the cached one, else the scan's result through realpath. */
  function SitePathFor(env: Environment, cache: CacheMap, siteName: string, now: int): Option<string>
    requires WellFormed(env.config)
  {
    var cached := CachedSitePath(cache, siteName, now);
    if cached.Some? then cached
    else
      match ResolvePath(env.fs, Paths(env.config), siteName, DomainSegment(siteName))
      case None => None
      case Some(found) => Some(env.fs.realpath(found))
  }

  /** The cache after the request: written (add-only, one hour) only after a scan that found the site. */
  function CacheAfter(env: Environment, cache: CacheMap, siteName: string, now: int): CacheMap
    requires WellFormed(env.config)
  {
    if CachedSitePath(cache, siteName, now).Some? then cache
    else
      match ResolvePath(env.fs, Paths(env.config), siteName, DomainSegment(siteName))
      case None => cache
      case Some(found) => Add(cache, CacheKey(siteName), env.fs.realpath(found), SITE_PATH_TTL, now)
  }

  /** The 404 page data for a site name no configured path holds. */
  function DiagnosticsFor(env: Environment, siteName: string): Diagnostics
    requires WellFormed(env.config)
  {
    var paths := Paths(env.config);
    var domain := Domain(env.config);
    var certs := CertificateMap(env.certificateFiles, CertificateDir(env.home));
    Diagnostics(
      siteName + "." + domain,
      env.config,
      CustomConfig(env.config),
      SubdirTotal(env.fs, paths[..MatchIndex(env.fs, paths, siteName, DomainSegment(siteName))]),
      SiteUrlMap(SiteHosts(AllSubdirs(env.fs, paths), domain), certs),
      |paths|,
      "http://mailhog." + domain)
  }

  /** How a request for `siteName` and `uri` ends, in the order the router checks: site, driver, static file, front controller. */
  function RouteSite(env: Environment, siteName: string, uri: string, cache: CacheMap, now: int): Outcome
    requires WellFormed(env.config)
  {
    match SitePathFor(env, cache, siteName, now)
    case None => NoSiteMatch(DiagnosticsFor(env, siteName))
    case Some(sitePath) =>
      match env.assignDriver(sitePath, siteName, uri)
      case None => NoDriver
      case Some(driver) => Dispatch(driver, sitePath, siteName, uri)
  }

  /** The request gets as far as a driver: a site directory is found and a driver claims it. */
  predicate ReachesDriver(env: Environment, siteName: string, uri: string, cache: CacheMap, now: int)
    requires WellFormed(env.config)
  {
    var sitePath := SitePathFor(env, cache, siteName, now);
    sitePath.Some? && env.assignDriver(sitePath.value, siteName, uri).Some?
  }

  /** How the request with server variables `vars` ends. */
  function Route(env: Environment, vars: map<string, string>, cache: CacheMap, now: int): Outcome
    requires WellFormed(env.config) && HTTP_HOST in vars && REQUEST_URI in vars
  {
    RouteSite(env, RequestSiteName(env.config, vars), ParseUri(vars[REQUEST_URI], env.urlDecode), cache, now)
  }

  /** The server variables after the request: the tunnel header is copied once a driver is found. */
  function VarsAfter(env: Environment, vars: map<string, string>, cache: CacheMap, now: int): map<string, string>
    requires WellFormed(env.config) && HTTP_HOST in vars && REQUEST_URI in vars
  {
    if ReachesDriver(env, RequestSiteName(env.config, vars), ParseUri(vars[REQUEST_URI], env.urlDecode), cache, now)
    then WithForwardedHost(vars) else vars
  }

  /**
   * The site directory lookup: the cache first, else the scan, whose result
   * goes through realpath and into the cache for an hour. On a miss it also
   * hands back the scan's site count for the 404 page.
   */
  method LocateSite(env: Environment, cache: Store, siteName: string, now: int)
    returns (sitePath: Option<string>, siteCount: nat)
    requires WellFormed(env.config)
    modifies cache
    ensures sitePath == SitePathFor(env, old(cache.entries), siteName, now)
    ensures cache.entries == CacheAfter(env, old(cache.entries), siteName, now)
    ensures sitePath.None? ==> siteCount == DiagnosticsFor(env, siteName).siteCount
  {
    var cached := cache.FetchAt(CacheKey(siteName), now);
    if cached.Some? && Truthy(cached.value) {
      return cached, 0;
    }
    var found;
    found, siteCount := ScanPaths(env.fs, Paths(env.config), siteName, DomainSegment(siteName));
    if found.None? {
      return None, siteCount;
    }
    sitePath := Some(env.fs.realpath(found.value));
    var added := cache.AddAt(CacheKey(siteName), sitePath.value, SITE_PATH_TTL, now);
  }

  /** The 404 page data, given the scan's site count. */
  method BuildDiagnostics(env: Environment, siteName: string, siteCount: nat) returns (diagnostics: Diagnostics)
    requires WellFormed(env.config)
    requires siteCount == DiagnosticsFor(env, siteName).siteCount
    ensures diagnostics == DiagnosticsFor(env, siteName)
  {
    var domain := Domain(env.config);
    var certificates := BuildCertificates(env.certificateFiles, CertificateDir(env.home));
    var urls := BuildSiteUrls(env.fs, Paths(env.config), domain, certificates);
    diagnostics := Diagnostics(
      siteName + "." + domain,
      env.config,
      CustomConfig(env.config),
      siteCount,
      urls,
      |Paths(env.config)|,
      "http://mailhog." + domain);
  }

  /** The static-or-dynamic decision, asking the driver in the router's order. */
  method ServeWith(driver: Driver, sitePath: string, siteName: string, uri: string) returns (outcome: Outcome)
    ensures outcome == Dispatch(driver, sitePath, siteName, uri)
  {
    var mutated := driver.mutateUri(uri);
    var isPhpFile := Extension(mutated) == Some("php");
    if mutated != "/" && !isPhpFile {
      var staticFilePath := driver.isStaticFile(sitePath, siteName, mutated);
      if staticFilePath.Some? && Truthy(staticFilePath.value) {
        return StaticFile(staticFilePath.value, sitePath, siteName, mutated);
      }
    }
    var frontControllerPath := driver.frontControllerPath(sitePath, siteName, mutated);
    if !(frontControllerPath.Some? && Truthy(frontControllerPath.value)) {
      return NoFrontController;
    }
    outcome := FrontController(frontControllerPath.value, Dirname(frontControllerPath.value));
  }

  /** The site name of the request: the Host header without the domain and "www.", then the rewrite loop. */
  method ResolveSiteName(config: ConfigDoc, vars: map<string, string>) returns (siteName: string)
    requires WellFormed(config) && HTTP_HOST in vars
    ensures siteName == RequestSiteName(config, vars)
  {
    siteName := SiteNameFromHost(vars[HTTP_HOST], Domain(config));
    siteName := ResolveRewrite(Config.Rewrites(config), siteName);
  }

  /** The router, step by step, on the server variables and the cache store of the process. */
  method HandleRequest(env: Environment, server: ServerVars, cache: Store, now: int) returns (outcome: Outcome)
    requires WellFormed(env.config) && HTTP_HOST in server.vars && REQUEST_URI in server.vars
    modifies server, cache
    ensures outcome == Route(env, old(server.vars), old(cache.entries), now)
    ensures cache.entries == CacheAfter(env, old(cache.entries), RequestSiteName(env.config, old(server.vars)), now)
    ensures server.vars == VarsAfter(env, old(server.vars), old(cache.entries), now)
  {
    var uri := ParseUri(server.vars[REQUEST_URI], env.urlDecode);
    var siteName := ResolveSiteName(env.config, server.vars);
    assert Route(env, old(server.vars), old(cache.entries), now) == RouteSite(env, siteName, uri, old(cache.entries), now);

    var sitePath, siteCount := LocateSite(env, cache, siteName, now);
    if sitePath.None? {
      var diagnostics := BuildDiagnostics(env, siteName, siteCount);
      return NoSiteMatch(diagnostics);
    }

    var chosen := env.assignDriver(sitePath.value, siteName, uri);
    if chosen.None? {
      return NoDriver;
    }
    server.CopyOriginalHost();
    outcome := ServeWith(chosen.value, sitePath.value, siteName, uri);
  }

  // ---- What the router promises ----

  /** A request ends in "no site" exactly when neither the cache nor the scan yields a directory. */
  lemma NotFoundIffNoSitePath(env: Environment, siteName: string, uri: string, cache: CacheMap, now: int)
    requires WellFormed(env.config)
    ensures RouteSite(env, siteName, uri, cache, now).NoSiteMatch? <==> SitePathFor(env, cache, siteName, now).None?
    ensures RouteSite(env, siteName, uri, cache, now).NoSiteMatch? ==>
      ResolvePath(env.fs, Paths(env.config), siteName, DomainSegment(siteName)).None?
      && RouteSite(env, siteName, uri, cache, now).diagnostics == DiagnosticsFor(env, siteName)
  {
    if SitePathFor(env, cache, siteName, now).Some? {
      var sitePath := SitePathFor(env, cache, siteName, now).value;
      match env.assignDriver(sitePath, siteName, uri)
      case None =>
      case Some(driver) =>
        assert RouteSite(env, siteName, uri, cache, now) == Dispatch(driver, sitePath, siteName, uri);
    }
  }

  /** "No driver" is its own outcome: a site was found and no driver claimed it. */
  lemma NoDriverIffUnclaimed(env: Environment, siteName: string, uri: string, cache: CacheMap, now: int)
    requires WellFormed(env.config)
    ensures RouteSite(env, siteName, uri, cache, now) == NoDriver <==>
      var sitePath := SitePathFor(env, cache, siteName, now);
      sitePath.Some? && env.assignDriver(sitePath.value, siteName, uri).None?
  {
    if SitePathFor(env, cache, siteName, now).Some? {
      var sitePath := SitePathFor(env, cache, siteName, now).value;
      match env.assignDriver(sitePath, siteName, uri)
      case None =>
      case Some(driver) =>
        assert RouteSite(env, siteName, uri, cache, now) == Dispatch(driver, sitePath, siteName, uri);
    }
  }

  /** The tunnel header is copied exactly for requests that end after a driver was found. */
  lemma ForwardedHostOnlyWithDriver(env: Environment, siteName: string, uri: string, cache: CacheMap, now: int)
    requires WellFormed(env.config)
    ensures var o := RouteSite(env, siteName, uri, cache, now);
      ReachesDriver(env, siteName, uri, cache, now) <==> !(o.NoSiteMatch? || o.NoDriver?)
  {
    NotFoundIffNoSitePath(env, siteName, uri, cache, now);
    NoDriverIffUnclaimed(env, siteName, uri, cache, now);
  }

  /** A cache hit decides the site without looking at the file system, and writes nothing. */
  lemma CacheHitSkipsScan(env: Environment, otherFs: FileSystem, siteName: string, uri: string, cache: CacheMap, now: int)
    requires WellFormed(env.config)
    requires CachedSitePath(cache, siteName, now).Some?
    ensures RouteSite(env.(fs := otherFs), siteName, uri, cache, now) == RouteSite(env, siteName, uri, cache, now)
    ensures ReachesDriver(env.(fs := otherFs), siteName, uri, cache, now) == ReachesDriver(env, siteName, uri, cache, now)
    ensures CacheAfter(env, cache, siteName, now) == cache
  {
    assert SitePathFor(env.(fs := otherFs), cache, siteName, now) == SitePathFor(env, cache, siteName, now);
  }

  /** A request whose site is not found leaves the cache as it was. */
  lemma NotFoundWritesNothing(env: Environment, cache: CacheMap, siteName: string, now: int)
    requires WellFormed(env.config)
    requires SitePathFor(env, cache, siteName, now).None?
    ensures CacheAfter(env, cache, siteName, now) == cache
  {
  }

  /** A live cache entry is never replaced, even one whose value the router does not accept. */
  lemma LiveEntryKept(env: Environment, cache: CacheMap, siteName: string, now: int)
    requires WellFormed(env.config)
    requires Fetch(cache, CacheKey(siteName), now).Some?
    ensures CacheAfter(env, cache, siteName, now) == cache
  {
  }

  /**
   * After a scan that found the site, requests in the next hour are cache
   * hits for the same directory, and no other site's entry changes.
   */
  lemma ScanResultCachedForAnHour(env: Environment, cache: CacheMap, siteName: string, now: int, later: int)
    requires WellFormed(env.config)
    requires Fetch(cache, CacheKey(siteName), now).None?
    requires SitePathFor(env, cache, siteName, now).Some? && Truthy(SitePathFor(env, cache, siteName, now).value)
    requires now <= later < now + SITE_PATH_TTL
    ensures CachedSitePath(CacheAfter(env, cache, siteName, now), siteName, later) == SitePathFor(env, cache, siteName, now)
    ensures forall other :: other != siteName ==>
      CachedSitePath(CacheAfter(env, cache, siteName, now), other, later) == CachedSitePath(cache, other, later)
  {
    var after := CacheAfter(env, cache, siteName, now);
    forall other | other != siteName
      ensures CachedSitePath(after, other, later) == CachedSitePath(cache, other, later)
    {
      assert CacheKey(other)[|KEY_PREFIX|..] != CacheKey(siteName)[|KEY_PREFIX|..];
    }
  }

  /** An hour after the scan the entry has expired and the next request scans again. */
  lemma CachedEntryExpires(env: Environment, cache: CacheMap, siteName: string, now: int, later: int)
    requires WellFormed(env.config)
    requires Fetch(cache, CacheKey(siteName), now).None?
    requires now + SITE_PATH_TTL <= later
    ensures CachedSitePath(CacheAfter(env, cache, siteName, now), siteName, later).None?
  {
  }

  /**
   * The 404 page for a site name no path holds reports the requested host
   * name, the number of configured paths, and the number of sub-directories
   * of every one of them: the scan, having matched nothing, counted them all.
   */
  lemma NotFoundCounts(env: Environment, siteName: string)
    requires WellFormed(env.config)
    requires ResolvePath(env.fs, Paths(env.config), siteName, DomainSegment(siteName)).None?
    ensures DiagnosticsFor(env, siteName).requestedSite == siteName + "." + Domain(env.config)
    ensures DiagnosticsFor(env, siteName).siteCount == SubdirTotal(env.fs, Paths(env.config))
    ensures DiagnosticsFor(env, siteName).valetPaths == |Paths(env.config)|
  {
    var paths := Paths(env.config);
    var k := MatchIndex(env.fs, paths, siteName, DomainSegment(siteName));
    assert k == |paths|;
    assert paths[..k] == paths;
  }

  /**
   * The 404 page lists every sub-directory of every configured path under its
   * URL: https exactly when a certificate for its host name exists.
   */
  lemma NotFoundListsSite(env: Environment, siteName: string, i: nat, j: nat)
    requires WellFormed(env.config)
    requires i < |Paths(env.config)| && j < |Subdirs(env.fs, Paths(env.config)[i])|
    ensures var host := SiteDomain(Subdirs(env.fs, Paths(env.config)[i])[j], Domain(env.config));
      var certs := CertificateMap(env.certificateFiles, CertificateDir(env.home));
      SiteUrl(host, certs) in DiagnosticsFor(env, siteName).paths
      && DiagnosticsFor(env, siteName).paths[SiteUrl(host, certs)] == (host in certs)
  {
    var paths := Paths(env.config);
    var sites := AllSubdirs(env.fs, paths);
    var certs := CertificateMap(env.certificateFiles, CertificateDir(env.home));
    var n := SubdirTotal(env.fs, paths[..i]) + j;
    AllSubdirsAt(env.fs, paths, i, j);
    assert sites[n] == Subdirs(env.fs, paths[i])[j];
    SiteListed(sites, Domain(env.config), certs, n);
    DiagnosticsUrls(env, siteName);
  }

  /** The 404 page's URL map covers the sub-directories of all configured paths. */
  lemma DiagnosticsUrls(env: Environment, siteName: string)
    requires WellFormed(env.config)
    ensures DiagnosticsFor(env, siteName).paths == SiteUrlMap(
      SiteHosts(AllSubdirs(env.fs, Paths(env.config)), Domain(env.config)),
      CertificateMap(env.certificateFiles, CertificateDir(env.home)))
  {
  }
}
