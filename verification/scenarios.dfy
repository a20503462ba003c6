/**
 * Two requests against a small installation: domain `domain`, one
 * configured path `root` holding the single site directory `root/site`,
 * no certificates, and a generic driver that serves nothing statically and
 * runs the site's index.php. With domain "dev", root "/projects" and site
 * "blog", these are a request for blog.dev/index.php and one for missing.dev.
 */
module Scenarios {

  import opened Wrappers
  import opened PhpStrings
  import opened PhpStringFacts
  import opened Config
  import opened Request
  import opened Rewrites
  import opened SitePaths
  import opened SiteCache
  import opened Diagnostics
  import opened Server

  function IndexDriver(): Driver {
    Driver(
      uri => uri,
      (sitePath, siteName, uri) => None,
      (sitePath, siteName, uri) => Some(JoinPath(sitePath, "index.php")))
  }

  function OneSite(root: string, site: string): FileSystem {
    FileSystem({JoinPath(root, site)}, map[root := [JoinPath(root, site)]], p => p)
  }

  function Installation(domain: string, root: string, site: string, home: string): Environment {
    Environment(
      map["domain" := Text(domain), "paths" := PathList([root])],
      OneSite(root, site),
      home,
      [],
      uri => uri,
      (sitePath, siteName, uri) => Some(IndexDriver()))
  }

  function RequestFor(host: string, uri: string): map<string, string> {
    map[REQUEST_URI := uri, HTTP_HOST := host]
  }

  /** A plain label: a site name the host maps to unchanged. */
  predicate Label(name: string) {
    name != [] && '/' !in name && '.' !in name && !StartsWith(name, "www.")
  }

  predicate Directory(root: string) {
    root != [] && root[|root| - 1] != '/'
  }

  /** On this installation "<name>.<domain>" is the site name `name`, its own domain segment. */
  lemma SiteNameOnInstallation(domain: string, root: string, site: string, home: string, name: string, uri: string)
    requires Label(name) && '/' !in domain
    ensures RequestSiteName(Installation(domain, root, site, home).config, RequestFor(name + "." + domain, uri)) == name
    ensures DomainSegment(name) == name
  {
    var config := Installation(domain, root, site, home).config;
    var host := RequestFor(name + "." + domain, uri)[HTTP_HOST];
    assert host == name + "." + domain && Domain(config) == domain;
    SiteNameOfDomainHost(name, domain);
    assert SiteNameFromHost(host, domain) == name;
    assert "rewrites" !in config;
    assert RewriteAll([], name) == name;
    DomainSegmentIsLastLabel(name);
  }

  /** The site is found under the configured path, scanning the file system. */
  lemma SiteFound(domain: string, root: string, site: string, home: string, now: int)
    requires Label(site)
    ensures SitePathFor(Installation(domain, root, site, home), map[], site, now) == Some(JoinPath(root, site))
  {
    FirstPathWins(OneSite(root, site), [root], site, DomainSegment(site), 0);
  }

  /** A request for a ".php" page goes to the driver's front controller, run from the site directory. */
  lemma PhpPageDispatch(root: string, site: string, stem: string)
    requires Directory(root) && Label(site)
    ensures Dispatch(IndexDriver(), JoinPath(root, site), site, stem + ".php")
      == FrontController(JoinPath(JoinPath(root, site), "index.php"), JoinPath(root, site))
  {
    PhpRequestNotStatic(IndexDriver(), JoinPath(root, site), site, stem + ".php", stem);
    var sitePath := JoinPath(root, site);
    assert sitePath[|sitePath| - 1] == site[|site| - 1];
    DirnameOfJoin(sitePath, "index.php");
  }

  /** A ".php" request URI without a query string is kept as it is. */
  lemma PhpUriKept(domain: string, root: string, site: string, home: string, host: string, stem: string)
    requires '?' !in stem
    ensures ParseUri(RequestFor(host, stem + ".php")[REQUEST_URI], Installation(domain, root, site, home).urlDecode)
      == stem + ".php"
  {
    var uri := stem + ".php";
    assert '?' !in uri by {
      assert forall i :: 0 <= i < |uri| ==> uri[i] == if i < |stem| then stem[i] else ".php"[i - |stem|];
    }
    BeforeFirstParts(uri, '?');
  }

  /** A request for "<site>.<domain>/<stem>.php" runs the site's index.php from the site directory. */
  lemma SiteRunsItsIndex(domain: string, root: string, site: string, home: string, stem: string, now: int)
    requires Directory(root) && Label(site) && '/' !in domain && '?' !in stem
    ensures Route(Installation(domain, root, site, home), RequestFor(site + "." + domain, stem + ".php"), map[], now)
      == FrontController(JoinPath(JoinPath(root, site), "index.php"), JoinPath(root, site))
  {
    var env := Installation(domain, root, site, home);
    var vars := RequestFor(site + "." + domain, stem + ".php");
    var uri := stem + ".php";
    var sitePath := JoinPath(root, site);
    SiteNameOnInstallation(domain, root, site, home, site, uri);
    PhpUriKept(domain, root, site, home, site + "." + domain, stem);
    assert Route(env, vars, map[], now) == RouteSite(env, site, uri, map[], now);
    SiteFound(domain, root, site, home, now);
    assert env.assignDriver(sitePath, site, uri) == Some(IndexDriver());
    PhpPageDispatch(root, site, stem);
  }

  /** After that first request the site's directory is a cache hit for the rest of the hour. */
  lemma SiteCachedAfterFirstRequest(domain: string, root: string, site: string, home: string, now: int, later: int)
    requires Directory(root) && Label(site)
    requires now <= later < now + SITE_PATH_TTL
    ensures CachedSitePath(CacheAfter(Installation(domain, root, site, home), map[], site, now), site, later)
      == Some(JoinPath(root, site))
  {
    var sitePath := JoinPath(root, site);
    SiteFound(domain, root, site, home, now);
    assert sitePath[|sitePath| - 1] == site[|site| - 1];
    ScanResultCachedForAnHour(Installation(domain, root, site, home), map[], site, now, later);
  }

  /** No directory is found for a name other than the site's. */
  lemma OtherNotFound(domain: string, root: string, site: string, home: string, other: string, now: int)
    requires Label(site) && Label(other) && other != site
    ensures ResolvePath(OneSite(root, site), [root], other, DomainSegment(other)).None?
    ensures SitePathFor(Installation(domain, root, site, home), map[], other, now).None?
  {
    DomainSegmentIsLastLabel(other);
    assert JoinPath(root, other) != JoinPath(root, site) by {
      assert JoinPath(root, other)[|root| + 1..] == other;
      assert JoinPath(root, site)[|root| + 1..] == site;
    }
  }

  /** Without certificates the site is listed under its http URL. */
  lemma SiteListedOverHttp(domain: string, root: string, site: string, home: string)
    requires Label(site)
    ensures SiteUrl(SiteDomain(Subdirs(OneSite(root, site), root)[0], domain),
      CertificateMap([], CertificateDir(home))) == "http://" + site + "." + domain
  {
    var host := site + "." + domain;
    assert Subdirs(OneSite(root, site), root)[0] == root + "/" + site;
    BasenameOfJoin(root, site);
    assert SiteDomain(root + "/" + site, domain) == host;
    assert CertificateMap([], CertificateDir(home)) == map[];
    assert SiteUrl(host, map[]) == "http://" + host;
  }

  /**
   * A request for "<other>.<domain>" matches no directory: the 404 page names
   * "<other>.<domain>", counts the one site under the path and lists it under
   * its http URL.
   */
  lemma OtherSiteNotFound(domain: string, root: string, site: string, home: string, other: string, now: int)
    requires Label(site) && Label(other) && other != site && '/' !in domain
    ensures Route(Installation(domain, root, site, home), RequestFor(other + "." + domain, "/"), map[], now).NoSiteMatch?
    ensures var d := Route(Installation(domain, root, site, home), RequestFor(other + "." + domain, "/"), map[], now).diagnostics;
      d.requestedSite == other + "." + domain && d.siteCount == 1 && "http://" + site + "." + domain in d.paths
  {
    var env := Installation(domain, root, site, home);
    var vars := RequestFor(other + "." + domain, "/");
    SiteNameOnInstallation(domain, root, site, home, other, "/");
    OtherNotFound(domain, root, site, home, other, now);
    assert Route(env, vars, map[], now) == RouteSite(env, other, ParseUri(vars[REQUEST_URI], env.urlDecode), map[], now);
    NotFoundIffNoSitePath(env, other, ParseUri(vars[REQUEST_URI], env.urlDecode), map[], now);
    NotFoundCounts(env, other);
    NotFoundListsSite(env, other, 0, 0);
    SiteListedOverHttp(domain, root, site, home);
    assert [root][..0] == [];
  }
}
