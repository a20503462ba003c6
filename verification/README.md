# Valet request router, modelled in Dafny

This project models `server.php`, the script through which valetPlusReforged
(a fork of Valet+, itself an extension of Laravel Valet, with a Twig 404 page
and MailHog) routes every HTTP request to a local project:

1. It takes the request path: the text before `?`, URL-decoded.
2. It derives the site name from the `Host` header by cutting `.<domain>`
   with PHP `basename` semantics and dropping one leading `www.`.
3. It passes the name through the configured rewrite (alias) table.
4. It looks up the site directory in the APCu cache. On a miss it scans the
   configured paths in order, trying `path/siteName` and then
   `path/<domain segment>`. A directory found goes through `realpath` and is
   cached for an hour with the add-only `apcu_add`.
5. It asks the driver registry for a driver.
6. It copies ngrok's `X-Original-Host` into `X-Forwarded-Host`.
7. It serves a static file, or hands over to the driver's front controller
   after changing to its directory.

Each way a request can end is a value of `Server.Outcome`:

- `NoSiteMatch` carries the data handed to the 404 template: the requested
  host, the configuration, the custom configuration, the site count, the
  https/http URL of every site directory, the number of paths and the
  MailHog URL.
- `NoDriver`
- `StaticFile`
- `FrontController`, with the controller path and its working directory.
- `NoFrontController`

## How the model is built

- **Modules.** There is one module per concern:
  - `PhpStrings` and `PhpStringFacts`: the PHP built-ins the router uses, and
    facts about them.
  - `Config`: the decoded `config.json`.
  - `Request`: the URI, the host, and the `$_SERVER` object.
  - `Rewrites`
  - `SitePaths`: the scan and the domain segment.
  - `SiteCache`: APCu.
  - `Diagnostics`: the 404 data.
  - `Server`: the pipeline.
  - `Scenarios`: two requests against a small installation, a
    `blog.dev/index.php` page and a `missing.dev` site.
- **Pure steps.** Parsing, rewriting, scanning, cache reads and writes,
  diagnostics and dispatch are each a function. Together they give `Route`,
  the outcome of a request, and `CacheAfter` / `VarsAfter`, the state the
  request leaves behind.
- **Imperative steps.** The parts of the script that update variables step by
  step are methods, each proved equal to its function:
  - the rewrite loop;
  - the path scan with its running `$siteCount`;
  - the certificate and URL loops;
  - the cache `Store` class;
  - the `$_SERVER` object `ServerVars`.
- **The whole request.** `Server.HandleRequest` runs the script on a
  `ServerVars` and a `Store`. It is proved to return `Route(...)` and to leave
  `CacheAfter(...)` and `VarsAfter(...)` behind.
- **Parameters.** The file system is an abstract `FileSystem` holding:
  - the `is_dir` set;
  - the `glob(..., GLOB_ONLYDIR)` listings;
  - `realpath`.

  The driver registry and the drivers are functions in `Server.Environment`
  and `Server.Driver`, and so is `urldecode`. The clock is the explicit `now`.

### Behaviour of the script worth knowing

- **Rewrites chain.** The rewrite walk never stops early: only the inner
  `foreach` breaks (`server.php:40-47`). A later entry therefore sees, and
  can rewrite again, a name that an earlier entry produced (see
  `Rewrites.AliasMatchContinues` and `Rewrites.RewritesChain`).
- **The order of the rewrite table matters.** An alias and its site resolve
  alike under the conditions of `Rewrites.AliasAndSiteAgree`. When those
  conditions fail they can differ: `Rewrites.RewriteOrderMatters` gives a
  table where "a" ends at "b" but "b" ends at "c".
- **The cache write is add-only.** `apcu_add` (`server.php:131`) never
  replaces a live entry. The only live entry a scan can meet holds a falsy
  value (for example `false` from a failed `realpath`), and it is kept
  (`Server.LiveEntryKept`). An expired entry is replaced (`SiteCache.Add`).
- **The site count stops at the match.** `$siteCount` counts only the paths
  before the matching one, because the `break`s come before the count
  (`server.php:63,68,71`). On the 404 page, where nothing matched, it is the
  total.
- **The custom configuration keeps `rewrites`.** It drops only `domain` and
  `paths` (`server.php:80-81`).

## Model

| member | source | states |
|---|---|---|
| PhpStringFacts.BeforeFirstParts | server.php:22-24 | explode('?')[0] is the longest prefix without '?': a prefix of the input, free of the separator, followed by the separator when shorter than the input, and the whole input when there is no separator |
| PhpStrings.BeforeFirst | server.php:23 | explode(sep, s)[0]; it is never longer than `s` (characterised by PhpStringFacts.BeforeFirstParts) |
| PhpStringFacts.BeforeFirstOfJoin | server.php:22-24 | the part before the first separator of `a + sep + b` is `a` whenever `a` has no separator |
| Request.QueryIgnored | server.php:22-24 | the decoded URI of `path?query` is urldecode(path): nothing after '?' reaches the router; a target without '?' is decoded whole |
| Request.ParseUri | server.php:22-24 | the request path: urldecode of the request target before its first '?' (stated by Request.QueryIgnored) |
| PhpStringFacts.AfterLastParts | server.php:54 | the last exploded piece is the longest suffix free of the separator, preceded by the separator when shorter than the input, and the whole input when it has no separator |
| PhpStrings.AfterLast | server.php:54 | array_slice(explode(sep, s), -1)[0]; it is never longer than `s` (characterised by PhpStringFacts.AfterLastParts) |
| PhpStringFacts.AfterLastOfJoin | server.php:54 | the last piece of `a + sep + b` is `b` whenever `b` has no separator |
| PhpStringFacts.TrimTrailingParts | server.php:26-30 | the trailing-slash trim of basename yields a prefix that does not end in the character, and only copies of the character were cut |
| PhpStringFacts.BasenameOfName | server.php:26-30 | on a name without '/', basename cuts the suffix exactly when the name ends with it and is strictly longer, and otherwise returns the name |
| PhpStrings.Basename | server.php:26-30 | basename(path, suffix): last component after trailing slashes are trimmed, minus a proper suffix (stated by PhpStringFacts.BasenameOfName and PhpStringFacts.BasenameOfJoin) |
| PhpStringFacts.BasenameOfJoin | server.php:104 | the basename of `dir/name` is `name` |
| PhpStringFacts.DirnameOfJoin | server.php:185 | the dirname of `dir/name` is `dir` for a `dir` not ending in '/' |
| PhpStrings.Dirname | server.php:185 | a non-empty path has a non-empty dirname |
| PhpStringFacts.PhpSuffixHasPhpExtension | server.php:164 | every path ending in ".php" has extension "php" |
| PhpStrings.Extension | server.php:164 | pathinfo(path, PATHINFO_EXTENSION): the text after the last '.' of the basename, absent when it has none (stated by PhpStringFacts.PhpSuffixHasPhpExtension) |
| PhpStrings.RemoveAll | server.php:89-90 | str_replace with '' never lengthens the string, and leaves it unchanged when the pattern does not occur |
| PhpStringFacts.RemoveLeading | server.php:89 | a leading occurrence of the pattern is removed and removal goes on after it |
| PhpStringFacts.RemoveTrailing | server.php:90 | removing the pattern from `s + pattern` gives `s` when the pattern starts nowhere inside `s` |
| Request.StripWww | server.php:32-34 | a name starting with "www." loses exactly that prefix; any other name is unchanged |
| Request.StripWwwOnce | server.php:32-34 | "www." is removed once only: "www.www.x" becomes "www.x" |
| Request.SiteNameOfHost | server.php:26-34 | for a host without '/', the site name is the host minus ".domain" when it ends with that suffix and is strictly longer, else the host itself, then without one leading "www." |
| Request.SiteNameFromHost | server.php:26-34 | the site name of a Host header: basename with ".domain" as suffix, then one leading "www." dropped (stated by Request.SiteNameOfHost) |
| Request.SiteNameOfDomainHost | server.php:26-34 | the host `name.domain` gives the site name `name`, minus one leading "www." |
| Request.WwwHostSameSite | server.php:26-34 | `www.name.domain` and `name.domain` name the same site when `name` has no "www." of its own |
| Config.Rewrites | server.php:39 | a configuration without "rewrites" has an empty rewrite table |
| Rewrites.RewriteStep | server.php:41-46 | one entry leaves the name alone or replaces it by that entry's site |
| Rewrites.RewriteAll | server.php:39-48 | after the walk the name is the original one or the site of some entry |
| Rewrites.ResolveRewrite | server.php:39-48 | the nested loop, with its inner break, computes the walk over the whole table |
| Rewrites.RewriteAllAppend | server.php:40-47 | walking `front + back` is walking `front`, then `back` from the name `front` produced |
| Rewrites.UnaliasedNameUnchanged | server.php:39-48 | a name that is no entry's alias is not rewritten |
| Rewrites.AliasMatchContinues | server.php:40-47 | the first entry listing the alias rewrites it to its site, and the entries after it are still checked against the new name |
| Rewrites.AliasResolvesToSite | server.php:40-47 | an alias ends at the site of the first entry listing it when no later entry lists that site in turn |
| Rewrites.AliasAndSiteAgree | server.php:40-47 | under those conditions, with the site nobody's alias, the alias and the site name resolve to the same site |
| Rewrites.RewritesChain | server.php:40-47 | with entries b:[a] then c:[b], "a" is rewritten to "c": rewrites chain |
| Rewrites.RewriteOrderMatters | server.php:40-47 | with entries c:[b] then b:[a], "a" ends at "b" while "b" ends at "c": an alias and its site can resolve differently |
| SitePaths.DomainSegmentIsLastLabel | server.php:54 | the domain segment has no '.', ends the site name, follows a '.' when shorter than the name, and is the name itself when it has no '.' |
| SitePaths.DomainSegment | server.php:54 | the last '.'-separated label of the site name (stated by SitePaths.DomainSegmentIsLastLabel) |
| SitePaths.DomainSegmentOfDotted | server.php:54 | the domain segment of `name.last` is `last` |
| SitePaths.Candidate | server.php:61-69 | a path offers a directory iff `path/siteName` or `path/domain` is one; it is `path/siteName` when that is a directory, else `path/domain` |
| SitePaths.MatchIndex | server.php:60-70 | the index of the first path with a candidate, every earlier path having none, or the number of paths when none has one |
| SitePaths.ResolvePath | server.php:57-72 | the scan finds nothing exactly when no path has a candidate; what it finds is a directory |
| SitePaths.FirstPathWins | server.php:60-70 | the first path with a candidate decides the result |
| SitePaths.EarlierPathPreferred | server.php:60-70 | with the site under two paths, the first listed is used |
| SitePaths.DomainFallback | server.php:60-70 | at the first path with a candidate, when `path/siteName` is not a directory, the scan returns `path/domainSegment` |
| SitePaths.SubdomainServedBySite | server.php:54-69 | `sub.site` without its own directory is served from `path/site` when that is a directory |
| SitePaths.SubdirTotalAppend | server.php:71 | the site count over `a + b` is the count over `a` plus the count over `b` |
| SitePaths.ScanPaths | server.php:57-72 | the scan loop returns the first candidate and a site count over exactly the paths before the match (all of them when none matches) |
| SiteCache.CacheKey | server.php:53 | the key is the name behind the fixed prefix, so distinct names have distinct keys |
| SiteCache.Fetch | server.php:53 | apcu_fetch yields a value iff a live (unexpired) entry holds the key, and that entry's value |
| SiteCache.Add | server.php:131 | apcu_add changes nothing when a live entry holds the key; otherwise the value is readable for exactly the TTL; no other key changes |
| SiteCache.Store.FetchAt | server.php:53 | the store's fetch is `Fetch` on its entries |
| SiteCache.Store.AddAt | server.php:131 | the store reports whether it stored, and its entries become `Add` of the old ones |
| Config.CustomConfig | server.php:78-81 | the custom configuration has the keys of the configuration minus "domain" and "paths", each with its value; "rewrites" is kept |
| Diagnostics.CertKeyOfFile | server.php:84-92 | the key of `certDir + name + ".crt"` is `name` when `name` has no '/' and no ".crt" |
| Diagnostics.CertKey | server.php:89-90 | the certificate key: the directory and then ".crt" removed everywhere from the file name (stated by Diagnostics.CertKeyOfFile) |
| Diagnostics.CertificateMap | server.php:86-92 | the certificate index, key to file, in glob order with later files overriding (stated by Diagnostics.CertificateMapKeys and Diagnostics.CertificateMapLastWins) |
| Diagnostics.DirectoryNotInName | server.php:89 | the certificate directory occurs nowhere in `name.crt`, so the first removal leaves it whole |
| Diagnostics.ExtensionOnlyAtEnd | server.php:90 | ".crt" starts nowhere inside `name` in `name.crt` |
| Diagnostics.CertificateMapKeys | server.php:88-92 | the certificate index holds exactly the keys of the listed files |
| Diagnostics.CertificateMapLastWins | server.php:88-92 | under each key the index holds the last file listed with that key |
| Diagnostics.BuildCertificates | server.php:84-92 | the certificate loop builds that index |
| Diagnostics.SiteHostsAt | server.php:104 | the host at each position is `basename(site).domain` of the site at that position |
| Diagnostics.SiteHosts | server.php:104 | the host name `basename(site).domain` of each site, in order; as many hosts as sites |
| Diagnostics.SiteUrlScheme | server.php:105-111 | a site URL is an https URL exactly when its host has a certificate |
| Diagnostics.SiteUrl | server.php:105-111 | "https://host" when a certificate is indexed under the host, else "http://host" (stated by Diagnostics.SiteUrlScheme) |
| Diagnostics.SiteUrlMapValues | server.php:112 | every value of the URL map is true exactly when its URL is an https URL |
| Diagnostics.SiteUrlMap | server.php:99-113 | the URL of each host mapped to its certificate flag, later writes overriding (stated by Diagnostics.SiteUrlMapKeys and Diagnostics.SiteUrlMapValues) |
| Diagnostics.SiteUrlMapKeys | server.php:99-113 | the keys of the URL map are exactly the URLs of the listed hosts |
| Diagnostics.SiteListed | server.php:99-113 | every listed site appears under its URL, with value "its host has a certificate" |
| Diagnostics.AllSubdirs | server.php:100 | the sites listed under all paths number the scan's full site count |
| Diagnostics.AllSubdirsAt | server.php:99-101 | the j-th sub-directory of the i-th path is in the listing after those of the earlier paths |
| Diagnostics.SiteUrlMapSnoc | server.php:101-112 | proof helper for Diagnostics.AddSiteUrls: unfolds SiteHosts and SiteUrlMap by one more site, one map write |
| Diagnostics.AddSiteUrls | server.php:101-113 | the inner loop adds the URLs of one path's sub-directories, in order |
| Diagnostics.BuildSiteUrls | server.php:99-114 | the nested loop builds the URL map of all sub-directories of all paths |
| Server.Dispatch | server.php:159-185 | a static file iff the mutated URI is not "/", not a .php file, and isStaticFile returns a truthy path; otherwise a front controller iff the driver returns a truthy one, run from its dirname; else no front controller |
| Server.PhpRequestNotStatic | server.php:164-166 | a mutated URI ending in ".php" is never served statically |
| Server.CachedSitePath | server.php:53-57 | a hit exactly when a live entry holds a truthy value, and then that value |
| Server.LocateSite | server.php:53-72 | the lookup returns the cached or scanned directory, leaves the cache as `CacheAfter` says, and gives the 404 site count on a miss |
| Server.SitePathFor | server.php:53-72 | the site directory: the cached one on a hit, else realpath of the scan's result, else none (stated by Server.CacheHitSkipsScan and Server.NotFoundIffNoSitePath) |
| Server.CacheAfter | server.php:129-131 | the cache after the request: written with apcu_add for 3600 seconds only after a scan that found the site (stated by Server.NotFoundWritesNothing, Server.LiveEntryKept, Server.ScanResultCachedForAnHour) |
| Server.BuildDiagnostics | server.php:74-125 | the 404 data equals the diagnostics the model specifies |
| Server.DiagnosticsFor | server.php:74-125 | the 404 template data (stated by Server.NotFoundCounts and Server.NotFoundListsSite) |
| Server.ServeWith | server.php:159-185 | the driver calls in the script's order give `Dispatch` |
| Server.ResolveSiteName | server.php:26-48 | host parsing then the rewrite loop give the request's site name |
| Server.RequestSiteName | server.php:26-48 | the request's site name: the Host header's site name through the rewrite walk |
| Request.WithForwardedHost | server.php:152-154 | X-Forwarded-Host is set from X-Original-Host only when the former is unset and the latter set; no other variable changes |
| Request.ServerVars.CopyOriginalHost | server.php:152-154 | the server variables become `WithForwardedHost` of the old ones |
| Server.HandleRequest | server.php:22-189 | the whole script returns `Route` of the request, leaves `CacheAfter` in the cache and `VarsAfter` in the server variables |
| Server.RouteSite | server.php:53-189 | the outcome for a site name and URI, in the script's order: site, driver, static file, front controller (stated by Server.NotFoundIffNoSitePath and Server.NoDriverIffUnclaimed) |
| Server.Route | server.php:22-189 | the outcome of a request with the given server variables |
| Server.VarsAfter | server.php:152-154 | the server variables after the request: the tunnel header copied once a driver is found (stated by Server.ForwardedHostOnlyWithDriver) |
| Server.NotFoundIffNoSitePath | server.php:57-75 | the request ends in the 404 page iff neither cache nor scan yields a directory; then the scan found nothing and the page carries the specified diagnostics |
| Server.NoDriverIffUnclaimed | server.php:141-147 | "no driver" iff a directory was found and no driver claims it |
| Server.ForwardedHostOnlyWithDriver | server.php:141-154 | the tunnel header is copied exactly for requests that get past site and driver lookup |
| Server.CacheHitSkipsScan | server.php:53-57 | on a truthy cache hit the file system plays no part and the cache is not written |
| Server.NotFoundWritesNothing | server.php:74-131 | a request whose site is not found leaves the cache unchanged |
| Server.LiveEntryKept | server.php:131 | a live entry, even one with a falsy value, is never replaced |
| Server.ScanResultCachedForAnHour | server.php:129-131 | after a successful scan the same directory is a hit for 3600 seconds, and no other site's entry changes |
| Server.CachedEntryExpires | server.php:131 | from 3600 seconds after the scan on, the entry is gone and the site is scanned again |
| Server.NotFoundCounts | server.php:58-72 | the 404 page names `siteName.domain`, counts the sub-directories of every path, and reports the number of paths |
| Server.NotFoundListsSite | server.php:99-113 | the 404 page lists every sub-directory of every path under its https or http URL, with the certificate flag as value |
| Server.DiagnosticsUrls | server.php:97-114 | proof helper for Server.NotFoundListsSite: unfolds the URL map of DiagnosticsFor over the sub-directories of all configured paths |
| Scenarios.SiteNameOnInstallation | server.php:26-48 | on the sample installation the host `name.domain` is the site `name`, its own domain segment |
| Scenarios.SiteFound | server.php:57-72 | the site directory is found under the configured path |
| Scenarios.PhpPageDispatch | server.php:159-185 | a .php request goes to the site's index.php, run from the site directory |
| Scenarios.PhpUriKept | server.php:22-24 | a .php request target without query is kept as it is |
| Scenarios.SiteRunsItsIndex | server.php:22-189 | `site.domain/stem.php` ends in the front controller `root/site/index.php` with working directory `root/site` |
| Scenarios.SiteCachedAfterFirstRequest | server.php:129-131 | after that request the site directory is a cache hit for the rest of the hour |
| Scenarios.OtherNotFound | server.php:57-74 | no directory is found for another name |
| Scenarios.SiteListedOverHttp | server.php:104-111 | without certificates the site is listed under its http URL |
| Scenarios.OtherSiteNotFound | server.php:22-125 | `other.domain` ends in the 404 page naming `other.domain`, counting one site, and listing the site over http |

## Left out

- **The 404 template.** Twig rendering, `phpversion()` and the
  `$requestedSiteName` variable the template does not receive are not
  modelled. The model stops at the data handed to the template.
- **Drivers.** The driver classes, `src/drivers/require.php` and
  `ValetDriver::assign` are not part of this model. The driver registry and
  each driver's `mutateUri`, `isStaticFile` and `frontControllerPath` are
  functions of their arguments. Real drivers may also read `$_SERVER`, which
  the model does not capture.
- **Serving.** `serveStaticFile` is not modelled; the outcome records what
  it would be called with. `require $frontControllerPath` and `exit` are not
  modelled either: each outcome is where the script stops.
- **Short-circuiting.** `Dispatch` computes the `isStaticFile` answer even
  when the URI is "/" or a .php file. Since drivers are pure in the model,
  this is not observable.
- **Loose comparison.** PHP's loose `==` in the rewrite comparison is modelled
  as string equality. PHP compares two numeric strings as numbers, so it
  treats "1e1" and "10" as equal; the model tells them apart.
- **`urldecode` and `htmlspecialchars`.** `urldecode` is a parameter.
  `htmlspecialchars` (on the paths handed to `glob`, the certificate
  directory and the requested site) is taken as the identity, so paths and
  names are assumed free of `&`, `<`, `>` and quotes.
- **Reading the configuration.** `config.json` is read with `json_decode`;
  the model takes the decoded document as given. Values the router does not
  interpret are carried as raw text. `Config.WellFormed` requires a string
  `domain` and a list `paths`; this is a choice of the model, not a limit
  of the script. PHP coerces a numeric `domain` in `.` concatenation and
  `sprintf('%s')`, so it works. A missing, null or scalar `paths` is never
  read on a cache hit, and fails with a TypeError at `count()`
  (`server.php:59`) on the scan path. A JSON object as `paths` decodes to an
  associative array, which `count()` and both `foreach` loops
  (`server.php:60,99`) accept, so it works like the list of its values;
  `Config.WellFormed` excludes it too.
- **The file system.** `is_dir`, `glob` and `realpath` are the fields of
  `SitePaths.FileSystem`.
  - `realpath` is total: its `false` result for a vanished directory is not
    modelled.
  - `glob` listings are given as sequences of full paths.
- **Windows paths.** `basename` and `dirname` are modelled on '/'-separated
  paths only; Windows backslash separators are not handled.
- Diagnostics.SiteUrlMap, Config.CustomConfig: PHP arrays keep insertion
  order, and the 404 template lists the URL map and the configurations in
  that order (`server.php:112-125`). Dafny maps have no order, so the model
  does not capture display order; for example, a URL written twice keeps its
  first position in PHP. Keys and values are modelled exactly.
- SiteCache.Add: only a positive ttl is modelled. APCu reads a ttl of 0 as
  "never expires", but the router always passes 3600.
- **APCu timing.** Expiry is modelled as "live while now < expiry". APCu's
  handling of the exact boundary second, and its other eviction causes
  (memory pressure, restarts), are not modelled.
- **Concurrency.** Requests sharing the cache concurrently are not modelled;
  each request is one sequential run.
- Rewrites.RewriteAll: site names and aliases are strings only. `json_decode`
  (`server.php:14-17`) turns a decimal-integer key such as "2048" into a PHP
  int, so `$siteName = $site` (`server.php:43`) makes the name an int. Under
  `strict_types` the `explode` at `server.php:54` then throws a TypeError and
  the request fails, while the model resolves it normally. Aliases that are
  not strings cannot be represented either: a JSON `true` loosely equals every
  truthy name.
- Server.Route, Server.VarsAfter, Server.HandleRequest: these require a Host
  header (`HTTP_HOST`) and a request target. The script reads
  `$_SERVER['HTTP_HOST']` unguarded (`server.php:28`). For a request without a
  Host header (HTTP/1.0), `basename(null, ...)` throws a TypeError under
  `strict_types`. That failure is not one of the model's outcomes.
- **Elasticsearch.** `cli/Valet/Elasticsearch.php` is not part of this model.
  It installs and starts services and edits files, with no routing logic.
