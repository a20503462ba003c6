/**
 * Parsing of the incoming request: the URI path and the site name taken from
 * the Host header, and the one write the router makes to the server
 * variables (the tunnel's X-Original-Host copied into X-Forwarded-Host).
 */
module Request {

  import opened PhpStrings
  import opened PhpStringFacts

  const REQUEST_URI := "REQUEST_URI"
  const HTTP_HOST := "HTTP_HOST"
  const HTTP_X_ORIGINAL_HOST := "HTTP_X_ORIGINAL_HOST"
  const HTTP_X_FORWARDED_HOST := "HTTP_X_FORWARDED_HOST"

  /** The request path: the request target up to its first '?', URL-decoded by `urlDecode`. */
  function ParseUri(requestUri: string, urlDecode: string -> string): (uri: string)
  {
    urlDecode(BeforeFirst(requestUri, '?'))
  }

  /** The query string never reaches the router: only the text before the first '?' is decoded. */
  lemma QueryIgnored(path: string, query: string, urlDecode: string -> string)
    requires '?' !in path
    ensures ParseUri(path + "?" + query, urlDecode) == urlDecode(path)
    ensures ParseUri(path, urlDecode) == urlDecode(path)
  {
    BeforeFirstOfJoin(path, '?', query);
    BeforeFirstParts(path, '?');
  }

  /** One leading "www." removed, once only. */
  function StripWww(name: string): (r: string)
    ensures StartsWith(name, "www.") ==> "www." + r == name
    ensures !StartsWith(name, "www.") ==> r == name
  {
    if StartsWith(name, "www.") then name[4..] else name
  }

  /** "www." is stripped once: "www.www.x" keeps one "www.". */
  lemma StripWwwOnce(name: string)
    ensures StripWww("www." + name) == name
    ensures StripWww("www.www." + name) == "www." + name
  {
    assert ("www." + name)[..4] == "www.";
    assert ("www.www." + name)[..4] == "www.";
    assert ("www.www." + name)[4..] == "www." + name;
  }

  /** The site name of a Host header: basename($host, ".$domain"), then one leading "www." removed. */
  function SiteNameFromHost(host: string, domain: string): (siteName: string)
  {
    StripWww(Basename(host, "." + domain))
  }

  /** A host `name.domain` (no '/') names the site `name`, minus one leading "www.". */
  lemma SiteNameOfDomainHost(name: string, domain: string)
    requires name != [] && '/' !in name && '/' !in domain
    ensures SiteNameFromHost(name + "." + domain, domain) == StripWww(name)
  {
    var host := name + "." + domain;
    var suffix := "." + domain;
    assert host == name + suffix;
    assert '/' !in host by {
      assert forall i :: 0 <= i < |host| ==> host[i] == if i < |name| then name[i] else suffix[i - |name|];
    }
    BasenameOfName(host, suffix);
    assert host[|host| - |suffix|..] == suffix;
    assert host[..|host| - |suffix|] == name;
  }

  /**
   * For a host without '/': the ".domain" suffix is cut when the host ends
   * with it and is strictly longer than it, otherwise the host is kept whole;
   * then one leading "www." goes.
   */
  lemma SiteNameOfHost(host: string, domain: string)
    requires '/' !in host
    ensures SiteNameFromHost(host, domain) ==
      StripWww(if |domain| + 1 < |host| && EndsWith(host, "." + domain) then host[..|host| - |domain| - 1] else host)
  {
    var suffix := "." + domain;
    BasenameOfName(host, suffix);
    assert EndsWith(host, suffix) <==> |suffix| <= |host| && host[|host| - |suffix|..] == suffix;
  }

  /** `www.name.domain` and `name.domain` name the same site when `name` has no "www." of its own. */
  lemma WwwHostSameSite(name: string, domain: string)
    requires name != [] && '/' !in name && '/' !in domain
    requires !StartsWith(name, "www.")
    ensures SiteNameFromHost("www." + name + "." + domain, domain) == SiteNameFromHost(name + "." + domain, domain)
  {
    var www := "www." + name;
    assert '/' !in www by {
      assert forall i :: 0 <= i < |www| ==> www[i] == if i < 4 then "www."[i] else name[i - 4];
    }
    SiteNameOfDomainHost(www, domain);
    SiteNameOfDomainHost(name, domain);
    StripWwwOnce(name);
  }

  /**
   * The server variables after the tunnel header copy: X-Forwarded-Host is set
   * from X-Original-Host only when the former is unset and the latter set.
   */
  function WithForwardedHost(vars: map<string, string>): (r: map<string, string>)
    ensures HTTP_X_FORWARDED_HOST in vars ==> r == vars
    ensures HTTP_X_ORIGINAL_HOST !in vars ==> r == vars
    ensures HTTP_X_ORIGINAL_HOST in vars && HTTP_X_FORWARDED_HOST !in vars ==>
      r.Keys == vars.Keys + {HTTP_X_FORWARDED_HOST} && r[HTTP_X_FORWARDED_HOST] == vars[HTTP_X_ORIGINAL_HOST]
    ensures forall k :: k in vars ==> k in r && r[k] == vars[k]
  {
    if HTTP_X_ORIGINAL_HOST in vars && HTTP_X_FORWARDED_HOST !in vars then
      vars[HTTP_X_FORWARDED_HOST := vars[HTTP_X_ORIGINAL_HOST]]
    else
      vars
  }

  /** The server variables ($_SERVER) of one request. */
  class ServerVars {
    var vars: map<string, string>

    constructor (initial: map<string, string>)
      ensures vars == initial
    {
      vars := initial;
    }

    /** ngrok keeps the forwarded host name in X-Original-Host; expose it as X-Forwarded-Host. */
    method CopyOriginalHost()
      modifies this
      ensures vars == WithForwardedHost(old(vars))
    {
      if HTTP_X_ORIGINAL_HOST in vars && HTTP_X_FORWARDED_HOST !in vars {
        vars := vars[HTTP_X_FORWARDED_HOST := vars[HTTP_X_ORIGINAL_HOST]];
      }
    }
  }
}
