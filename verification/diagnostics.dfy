/**
 * The data behind the 404 page shown when no project directory matches: the
 * certificate index, the URL of every site found under the configured paths
 * (https when a certificate for it exists), and the configuration view.
 */
module Diagnostics {

  import opened PhpStrings
  import opened PhpStringFacts
  import opened Config
  import opened SitePaths

  const CERT_EXTENSION := ".crt"

  /** The certificate directory under the Valet home directory. */
  function CertificateDir(home: string): string {
    home + "/Certificates/"
  }

  /** The index key of a certificate file: every occurrence of the directory, then of ".crt", removed. */
  function CertKey(file: string, certDir: string): string {
    RemoveAll(RemoveAll(file, certDir), CERT_EXTENSION)
  }

  /** For a file `dir/name.crt` the key is `name`, when `name` has no '/' and no ".crt" of its own. */
  lemma CertKeyOfFile(certDir: string, name: string)
    requires '/' in certDir && '/' !in name && NoOccurrence(name, CERT_EXTENSION)
    ensures CertKey(certDir + name + CERT_EXTENSION, certDir) == name
  {
    var file := name + CERT_EXTENSION;
    assert certDir + name + CERT_EXTENSION == certDir + file;
    RemoveLeading(certDir, file);
    DirectoryNotInName(certDir, name);
    ExtensionOnlyAtEnd(name);
    RemoveTrailing(name, CERT_EXTENSION);
  }

  /** A directory path (it holds a '/') occurs nowhere in `name.crt` when `name` has no '/'. */
  lemma DirectoryNotInName(certDir: string, name: string)
    requires '/' in certDir && '/' !in name
    ensures RemoveAll(name + CERT_EXTENSION, certDir) == name + CERT_EXTENSION
  {
    var file := name + CERT_EXTENSION;
    assert '/' !in file by {
      assert forall i :: 0 <= i < |file| ==> file[i] == if i < |name| then name[i] else CERT_EXTENSION[i - |name|];
    }
    forall i: nat | i < |file| ensures !OccursAt(file, certDir, i) {
    }
  }

  /** In `name.crt`, ".crt" starts at no index inside `name` when `name` has no ".crt" of its own. */
  lemma ExtensionOnlyAtEnd(name: string)
    requires NoOccurrence(name, CERT_EXTENSION)
    ensures forall i: nat :: i < |name| ==> !OccursAt(name + CERT_EXTENSION, CERT_EXTENSION, i)
  {
    var file := name + CERT_EXTENSION;
    forall i: nat | i < |name| ensures !OccursAt(file, CERT_EXTENSION, i) {
      if i + 4 <= |name| {
        assert file[i..i + 4] == name[i..i + 4];
        assert !OccursAt(name, CERT_EXTENSION, i);
      } else {
        assert file[i..i + 4][|name| - i] == file[|name|] == '.';
        assert CERT_EXTENSION[1] != '.' && CERT_EXTENSION[2] != '.' && CERT_EXTENSION[3] != '.';
      }
    }
  }

  /** The certificate index: key to file, a later file overriding an earlier one with the same key. */
  function CertificateMap(files: seq<string>, certDir: string): map<string, string>
    decreases |files|
  {
    if files == [] then map[]
    else CertificateMap(files[..|files| - 1], certDir)[CertKey(files[|files| - 1], certDir) := files[|files| - 1]]
  }

  /** The index holds exactly the keys of the listed files. */
  lemma {:induction false} CertificateMapKeys(files: seq<string>, certDir: string)
    ensures forall i :: 0 <= i < |files| ==> CertKey(files[i], certDir) in CertificateMap(files, certDir)
    ensures forall k :: k in CertificateMap(files, certDir) ==>
      exists i :: 0 <= i < |files| && CertKey(files[i], certDir) == k
    decreases |files|
  {
    if files != [] {
      var init := files[..|files| - 1];
      CertificateMapKeys(init, certDir);
      assert forall i :: 0 <= i < |init| ==> init[i] == files[i];
    }
  }

  /** Under each key the index holds the last listed file with that key. */
  lemma {:induction false} CertificateMapLastWins(files: seq<string>, certDir: string, i: nat)
    requires i < |files|
    requires forall j :: i < j < |files| ==> CertKey(files[j], certDir) != CertKey(files[i], certDir)
    ensures CertKey(files[i], certDir) in CertificateMap(files, certDir)
    ensures CertificateMap(files, certDir)[CertKey(files[i], certDir)] == files[i]
    decreases |files|
  {
    var init := files[..|files| - 1];
    if i < |files| - 1 {
      assert init[i] == files[i];
      CertificateMapLastWins(init, certDir, i);
    }
  }

  /** The loop of the router building the certificate index from the glob of certificate files. */
  method BuildCertificates(files: seq<string>, certDir: string) returns (certs: map<string, string>)
    ensures certs == CertificateMap(files, certDir)
  {
    certs := map[];
    var i := 0;
    while i < |files|
      invariant 0 <= i <= |files|
      invariant certs == CertificateMap(files[..i], certDir)
    {
      assert files[..i + 1][..i] == files[..i];
      certs := certs[CertKey(files[i], certDir) := files[i]];
      i := i + 1;
    }
    assert files[..i] == files;
  }

  /** The host name of a site directory: its basename under the configured domain. */
  function SiteDomain(site: string, domain: string): string {
    Basename(site, "") + "." + domain
  }

  /** The host names of the listed site directories, in order. */
  function SiteHosts(sites: seq<string>, domain: string): (hosts: seq<string>)
    ensures |hosts| == |sites|
    decreases |sites|
  {
    if sites == [] then []
    else SiteHosts(sites[..|sites| - 1], domain) + [SiteDomain(sites[|sites| - 1], domain)]
  }

  /** The host list holds, at each position, the host name of the site at that position. */
  lemma {:induction false} SiteHostsAt(sites: seq<string>, domain: string, i: nat)
    requires i < |sites|
    ensures SiteHosts(sites, domain)[i] == SiteDomain(sites[i], domain)
    decreases |sites|
  {
    var init := sites[..|sites| - 1];
    if i < |init| {
      SiteHostsAt(init, domain, i);
      assert init[i] == sites[i];
    }
  }

  /** The URL listed for a host: https when a certificate is indexed under it, http otherwise. */
  function SiteUrl(host: string, certs: map<string, string>): string {
    if host in certs then "https://" + host else "http://" + host
  }

  /** A listed URL is an https URL exactly when its host has a certificate. */
  lemma SiteUrlScheme(host: string, certs: map<string, string>)
    ensures StartsWith(SiteUrl(host, certs), "https://") <==> host in certs
  {
    if host in certs {
      assert ("https://" + host)[..8] == "https://";
    } else {
      assert ("http://" + host)[4] == ':';
    }
  }

  /** The site URL map: the URL of each host to whether the host has a certificate. */
  function SiteUrlMap(hosts: seq<string>, certs: map<string, string>): map<string, bool>
    decreases |hosts|
  {
    if hosts == [] then map[]
    else
      var last := hosts[|hosts| - 1];
      SiteUrlMap(hosts[..|hosts| - 1], certs)[SiteUrl(last, certs) := last in certs]
  }

  /** Each value of the site URL map is the same boolean as "its URL is an https URL". */
  lemma {:induction false} SiteUrlMapValues(hosts: seq<string>, certs: map<string, string>)
    ensures forall k :: k in SiteUrlMap(hosts, certs) ==> SiteUrlMap(hosts, certs)[k] == StartsWith(k, "https://")
    decreases |hosts|
  {
    if hosts != [] {
      SiteUrlMapValues(hosts[..|hosts| - 1], certs);
      SiteUrlScheme(hosts[|hosts| - 1], certs);
    }
  }

  /** The keys of the site URL map are exactly the URLs of the listed hosts. */
  lemma {:induction false} SiteUrlMapKeys(hosts: seq<string>, certs: map<string, string>)
    ensures forall i :: 0 <= i < |hosts| ==> SiteUrl(hosts[i], certs) in SiteUrlMap(hosts, certs)
    ensures forall k :: k in SiteUrlMap(hosts, certs) ==> exists i :: 0 <= i < |hosts| && k == SiteUrl(hosts[i], certs)
    decreases |hosts|
  {
    if hosts != [] {
      var init := hosts[..|hosts| - 1];
      SiteUrlMapKeys(init, certs);
      assert forall i :: 0 <= i < |init| ==> init[i] == hosts[i];
    }
  }

  /** Every site found is listed under its URL, with whether a certificate exists for its host name. */
  lemma SiteListed(sites: seq<string>, domain: string, certs: map<string, string>, i: nat)
    requires i < |sites|
    ensures SiteUrl(SiteDomain(sites[i], domain), certs) in SiteUrlMap(SiteHosts(sites, domain), certs)
    ensures SiteUrlMap(SiteHosts(sites, domain), certs)[SiteUrl(SiteDomain(sites[i], domain), certs)]
      == (SiteDomain(sites[i], domain) in certs)
  {
    var hosts := SiteHosts(sites, domain);
    SiteUrlMapKeys(hosts, certs);
    SiteUrlMapValues(hosts, certs);
    SiteHostsAt(sites, domain, i);
    SiteUrlScheme(hosts[i], certs);
  }

  /** Every sub-directory of every configured path, in scan order. */
  function AllSubdirs(fs: FileSystem, paths: seq<string>): (sites: seq<string>)
    ensures |sites| == SubdirTotal(fs, paths)
    decreases |paths|
  {
    if paths == [] then [] else AllSubdirs(fs, paths[..|paths| - 1]) + Subdirs(fs, paths[|paths| - 1])
  }

  /** The j-th sub-directory of the i-th path sits after those of the paths before it. */
  lemma {:induction false} AllSubdirsAt(fs: FileSystem, paths: seq<string>, i: nat, j: nat)
    requires i < |paths| && j < |Subdirs(fs, paths[i])|
    ensures SubdirTotal(fs, paths[..i]) + j < |AllSubdirs(fs, paths)|
    ensures AllSubdirs(fs, paths)[SubdirTotal(fs, paths[..i]) + j] == Subdirs(fs, paths[i])[j]
    decreases |paths|
  {
    var init := paths[..|paths| - 1];
    if i == |paths| - 1 {
      assert paths[..i] == init;
    } else {
      assert init[..i] == paths[..i];
      AllSubdirsAt(fs, init, i, j);
    }
  }

  /** One more site extends the host list and writes one more URL. */
  lemma SiteUrlMapSnoc(sites: seq<string>, site: string, domain: string, certs: map<string, string>)
    ensures SiteHosts(sites + [site], domain) == SiteHosts(sites, domain) + [SiteDomain(site, domain)]
    ensures SiteUrlMap(SiteHosts(sites + [site], domain), certs) ==
      SiteUrlMap(SiteHosts(sites, domain), certs)[SiteUrl(SiteDomain(site, domain), certs) := SiteDomain(site, domain) in certs]
  {
    assert (sites + [site])[..|sites|] == sites;
    var hosts := SiteHosts(sites, domain);
    assert (hosts + [SiteDomain(site, domain)])[..|hosts|] == hosts;
  }

  /** Taking one more element of `b` after `a` appends that element. */
  lemma AppendOneMore<T>(a: seq<T>, b: seq<T>, j: nat)
    requires j < |b|
    ensures a + b[..j + 1] == (a + b[..j]) + [b[j]]
  {
    assert b[..j + 1] == b[..j] + [b[j]];
  }

  /** The inner loop of the router: the URLs of one path's sub-directories, added in order. */
  method AddSiteUrls(urls0: map<string, bool>, done: seq<string>, sites: seq<string>, domain: string, certs: map<string, string>)
    returns (urls: map<string, bool>)
    requires urls0 == SiteUrlMap(SiteHosts(done, domain), certs)
    ensures urls == SiteUrlMap(SiteHosts(done + sites, domain), certs)
  {
    urls := urls0;
    assert done + sites[..0] == done;
    var j := 0;
    while j < |sites|
      invariant 0 <= j <= |sites|
      invariant urls == SiteUrlMap(SiteHosts(done + sites[..j], domain), certs)
    {
      AppendOneMore(done, sites, j);
      SiteUrlMapSnoc(done + sites[..j], sites[j], domain, certs);
      var site := sites[j];
      var host := SiteDomain(site, domain);
      var enabled := host in certs;
      var fullDomain := if enabled then "https://" + host else "http://" + host;
      urls := urls[fullDomain := enabled];
      j := j + 1;
    }
    assert sites[..j] == sites;
  }

  /** The nested loop of the router over the configured paths and their sub-directories. */
  method BuildSiteUrls(fs: FileSystem, paths: seq<string>, domain: string, certs: map<string, string>)
    returns (urls: map<string, bool>)
    ensures urls == SiteUrlMap(SiteHosts(AllSubdirs(fs, paths), domain), certs)
  {
    urls := map[];
    var i := 0;
    while i < |paths|
      invariant 0 <= i <= |paths|
      invariant urls == SiteUrlMap(SiteHosts(AllSubdirs(fs, paths[..i]), domain), certs)
    {
      urls := AddSiteUrls(urls, AllSubdirs(fs, paths[..i]), Subdirs(fs, paths[i]), domain, certs);
      assert paths[..i + 1][..i] == paths[..i];
      i := i + 1;
    }
    assert paths[..i] == paths;
  }

  /** The variables handed to the 404 template. */
  datatype Diagnostics = Diagnostics(
    requestedSite: string,
    valetConfig: ConfigDoc,
    customConfig: ConfigDoc,
    siteCount: nat,
    paths: map<string, bool>,
    valetPaths: nat,
    mailhogDomain: string)
}
