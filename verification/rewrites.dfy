/**
 * Rewrite (alias) resolution. The router walks the whole rewrite table once,
 * in document order; inside one entry it stops at the first alias equal to the
 * current site name and replaces the name by that entry's site. The outer walk
 * does not stop, so a later entry sees, and may rewrite again, a name an
 * earlier entry produced.
 */
module Rewrites {

  import opened Config

  /** What one table entry does to the current site name. */
  function RewriteStep(entry: RewriteEntry, siteName: string): (r: string)
    ensures r == siteName || r == entry.site
  {
    if siteName in entry.aliases then entry.site else siteName
  }

  /** The site name after the walk over the whole table. */
  function RewriteAll(table: seq<RewriteEntry>, siteName: string): (r: string)
    ensures r == siteName || exists i :: 0 <= i < |table| && r == table[i].site
    decreases |table|
  {
    if table == [] then siteName
    else
      var r := RewriteAll(table[1..], RewriteStep(table[0], siteName));
      assert r != siteName ==> r == table[0].site || exists i :: 1 <= i < |table| && r == table[i].site by {
        if r != siteName && r != table[0].site && r != RewriteStep(table[0], siteName) {
          var i :| 0 <= i < |table[1..]| && r == table[1..][i].site;
          assert r == table[i + 1].site;
        }
      }
      r
  }

  /** The loop of the router: for each entry, look for an alias equal to the name, rewrite and stop that entry. */
  method ResolveRewrite(table: seq<RewriteEntry>, siteName: string) returns (name: string)
    ensures name == RewriteAll(table, siteName)
  {
    name := siteName;
    var i := 0;
    while i < |table|
      invariant 0 <= i <= |table|
      invariant RewriteAll(table, siteName) == RewriteAll(table[i..], name)
    {
      var entry := table[i];
      ghost var before := name;
      var j := 0;
      while j < |entry.aliases|
        invariant 0 <= j <= |entry.aliases|
        invariant name == before
        invariant before !in entry.aliases[..j]
      {
        if entry.aliases[j] == name {
          name := entry.site;
          break;
        }
        j := j + 1;
      }
      assert name == RewriteStep(entry, before) by {
        if j == |entry.aliases| {
          assert entry.aliases[..j] == entry.aliases;
        }
      }
      assert table[i..][1..] == table[i + 1..];
      i := i + 1;
    }
  }

  /** Walking `front + back` is walking `front`, then `back` from where `front` left the name. */
  lemma {:induction false} RewriteAllAppend(front: seq<RewriteEntry>, back: seq<RewriteEntry>, siteName: string)
    ensures RewriteAll(front + back, siteName) == RewriteAll(back, RewriteAll(front, siteName))
    decreases |front|
  {
    if front == [] {
      assert front + back == back;
    } else {
      assert (front + back)[1..] == front[1..] + back;
      RewriteAllAppend(front[1..], back, RewriteStep(front[0], siteName));
    }
  }

  /** A name that is no entry's alias is left as it is. */
  lemma {:induction false} UnaliasedNameUnchanged(table: seq<RewriteEntry>, siteName: string)
    requires forall i :: 0 <= i < |table| ==> siteName !in table[i].aliases
    ensures RewriteAll(table, siteName) == siteName
    decreases |table|
  {
    if table != [] {
      UnaliasedNameUnchanged(table[1..], siteName);
    }
  }

  /**
   * The first entry listing an alias rewrites it to that entry's site, and
   * the walk goes on: the entries after it see the new name.
   */
  lemma AliasMatchContinues(table: seq<RewriteEntry>, k: nat, alias: string)
    requires k < |table| && alias in table[k].aliases
    requires forall i :: 0 <= i < k ==> alias !in table[i].aliases
    ensures RewriteAll(table, alias) == RewriteAll(table[k + 1..], table[k].site)
  {
    assert table == table[..k] + table[k..];
    UnaliasedNameUnchanged(table[..k], alias);
    RewriteAllAppend(table[..k], table[k..], alias);
    assert table[k..][1..] == table[k + 1..];
  }

  /**
   * An alias resolves to the site of the first entry listing it, provided no
   * later entry lists that site as an alias in turn.
   */
  lemma AliasResolvesToSite(table: seq<RewriteEntry>, k: nat, alias: string)
    requires k < |table| && alias in table[k].aliases
    requires forall i :: 0 <= i < k ==> alias !in table[i].aliases
    requires forall i :: k < i < |table| ==> table[k].site !in table[i].aliases
    ensures RewriteAll(table, alias) == table[k].site
  {
    AliasMatchContinues(table, k, alias);
    UnaliasedNameUnchanged(table[k + 1..], table[k].site);
  }

  /**
   * Under the same conditions, and when the site itself is nobody's alias, a
   * request for the alias and a request for the site name the same site.
   */
  lemma AliasAndSiteAgree(table: seq<RewriteEntry>, k: nat, alias: string)
    requires k < |table| && alias in table[k].aliases
    requires forall i :: 0 <= i < k ==> alias !in table[i].aliases
    requires forall i :: 0 <= i < |table| ==> table[k].site !in table[i].aliases
    ensures RewriteAll(table, alias) == RewriteAll(table, table[k].site) == table[k].site
  {
    AliasResolvesToSite(table, k, alias);
    UnaliasedNameUnchanged(table, table[k].site);
  }

  /**
   * The order of the table matters: with "b" listed as an alias of "c" before
   * "a" is listed as an alias of "b", "a" stops at "b" while "b" goes to "c".
   */
  lemma RewriteOrderMatters()
    ensures RewriteAll([RewriteEntry("c", ["b"]), RewriteEntry("b", ["a"])], "a") == "b"
    ensures RewriteAll([RewriteEntry("c", ["b"]), RewriteEntry("b", ["a"])], "b") == "c"
  {
    var table := [RewriteEntry("c", ["b"]), RewriteEntry("b", ["a"])];
    assert RewriteStep(table[0], "a") == "a";
    assert table[1..][0] == RewriteEntry("b", ["a"]);
    assert RewriteStep(table[1], "c") == "c";
  }

  /** Rewrites chain: an alias of "b" that "b" in turn is an alias for ends at the later entry's site. */
  lemma RewritesChain()
    ensures RewriteAll([RewriteEntry("b", ["a"]), RewriteEntry("c", ["b"])], "a") == "c"
  {
    var table := [RewriteEntry("b", ["a"]), RewriteEntry("c", ["b"])];
    assert RewriteStep(table[0], "a") == "b";
    assert table[1..][0] == RewriteEntry("c", ["b"]);
  }
}
