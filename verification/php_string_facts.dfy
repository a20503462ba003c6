/**
 * Facts about the PHP string and path built-ins: how each one takes apart a
 * string built by joining pieces with its separator.
 */
module PhpStringFacts {

  import opened Wrappers
  import opened PhpStrings

  /** explode($sep, $s)[0] is the longest prefix of `s` without `sep`: it stops at the first `sep` or at the end. */
  lemma {:induction false} BeforeFirstParts(s: string, sep: char)
    ensures BeforeFirst(s, sep) == s[..|BeforeFirst(s, sep)|]
    ensures sep !in BeforeFirst(s, sep)
    ensures |BeforeFirst(s, sep)| < |s| ==> s[|BeforeFirst(s, sep)|] == sep
    ensures sep !in s ==> BeforeFirst(s, sep) == s
  {
    if s != [] && s[0] != sep {
      var t := BeforeFirst(s[1..], sep);
      BeforeFirstParts(s[1..], sep);
      assert BeforeFirst(s, sep) == [s[0]] + t;
      assert s[..|t| + 1] == [s[0]] + s[1..][..|t|];
      assert sep !in s ==> sep !in s[1..] by {
        assert forall i :: 0 <= i < |s[1..]| ==> s[1..][i] == s[i + 1];
      }
    }
  }

  /** array_slice(explode($sep, $s), -1)[0] is the longest suffix of `s` without `sep`. */
  lemma {:induction false} AfterLastParts(s: string, sep: char)
    ensures AfterLast(s, sep) == s[|s| - |AfterLast(s, sep)|..]
    ensures sep !in AfterLast(s, sep)
    ensures |AfterLast(s, sep)| < |s| ==> s[|s| - |AfterLast(s, sep)| - 1] == sep
    ensures sep !in s ==> AfterLast(s, sep) == s
  {
    if s != [] && s[|s| - 1] != sep {
      var init := s[..|s| - 1];
      var t := AfterLast(init, sep);
      AfterLastParts(init, sep);
      assert AfterLast(s, sep) == t + [s[|s| - 1]];
      assert s[|s| - |t| - 1..] == init[|init| - |t|..] + [s[|s| - 1]];
      assert sep !in s ==> sep !in init by {
        assert forall i :: 0 <= i < |init| ==> init[i] == s[i];
      }
    }
  }

  /** rtrim($s, $c) is a prefix of `s` not ending in `c`, and only copies of `c` were cut. */
  lemma {:induction false} TrimTrailingParts(s: string, c: char)
    ensures TrimTrailing(s, c) == s[..|TrimTrailing(s, c)|]
    ensures TrimTrailing(s, c) == [] || TrimTrailing(s, c)[|TrimTrailing(s, c)| - 1] != c
    ensures forall i :: |TrimTrailing(s, c)| <= i < |s| ==> s[i] == c
  {
    if s != [] && s[|s| - 1] == c {
      var init := s[..|s| - 1];
      TrimTrailingParts(init, c);
      assert TrimTrailing(s, c) == TrimTrailing(init, c);
      assert init[..|TrimTrailing(init, c)|] == s[..|TrimTrailing(init, c)|];
    }
  }

  /** The prefix before the first `sep` is the text up to that separator. */
  lemma {:induction false} BeforeFirstOfJoin(a: string, sep: char, b: string)
    requires sep !in a
    ensures BeforeFirst(a + [sep] + b, sep) == a
  {
    var s := a + [sep] + b;
    if a != [] {
      assert s[0] == a[0];
      assert s[1..] == a[1..] + [sep] + b;
      BeforeFirstOfJoin(a[1..], sep, b);
      assert [a[0]] + a[1..] == a;
    }
  }

  /** The label after the last separator is the text following that separator. */
  lemma {:induction false} AfterLastOfJoin(a: string, sep: char, b: string)
    requires sep !in b
    ensures AfterLast(a + [sep] + b, sep) == b
  {
    var s := a + [sep] + b;
    if b != [] {
      var init := b[..|b| - 1];
      assert s[|s| - 1] == b[|b| - 1];
      assert b[|b| - 1] in b;
      assert s[..|s| - 1] == a + [sep] + init;
      AfterLastOfJoin(a, sep, init);
      assert init + [b[|b| - 1]] == b;
    }
  }

  /** On a name without '/', basename only cuts the suffix, when it is a proper one. */
  lemma BasenameOfName(name: string, suffix: string)
    requires '/' !in name
    ensures Basename(name, suffix) ==
      if |suffix| < |name| && name[|name| - |suffix|..] == suffix then name[..|name| - |suffix|] else name
  {
    NothingToTrim(name);
    AfterLastParts(name, '/');
    BasenameOfComponent(name, suffix);
  }

  /** basename of a path that is its own last component cuts the suffix from it. */
  lemma BasenameOfComponent(name: string, suffix: string)
    requires TrimTrailing(name, '/') == name && AfterLast(name, '/') == name
    ensures Basename(name, suffix) == CutSuffix(name, suffix)
  {
  }

  /** A name without '/' has no trailing slash to trim. */
  lemma NothingToTrim(name: string)
    requires '/' !in name
    ensures TrimTrailing(name, '/') == name
  {
    if name != [] {
      assert name[|name| - 1] in name;
      TrimTrailingNothing(name, '/');
    }
  }

  /** Nothing to trim when `s` does not end with `c`. */
  lemma TrimTrailingNothing(s: string, c: char)
    requires s != [] && s[|s| - 1] != c
    ensures TrimTrailing(s, c) == s
  {
  }

  /** A file path built as `dir/name` has `dir` as its dirname. */
  lemma DirnameOfJoin(dir: string, name: string)
    requires dir != [] && dir[|dir| - 1] != '/'
    requires name != [] && '/' !in name
    ensures Dirname(dir + "/" + name) == dir
  {
    var path := dir + "/" + name;
    assert path == dir + ['/'] + name;
    assert path[|path| - 1] == name[|name| - 1] && name[|name| - 1] in name;
    TrimTrailingNothing(path, '/');
    AfterLastOfJoin(dir, '/', name);
    var parent := path[..|path| - |name|];
    assert parent == dir + "/";
    assert parent[..|parent| - 1] == dir;
    TrimTrailingNothing(dir, '/');
    assert TrimTrailing(parent, '/') == dir;
  }

  /** A file path built as `dir/name` has `name` as its basename. */
  lemma BasenameOfJoin(dir: string, name: string)
    requires name != [] && '/' !in name
    ensures Basename(dir + "/" + name, "") == name
  {
    var path := dir + "/" + name;
    assert path == dir + ['/'] + name;
    assert path[|path| - 1] == name[|name| - 1] && name[|name| - 1] in name;
    TrimTrailingNothing(path, '/');
    AfterLastOfJoin(dir, '/', name);
  }

  /** Every path ending in ".php" has extension "php". */
  lemma PhpSuffixHasPhpExtension(path: string)
    ensures Extension(path + ".php") == Some("php")
  {
    var s := path + ".php";
    assert s[|s| - 1] == 'p';
    assert TrimTrailing(s, '/') == s;
    var name := AfterLast(s, '/');
    AfterLastParts(s, '/');
    assert name == Basename(s, "");
    assert '/' !in ".php";
    assert |name| >= 4;
    assert name[|name| - 4..] == ".php";
    assert name == name[..|name| - 4] + ['.'] + "php";
    assert name[|name| - 4] in name;
    AfterLastOfJoin(name[..|name| - 4], '.', "php");
  }

  /** Removing every `pat` from `s + pat` gives `s` when `pat` starts nowhere inside `s`. */
  lemma {:induction false} RemoveTrailing(s: string, pat: string)
    requires pat != []
    requires forall i: nat :: i < |s| ==> !OccursAt(s + pat, pat, i)
    ensures RemoveAll(s + pat, pat) == s
  {
    var t := s + pat;
    if s == [] {
      assert t == pat;
      assert t[|pat|..] == [];
    } else {
      assert !OccursAt(t, pat, 0);
      assert !StartsWith(t, pat);
      assert t[1..] == s[1..] + pat;
      forall i: nat | i < |s[1..]| ensures !OccursAt(s[1..] + pat, pat, i) {
        assert !OccursAt(t, pat, i + 1);
        assert t[i + 1..i + 1 + |pat|] == (s[1..] + pat)[i..i + |pat|];
      }
      RemoveTrailing(s[1..], pat);
    }
  }

  /** A leading `pat` is removed like any other occurrence. */
  lemma RemoveLeading(pat: string, s: string)
    requires pat != []
    ensures RemoveAll(pat + s, pat) == RemoveAll(s, pat)
  {
    assert (pat + s)[..|pat|] == pat;
    assert (pat + s)[|pat|..] == s;
  }
}
