/**
 * The PHP string and path built-ins the request router relies on,
 * written out with their PHP 8 semantics on '/'-separated paths:
 * explode(...)[0], array_slice(explode(...), -1)[0], basename, dirname,
 * pathinfo(..., PATHINFO_EXTENSION), str_replace with an empty replacement,
 * and PHP's truthiness of strings.
 */
module PhpStrings {

  import opened Wrappers

  /** A PHP string is falsy exactly when it is "" or "0". */
  predicate Truthy(s: string) {
    s != "" && s != "0"
  }

  /** `s` begins with `prefix` (strpos($s, $prefix) === 0). */
  predicate StartsWith(s: string, prefix: string) {
    |prefix| <= |s| && s[..|prefix|] == prefix
  }

  /** `s` ends with `suffix`. */
  predicate EndsWith(s: string, suffix: string) {
    |suffix| <= |s| && s[|s| - |suffix|..] == suffix
  }

  /** explode($sep, $s)[0]: the part of `s` before the first `sep`, all of `s` when there is none. */
  function BeforeFirst(s: string, sep: char): (r: string)
    ensures |r| <= |s|
  {
    if s == [] || s[0] == sep then [] else [s[0]] + BeforeFirst(s[1..], sep)
  }

  /** array_slice(explode($sep, $s), -1)[0]: the part of `s` after its last `sep`, all of `s` when there is none. */
  function AfterLast(s: string, sep: char): (r: string)
    ensures |r| <= |s|
  {
    if s == [] || s[|s| - 1] == sep then []
    else
      var init := s[..|s| - 1];
      var r := AfterLast(init, sep) + [s[|s| - 1]];
      assert init[|init| - (|r| - 1)..] + [s[|s| - 1]] == s[|s| - |r|..];
      r
  }

  /** `s` with every trailing `c` removed. */
  function TrimTrailing(s: string, c: char): (r: string)
    ensures |r| <= |s|
  {
    if s != [] && s[|s| - 1] == c then TrimTrailing(s[..|s| - 1], c) else s
  }

  /**
   * basename($path, $suffix): the last '/'-separated component of `path`
   * (trailing slashes ignored), with `suffix` cut off when the component ends
   * with it and is strictly longer than it. With "" as suffix nothing is cut.
   */
  function Basename(path: string, suffix: string): (r: string)
  {
    CutSuffix(AfterLast(TrimTrailing(path, '/'), '/'), suffix)
  }

  /** `name` without `suffix` when it ends with it and is strictly longer than it. */
  function CutSuffix(name: string, suffix: string): string {
    if |suffix| < |name| && name[|name| - |suffix|..] == suffix then name[..|name| - |suffix|] else name
  }

  /**
   * dirname($path): `path` without its last component and the slashes before it;
   * "." when there is no slash, "/" when only the root remains, "" for "".
   */
  function Dirname(path: string): (r: string)
    ensures path != [] ==> r != []
  {
    if path == [] then []
    else
      var trimmed := TrimTrailing(path, '/');
      if trimmed == [] then "/"
      else
        var parent := trimmed[..|trimmed| - |AfterLast(trimmed, '/')|];
        if parent == [] then "."
        else
          var dir := TrimTrailing(parent, '/');
          if dir == [] then "/" else dir
  }

  /**
   * pathinfo($path, PATHINFO_EXTENSION): the text after the last '.' of the
   * basename, or None when the basename has no '.'.
   */
  function Extension(path: string): (r: Option<string>)
  {
    var name := Basename(path, "");
    if '.' in name then Some(AfterLast(name, '.')) else None
  }

  /** `pat` occurs in `s` at index `i`. */
  predicate OccursAt(s: string, pat: string, i: nat) {
    i + |pat| <= |s| && s[i..i + |pat|] == pat
  }

  /** `pat` occurs nowhere in `s`. */
  predicate NoOccurrence(s: string, pat: string) {
    forall i: nat :: i < |s| ==> !OccursAt(s, pat, i)
  }

  /**
   * str_replace($pat, '', $s): every occurrence of `pat`, found left to right
   * without overlap, removed. An empty `pat` leaves `s` unchanged.
   */
  function RemoveAll(s: string, pat: string): (r: string)
    ensures |r| <= |s|
    ensures NoOccurrence(s, pat) && pat != [] ==> r == s
    decreases |s|
  {
    if pat == [] || s == [] then s
    else if StartsWith(s, pat) then
      assert OccursAt(s, pat, 0);
      RemoveAll(s[|pat|..], pat)
    else
      assert forall i: nat :: OccursAt(s[1..], pat, i) ==> OccursAt(s, pat, i + 1) by {
        forall i: nat | OccursAt(s[1..], pat, i) ensures OccursAt(s, pat, i + 1) {
          assert s[1..][i..i + |pat|] == s[i + 1..i + 1 + |pat|];
        }
      }
      [s[0]] + RemoveAll(s[1..], pat)
  }

}
