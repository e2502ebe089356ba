/**
 * The JavaScript string operations the navigation script relies on, with
 * their built-in semantics: `endsWith`, `indexOf`, `includes`, and
 * `replace` with a string pattern and a replacement without `$`, which
 * replaces the first occurrence only.
 */
module JsString {
  import opened Wrappers

  /** `pat` occurs in `s` starting at index `i`. */
  predicate OccursAt(s: string, pat: string, i: nat) {
    i + |pat| <= |s| && s[i..i + |pat|] == pat
  }

  /** `s.endsWith(suffix)`. */
  predicate EndsWith(s: string, suffix: string) {
    |suffix| <= |s| && s[|s| - |suffix|..] == suffix
  }

  /** The first occurrence of `pat` in `s` at or after `from`. */
  function IndexOfFrom(s: string, pat: string, from: nat): (r: Option<nat>)
    decreases |s| - from
    ensures r.Some? ==> from <= r.value && OccursAt(s, pat, r.value)
    ensures r.Some? ==> forall j :: from <= j < r.value ==> !OccursAt(s, pat, j)
    ensures r.None? ==> forall j :: from <= j ==> !OccursAt(s, pat, j)
  {
    if from + |pat| > |s| then None
    else if OccursAt(s, pat, from) then Some(from)
    else IndexOfFrom(s, pat, from + 1)
  }

  /** `s.indexOf(pat)`, with `None` for JavaScript's `-1`. */
  function IndexOf(s: string, pat: string): Option<nat> {
    IndexOfFrom(s, pat, 0)
  }

  /** `s.includes(pat)`. */
  predicate Includes(s: string, pat: string) {
    IndexOf(s, pat).Some?
  }

  /**
   * `s.replace(pat, rep)` for a string `pat` and a replacement `rep` without
   * `$`: only the first occurrence is replaced, by `rep` taken literally.
   */
  function ReplaceFirst(s: string, pat: string, rep: string): string {
    match IndexOf(s, pat)
    case None => s
    case Some(i) => s[..i] + rep + s[i + |pat|..]
  }

  /** `includes` holds exactly when the pattern occurs somewhere. */
  lemma IncludesIff(s: string, pat: string)
    ensures Includes(s, pat) <==> exists i :: OccursAt(s, pat, i)
  {
    if Includes(s, pat) {
      assert OccursAt(s, pat, IndexOf(s, pat).value);
    }
  }

  /**
   * `replace` with a pattern that occurs: the result is the input with
   * exactly its first occurrence cut out and `rep` put in its place, so
   * putting the pattern back gives the input again, and everything after
   * that occurrence (later occurrences included) is left as it was.
   */
  lemma ReplaceFirstCutsFirstOccurrence(s: string, pat: string, rep: string)
    requires Includes(s, pat)
    ensures var i := IndexOf(s, pat).value;
      && (forall j :: 0 <= j < i ==> !OccursAt(s, pat, j))
      && ReplaceFirst(s, pat, rep) == s[..i] + rep + s[i + |pat|..]
      && ReplaceFirst(s, pat, rep)[..i] + pat + ReplaceFirst(s, pat, rep)[i + |rep|..] == s
  {
    var i := IndexOf(s, pat).value;
    var r := ReplaceFirst(s, pat, rep);
    assert r[..i] == s[..i];
    assert r[i + |rep|..] == s[i + |pat|..];
    assert s == s[..i] + s[i..i + |pat|] + s[i + |pat|..];
  }

  /** `replace` with a pattern that does not occur leaves the string alone. */
  lemma ReplaceFirstWithoutMatch(s: string, pat: string, rep: string)
    requires forall i :: !OccursAt(s, pat, i)
    ensures ReplaceFirst(s, pat, rep) == s
  {
  }

  /** Only the first of two occurrences is replaced. */
  lemma ReplaceFirstExample()
    ensures ReplaceFirst("a.html.html", ".html", "") == "a.html"
  {
    var s := "a.html.html";
    assert OccursAt(s, ".html", 1);
    assert s[0..5][0] == 'a';
    assert !OccursAt(s, ".html", 0);
    assert IndexOf(s, ".html") == Some(1);
    assert s[..1] + "" + s[6..] == "a.html";
  }
}
