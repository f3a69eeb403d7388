/**
 * The learning-path list: a search query, a set of subjects and a difficulty narrow
 * the paths shown, and each shown path carries a progress figure read from its
 * first progress record.
 */
module LearningPaths {
  import opened Wrappers
  import opened Text
  import Http

  /** A path as the list receives it; `progress` holds the `completed` flag of each progress record. */
  datatype Path = Path(id: string, title: string, description: string, difficulty: string, subjects: seq<string>, progress: seq<bool>)

  /** The filter state: the search box, the selected subjects, the selected difficulty (`null` as None). */
  datatype Filters = Filters(query: string, subjects: seq<string>, difficulty: Option<string>)

  /** The search test: the lower-cased query occurs in the lower-cased title or description. */
  predicate MatchesSearch(p: Path, query: string) {
    Contains(Lower(p.title), Lower(query)) || Contains(Lower(p.description), Lower(query))
  }

  /** The subject test: nothing selected, or one of the path's subjects is selected. */
  predicate MatchesSubjects(p: Path, selected: seq<string>) {
    |selected| == 0 || exists k :: 0 <= k < |p.subjects| && p.subjects[k] in selected
  }

  /** The difficulty test: no (truthy) difficulty selected, or the path's difficulty is the selected one. */
  predicate MatchesDifficulty(p: Path, selected: Option<string>) {
    !Http.Truthy(selected) || p.difficulty == selected.value
  }

  predicate Keep(p: Path, f: Filters) {
    MatchesSearch(p, f.query) && MatchesSubjects(p, f.subjects) && MatchesDifficulty(p, f.difficulty)
  }

  /** `filteredPaths`: never longer than the list, and every shown path passes all three tests. */
  function Filtered(paths: seq<Path>, f: Filters): (r: seq<Path>)
    ensures |r| <= |paths|
    ensures forall k :: 0 <= k < |r| ==> Keep(r[k], f)
  {
    if paths == [] then [] else (if Keep(paths[0], f) then [paths[0]] else []) + Filtered(paths[1..], f)
  }

  /** A path is shown exactly when it is one of the paths and passes all three tests. */
  lemma {:induction false} FilteredMembers(paths: seq<Path>, f: Filters, p: Path)
    ensures p in Filtered(paths, f) <==> p in paths && Keep(p, f)
  {
    if paths != [] {
      FilteredMembers(paths[1..], f, p);
      assert paths == [paths[0]] + paths[1..];
    }
  }

  /** `a` is `b` with some elements left out, the rest in their order. */
  predicate Subsequence<T(==)>(a: seq<T>, b: seq<T>)
    decreases |b|
  {
    if a == [] then true
    else if b == [] then false
    else (a[0] == b[0] && Subsequence(a[1..], b[1..])) || Subsequence(a, b[1..])
  }

  /** The shown paths keep the order of the list they come from. */
  lemma {:induction false} FilteredIsSubsequence(paths: seq<Path>, f: Filters)
    ensures Subsequence(Filtered(paths, f), paths)
  {
    if paths != [] {
      FilteredIsSubsequence(paths[1..], f);
      var rest := Filtered(paths[1..], f);
      if Keep(paths[0], f) {
        assert Filtered(paths, f) == [paths[0]] + rest;
        assert ([paths[0]] + rest)[1..] == rest;
      } else {
        assert Filtered(paths, f) == rest;
        if rest != [] {
          assert Subsequence(rest, paths[1..]);
        }
      }
    }
  }

  lemma LowerCharIdempotent(c: char)
    ensures LowerChar(LowerChar(c)) == LowerChar(c)
  {
  }

  lemma LowerIdempotent(s: string)
    ensures Lower(Lower(s)) == Lower(s)
  {
    forall i | 0 <= i < |s| ensures Lower(Lower(s))[i] == Lower(s)[i] {
      LowerCharIdempotent(s[i]);
    }
  }

  /** The search ignores case: the query and its lower-cased form find the same paths, and an empty query finds every path. */
  lemma SearchIgnoresCase(p: Path, query: string)
    ensures MatchesSearch(p, query) <==> MatchesSearch(p, Lower(query))
    ensures MatchesSearch(p, "")
  {
    LowerIdempotent(query);
    assert Lower("") == "";
    EmptyIsContained(Lower(p.title));
  }

  /** With an empty query, no subject and no difficulty every path is shown. */
  lemma {:induction false} NoFiltersKeepAll(paths: seq<Path>)
    ensures Filtered(paths, Filters("", [], None)) == paths
  {
    if paths != [] {
      SearchIgnoresCase(paths[0], "");
      NoFiltersKeepAll(paths[1..]);
      assert paths == [paths[0]] + paths[1..];
    }
  }

  /** `prev.filter(s => s !== subject)`. */
  function Without(s: seq<string>, x: string): (r: seq<string>)
    ensures forall y :: y in r <==> y in s && y != x
    ensures x !in s ==> r == s
  {
    if s == [] then []
    else
      var rest := Without(s[1..], x);
      assert s == [s[0]] + s[1..];
      if s[0] == x then rest else [s[0]] + rest
  }

  /**
   * `handleSubjectChange`: a selected subject is removed, another one is appended.
   * The toggled subject flips its membership and no other subject changes.
   */
  function ToggleSubject(selected: seq<string>, subject: string): (r: seq<string>)
    ensures subject in r <==> subject !in selected
    ensures forall other :: other != subject ==> (other in r <==> other in selected)
  {
    if subject in selected then Without(selected, subject) else selected + [subject]
  }

  /** Toggling twice restores the membership of every subject. */
  lemma ToggleFlips(selected: seq<string>, subject: string, other: string)
    ensures other in ToggleSubject(ToggleSubject(selected, subject), subject) <==> other in selected
  {
  }

  /** Selecting an unselected subject and deselecting it again restores the very list. */
  lemma ToggleBack(selected: seq<string>, subject: string)
    requires subject !in selected
    ensures ToggleSubject(ToggleSubject(selected, subject), subject) == selected
  {
    assert forall y :: y in selected ==> y != subject;
    WithoutAppended(selected, subject);
  }

  lemma {:induction false} WithoutAppended(s: seq<string>, x: string)
    requires x !in s
    ensures Without(s + [x], x) == s
  {
    if s != [] {
      WithoutAppended(s[1..], x);
      assert (s + [x])[1..] == s[1..] + [x];
      assert s == [s[0]] + s[1..];
    } else {
      assert Without([x], x) == Without([x][1..], x);
    }
  }

  /** A click on a difficulty button: the selected one is cleared, another one is selected. */
  function ClickDifficulty(selected: Option<string>, difficulty: string): (r: Option<string>)
    ensures r == Some(difficulty) <==> selected != Some(difficulty)
    ensures r == None <==> selected == Some(difficulty)
  {
    if selected == Some(difficulty) then None else Some(difficulty)
  }

  /** From nothing or from itself, two clicks on a difficulty restore the selection. */
  lemma ClickDifficultyToggles(selected: Option<string>, difficulty: string)
    ensures selected == None || selected == Some(difficulty) ==>
              ClickDifficulty(ClickDifficulty(selected, difficulty), difficulty) == selected
  {
  }

  /** `path.progress[0]?.completed`. */
  predicate FirstCompleted(progress: seq<bool>) {
    |progress| > 0 && progress[0]
  }

  /** The progress a shown path carries: 100 when its first record is completed, 50 for any other record, else 0. */
  function DisplayedProgress(progress: seq<bool>): (d: nat)
    ensures d in {0, 50, 100}
    ensures d == 100 <==> FirstCompleted(progress)
    ensures d == 0 <==> progress == []
  {
    if FirstCompleted(progress) then 100 else if |progress| > 0 then 50 else 0
  }
}
