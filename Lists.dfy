/**
 * List operations the exercises share: the two `splice` calls of a drag-and-drop move
 * and the Fisher–Yates shuffle, with `Math.random` replaced by the chosen indices.
 */
module Lists {

  /** `copy.splice(i, 1)`: removes the element at i; an index past the end removes nothing. */
  function RemoveAt<T>(s: seq<T>, i: nat): (r: seq<T>)
    ensures i < |s| ==> |r| == |s| - 1 && multiset(r) + multiset{s[i]} == multiset(s)
    ensures i >= |s| ==> r == s
  {
    if i < |s| then
      assert s == s[..i] + [s[i]] + s[i + 1..];
      s[..i] + s[i + 1..]
    else s
  }

  /** `copy.splice(k, 0, x)`: inserts x before index k, or at the end when k is past it. */
  function InsertAt<T>(s: seq<T>, k: nat, x: T): (r: seq<T>)
    ensures |r| == |s| + 1
    ensures multiset(r) == multiset(s) + multiset{x}
    ensures r[if k < |s| then k else |s|] == x
  {
    var j := if k < |s| then k else |s|;
    assert s == s[..j] + s[j..];
    s[..j] + [x] + s[j..]
  }

  /**
   * `moveItem(from, to)`: take out the element at `from` and put it back in at `to`.
   * A move rearranges the list: same length, same elements, and the moved one lands at `to`.
   */
  function Moved<T>(s: seq<T>, from: nat, to: nat): (r: seq<T>)
    requires from < |s|
    ensures |r| == |s|
    ensures multiset(r) == multiset(s)
    ensures r[Landing(|s|, to)] == s[from]
  {
    InsertAt(RemoveAt(s, from), to, s[from])
  }

  /** The index the moved element ends up at: `to`, or the last index when `to` is past it. */
  function Landing(len: nat, to: nat): nat {
    if to < len then to else if len == 0 then 0 else len - 1
  }

  lemma RemoveInserted<T>(t: seq<T>, k: nat, x: T)
    requires k <= |t|
    ensures RemoveAt(InsertAt(t, k, x), k) == t
  {
    var u := InsertAt(t, k, x);
    assert u == t[..k] + [x] + t[k..];
    assert u[..k] == t[..k] && u[k + 1..] == t[k..];
  }

  lemma InsertRemoved<T>(s: seq<T>, i: nat)
    requires i < |s|
    ensures InsertAt(RemoveAt(s, i), i, s[i]) == s
  {
    var t := RemoveAt(s, i);
    assert t[..i] == s[..i] && t[i..] == s[i + 1..];
  }

  /** Moving an element back from where it landed undoes the move. */
  lemma MovedBack<T>(s: seq<T>, from: nat, to: nat)
    requires from < |s|
    ensures Landing(|s|, to) < |Moved(s, from, to)|
    ensures Moved(Moved(s, from, to), Landing(|s|, to), from) == s
  {
    var t := RemoveAt(s, from);
    var k := Landing(|s|, to);
    RemoveInserted(t, k, s[from]);
    InsertRemoved(s, from);
  }

  /** Dropping an element on its own position changes nothing. */
  lemma MovedInPlace<T>(s: seq<T>, i: nat)
    requires i < |s|
    ensures Moved(s, i, i) == s
  {
    assert s[..i] + s[i + 1..] == RemoveAt(s, i);
    assert RemoveAt(s, i)[..i] == s[..i];
    assert RemoveAt(s, i)[i..] == s[i + 1..];
  }

  /** The "move down" button on the last element asks for index |s|; splice clamps it, so nothing moves. */
  lemma MovedPastEnd<T>(s: seq<T>)
    requires |s| > 0
    ensures Moved(s, |s| - 1, |s|) == s
  {
    assert RemoveAt(s, |s| - 1) == s[..|s| - 1];
  }

  /** Swapping two elements rearranges a list. */
  lemma SwapPermutes<T>(s: seq<T>, i: nat, j: nat)
    requires i < |s| && j < |s|
    ensures multiset(s[i := s[j]][j := s[i]]) == multiset(s)
  {
  }

  /** What `Math.floor(Math.random() * (i + 1))` may return in step i of the shuffle. */
  predicate ValidChoices(n: nat, choices: seq<nat>) {
    |choices| == n && forall i :: 0 <= i < n ==> choices[i] <= i
  }

  /**
   * Fisher–Yates: for i from the last index down to 1, swap element i with the element at
   * `choices[i]` (the index `Math.random` picked, 0 <= j <= i). The result is always a
   * rearrangement of the input, and choosing j == i every time leaves it as it was.
   */
  method Shuffle<T>(s: seq<T>, choices: seq<nat>) returns (r: seq<T>)
    requires ValidChoices(|s|, choices)
    ensures |r| == |s|
    ensures multiset(r) == multiset(s)
    ensures (forall i :: 0 <= i < |s| ==> choices[i] == i) ==> r == s
  {
    var a := new T[|s|](k requires 0 <= k < |s| => s[k]);
    assert a[..] == s;
    var i := |s| - 1;
    while i > 0
      invariant -1 <= i < |s|
      invariant a.Length == |s|
      invariant multiset(a[..]) == multiset(s)
      invariant (forall k :: 0 <= k < |s| ==> choices[k] == k) ==> a[..] == s
    {
      var j := choices[i];
      ghost var before := a[..];
      a[i], a[j] := a[j], a[i];
      assert a[..] == before[i := before[j]][j := before[i]];
      SwapPermutes(before, i, j);
      i := i - 1;
    }
    r := a[..];
  }
}
