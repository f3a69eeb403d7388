/**
 * The sorting exercise: the items start in a shuffled order, the player moves them by
 * drag and drop, buttons or arrow keys, and Check Order compares every item's correct
 * position with its index.
 */
module SortingExercise {
  import opened Text
  import Lists

  datatype Item = Item(id: string, content: string, correctPosition: nat)

  /** The items in the lesson's order: item k has id `${k}` and correct position k. */
  function InitialItems(contents: seq<string>): (items: seq<Item>)
    ensures |items| == |contents|
    ensures forall k :: 0 <= k < |items| ==> items[k].correctPosition == k && items[k].content == contents[k]
    ensures forall k :: 0 <= k < |items| ==> items[k].id == NatToString(k)
  {
    seq(|contents|, k requires 0 <= k < |contents| => Item(NatToString(k), contents[k], k))
  }

  /** `checkOrder`'s test: every item sits at its correct position. */
  predicate InOrder(items: seq<Item>) {
    forall k :: 0 <= k < |items| ==> items[k].correctPosition == k
  }

  /** The verdict is right: a rearrangement of the lesson's items passes exactly when it is the lesson's order. */
  lemma InOrderIsOriginal(contents: seq<string>, items: seq<Item>)
    requires multiset(items) == multiset(InitialItems(contents))
    ensures InOrder(items) <==> items == InitialItems(contents)
  {
    var initial := InitialItems(contents);
    assert |items| == |initial| by {
      assert |multiset(items)| == |multiset(initial)|;
    }
    if InOrder(items) {
      forall k | 0 <= k < |items| ensures items[k] == initial[k] {
        assert items[k] in multiset(initial);
        var j :| 0 <= j < |initial| && initial[j] == items[k];
      }
    }
  }

  /** `calculateScore(attempts)`: 100 less 20 for each attempt after the first, never below 0. */
  function CalculateScore(attempts: int): (s: int)
    ensures s >= 0
  {
    var raw := 100 - (attempts - 1) * 20;
    if raw > 0 then raw else 0
  }

  /** The score falls with the attempts; it is 100 for attempts = 1 and 120 for the 0 a first success passes in. */
  lemma ScoreLandmarks(a: int, b: int)
    ensures a <= b ==> CalculateScore(b) <= CalculateScore(a)
    ensures CalculateScore(1) == 100 && CalculateScore(0) == 120
    ensures a >= 6 ==> CalculateScore(a) == 0
  {
  }

  /** The keyboard targets: one up but not above 0, one down but not past the last index. */
  function UpTarget(index: nat): nat {
    if index == 0 then 0 else index - 1
  }

  function DownTarget(len: nat, index: nat): int {
    if index + 1 < len - 1 then index + 1 else len - 1
  }

  lemma KeyTargetsClamped(len: nat, index: nat)
    requires index < len
    ensures 0 <= UpTarget(index) <= index && index - UpTarget(index) <= 1
    ensures index <= DownTarget(len, index) < len && DownTarget(len, index) - index <= 1
  {
  }

  const Retry := "Not quite right. Try again!"

  function Congratulations(attempts: int): string {
    "Congratulations! You've sorted the items correctly in " + IntToString(attempts) + " attempts."
  }

  datatype Key = ArrowUp | ArrowDown | OtherKey

  class Sorter {
    var items: seq<Item>
    var isChecking: bool
    var attempts: nat
    var feedback: string
    /** A wrong answer has scheduled the timeout that re-enables the exercise. */
    var retryPending: bool
    /** Every score passed to `onComplete`, in order. */
    var reported: seq<int>

    /** The mount effect: the lesson's items shuffled with the supplied random choices. */
    constructor(contents: seq<string>, choices: seq<nat>)
      requires Lists.ValidChoices(|contents|, choices)
      ensures multiset(items) == multiset(InitialItems(contents)) && |items| == |contents|
      ensures !isChecking && attempts == 0 && feedback == "" && !retryPending && reported == []
    {
      var shuffled := Lists.Shuffle(InitialItems(contents), choices);
      items := shuffled;
      isChecking := false;
      attempts := 0;
      feedback := "";
      retryPending := false;
      reported := [];
    }

    /** `moveItem(dragIndex, hoverIndex)`: the dragged item is taken out and reinserted; the rest keeps its order. */
    method MoveItem(dragIndex: nat, hoverIndex: nat)
      modifies this
      requires dragIndex < |items|
      ensures items == Lists.Moved(old(items), dragIndex, hoverIndex)
      ensures multiset(items) == multiset(old(items)) && |items| == |old(items)|
      ensures isChecking == old(isChecking) && attempts == old(attempts) && feedback == old(feedback) && reported == old(reported)
      ensures retryPending == old(retryPending)
    {
      items := Lists.Moved(items, dragIndex, hoverIndex);
    }

    /** `handleKeyDown`: while checking nothing moves; the arrows move one place, clamped to the list. */
    method HandleKeyDown(key: Key, index: nat)
      modifies this
      requires index < |items|
      ensures isChecking || key == OtherKey ==> items == old(items)
      ensures !isChecking && key == ArrowUp ==> items == Lists.Moved(old(items), index, UpTarget(index))
      ensures !isChecking && key == ArrowDown ==> items == Lists.Moved(old(items), index, DownTarget(|old(items)|, index))
      ensures multiset(items) == multiset(old(items))
      ensures isChecking == old(isChecking) && attempts == old(attempts) && feedback == old(feedback) && reported == old(reported)
      ensures retryPending == old(retryPending)
    {
      if isChecking {
        return;
      }
      match key
      case ArrowUp => MoveItem(index, UpTarget(index));
      case ArrowDown =>
        KeyTargetsClamped(|items|, index);
        MoveItem(index, DownTarget(|items|, index));
      case OtherKey =>
    }

    /**
     * Check Order (its button is disabled while checking). One more attempt; a correct
     * order reports the score of the attempts read before this one, a wrong one shows
     * the retry text until the timeout.
     */
    method CheckOrder()
      modifies this
      ensures old(isChecking) ==> attempts == old(attempts) && feedback == old(feedback) && reported == old(reported) && retryPending == old(retryPending)
      ensures isChecking
      ensures !old(isChecking) ==> attempts == old(attempts) + 1
      ensures !old(isChecking) && InOrder(items) ==>
                feedback == Congratulations(old(attempts) + 1) && reported == old(reported) + [CalculateScore(old(attempts))]
                && retryPending == old(retryPending)
      ensures !old(isChecking) && !InOrder(items) ==> feedback == Retry && retryPending && reported == old(reported)
      ensures items == old(items)
    {
      if isChecking {
        return;
      }
      isChecking := true;
      var seen := attempts;
      attempts := attempts + 1;
      if InOrder(items) {
        feedback := Congratulations(seen + 1);
        reported := reported + [CalculateScore(seen)];
      } else {
        feedback := Retry;
        retryPending := true;
      }
    }

    /** The retry timeout: checking ends and the feedback is cleared. */
    method RetryTimeout()
      modifies this
      ensures old(retryPending) ==> !isChecking && feedback == "" && !retryPending
      ensures !old(retryPending) ==> isChecking == old(isChecking) && feedback == old(feedback) && !retryPending
      ensures items == old(items) && attempts == old(attempts) && reported == old(reported)
    {
      if retryPending {
        isChecking := false;
        feedback := "";
        retryPending := false;
      }
    }

    /** Reset (disabled while checking): a fresh shuffle of the current items. */
    method Reset(choices: seq<nat>)
      modifies this
      requires Lists.ValidChoices(|items|, choices)
      ensures old(isChecking) ==> items == old(items) && feedback == old(feedback) && isChecking
      ensures !old(isChecking) ==> multiset(items) == multiset(old(items)) && |items| == |old(items)| && !isChecking && feedback == ""
      ensures attempts == old(attempts) && reported == old(reported) && retryPending == old(retryPending)
    {
      if isChecking {
        return;
      }
      var shuffled := Lists.Shuffle(items, choices);
      items := shuffled;
      isChecking := false;
      feedback := "";
    }
  }
}
