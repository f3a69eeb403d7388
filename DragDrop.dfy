/**
 * The drag-and-drop ordering exercise: the items are moved by dragging or with the
 * arrow keys, and Check Order scores the share of items at their place in `correctOrder`.
 */
module DragAndDrop {
  import opened Wrappers
  import Lists
  import Percent

  datatype ExerciseItem = ExerciseItem(id: string, text: string)

  function Ids(items: seq<ExerciseItem>): (ids: seq<string>)
    ensures |ids| == |items| && forall k :: 0 <= k < |items| ==> ids[k] == items[k].id
  {
    seq(|items|, k requires 0 <= k < |items| => items[k].id)
  }

  /** The `correctCount` reduce: the indices whose id is the one `correctOrder` has there. */
  function CorrectCount(ids: seq<string>, order: seq<string>): (c: nat)
    ensures c <= |ids|
  {
    if ids == [] then 0
    else CorrectCount(ids[..|ids| - 1], order) + (if |ids| - 1 < |order| && ids[|ids| - 1] == order[|ids| - 1] then 1 else 0)
  }

  /** Every id is at its place exactly when the count reaches the length. */
  lemma {:induction false} CorrectCountFull(ids: seq<string>, order: seq<string>)
    ensures CorrectCount(ids, order) == |ids| <==> |ids| <= |order| && ids == order[..|ids|]
  {
    if ids != [] {
      var init := ids[..|ids| - 1];
      CorrectCountFull(init, order);
      if |ids| <= |order| && ids == order[..|ids|] {
        assert init == order[..|init|];
      }
      if CorrectCount(ids, order) == |ids| {
        assert CorrectCount(init, order) == |init|;
        assert ids == init + [ids[|ids| - 1]];
      }
    }
  }

  /** The score: 100 exactly for the correct order when it has fewer than 200 items, and always in [0, 100] when the lengths agree. */
  lemma ScoreMeaning(ids: seq<string>, order: seq<string>)
    requires |ids| == |order| > 0
    ensures 0 <= Percent.RoundedPercent(CorrectCount(ids, order), |order|).value <= 100
    ensures |order| < 200 ==> (Percent.RoundedPercent(CorrectCount(ids, order), |order|) == Some(100) <==> ids == order)
  {
    CorrectCountFull(ids, order);
    assert order[..|ids|] == order;
    Percent.PercentBounds(CorrectCount(ids, order), |order|);
    if |order| < 200 {
      Percent.FullMarksExactly(CorrectCount(ids, order), |order|);
    }
  }

  /** A move to the neighbouring index swaps the two neighbours and leaves every other item in place. */
  lemma MovedDown<T>(s: seq<T>, i: nat)
    requires i + 1 < |s|
    ensures Lists.Moved(s, i, i + 1) == s[..i] + [s[i + 1], s[i]] + s[i + 2..]
  {
    var t := Lists.RemoveAt(s, i);
    assert t == s[..i] + s[i + 1..];
    calc {
      Lists.Moved(s, i, i + 1);
      t[..i + 1] + [s[i]] + t[i + 1..];
    == { assert t[..i + 1] == s[..i] + [s[i + 1]]; assert t[i + 1..] == s[i + 2..]; }
      s[..i] + [s[i + 1]] + [s[i]] + s[i + 2..];
      s[..i] + [s[i + 1], s[i]] + s[i + 2..];
    }
  }

  lemma MovedUp<T>(s: seq<T>, i: nat)
    requires 0 < i < |s|
    ensures Lists.Moved(s, i, i - 1) == s[..i - 1] + [s[i], s[i - 1]] + s[i + 1..]
  {
    var t := Lists.RemoveAt(s, i);
    assert t == s[..i] + s[i + 1..];
    calc {
      Lists.Moved(s, i, i - 1);
      t[..i - 1] + [s[i]] + t[i - 1..];
    == { assert t[..i - 1] == s[..i - 1]; assert t[i - 1..] == [s[i - 1]] + s[i + 1..]; }
      s[..i - 1] + [s[i]] + [s[i - 1]] + s[i + 1..];
      s[..i - 1] + [s[i], s[i - 1]] + s[i + 1..];
    }
  }

  datatype Direction = Up | Down

  class Exercise {
    const correctOrder: seq<string>
    var exerciseItems: seq<ExerciseItem>
    var isComplete: bool
    /** Every score passed to `onComplete`; None stands for the NaN an empty `correctOrder` gives. */
    var reported: seq<Option<int>>

    constructor(items: seq<ExerciseItem>, order: seq<string>)
      ensures correctOrder == order && exerciseItems == items && !isComplete && reported == []
    {
      correctOrder := order;
      exerciseItems := items;
      isComplete := false;
      reported := [];
    }

    /** `moveItem`: the dragged item is taken out and put back in at the hovered index. */
    method MoveItem(dragIndex: nat, hoverIndex: nat)
      modifies this
      requires dragIndex < |exerciseItems|
      ensures exerciseItems == Lists.Moved(old(exerciseItems), dragIndex, hoverIndex)
      ensures multiset(exerciseItems) == multiset(old(exerciseItems))
      ensures isComplete == old(isComplete) && reported == old(reported)
    {
      exerciseItems := Lists.Moved(exerciseItems, dragIndex, hoverIndex);
    }

    /** `handleKeyboardMove`: up only from index > 0, down only above the last index; the item trades places with its neighbour. */
    method HandleKeyboardMove(index: nat, direction: Direction)
      modifies this
      requires index < |exerciseItems|
      ensures direction == Up && index > 0 ==>
                exerciseItems == old(exerciseItems)[..index - 1] + [old(exerciseItems)[index], old(exerciseItems)[index - 1]] + old(exerciseItems)[index + 1..]
      ensures direction == Down && index + 1 < |old(exerciseItems)| ==>
                exerciseItems == old(exerciseItems)[..index] + [old(exerciseItems)[index + 1], old(exerciseItems)[index]] + old(exerciseItems)[index + 2..]
      ensures (direction == Up && index == 0) || (direction == Down && index + 1 == |old(exerciseItems)|) ==>
                exerciseItems == old(exerciseItems)
      ensures multiset(exerciseItems) == multiset(old(exerciseItems))
      ensures isComplete == old(isComplete) && reported == old(reported)
    {
      if direction == Up && index > 0 {
        MovedUp(exerciseItems, index);
        MoveItem(index, index - 1);
      } else if direction == Down && index + 1 < |exerciseItems| {
        MovedDown(exerciseItems, index);
        MoveItem(index, index + 1);
      }
    }

    /** `handleCheck` (offered only until the exercise is complete): report the rounded percentage and complete. */
    method HandleCheck()
      modifies this
      ensures !old(isComplete) ==>
                reported == old(reported) + [Percent.RoundedPercent(CorrectCount(Ids(exerciseItems), correctOrder), |correctOrder|)]
      ensures old(isComplete) ==> reported == old(reported)
      ensures isComplete && exerciseItems == old(exerciseItems)
    {
      if isComplete {
        return;
      }
      var count := CorrectCount(Ids(exerciseItems), correctOrder);
      reported := reported + [Percent.RoundedPercent(count, |correctOrder|)];
      isComplete := true;
    }
  }
}
