/**
 * The matching-pairs exercise: the player selects a term and a definition; a selection
 * of both is one attempt, matching ids join `matches`, and the game reports a score
 * when the last pair is matched or the optional countdown runs out.
 */
module MatchingPairs {
  import opened Wrappers
  import opened Http
  import Countdown
  import opened Accessibility

  const PerfectScore := 100
  const PenaltyPerAttempt := 5

  /** `calculateScore`: 100 less 5 per attempt beyond the number of pairs, never below 0. */
  function CalculateScore(attempts: int, pairs: int): (s: int)
    ensures s >= 0
  {
    var raw := PerfectScore - (attempts - pairs) * PenaltyPerAttempt;
    if raw > 0 then raw else 0
  }

  /** The score is exactly 100 for one attempt per pair, more with fewer attempts, and 0 once 20 attempts are wasted. */
  lemma ScoreLandmarks(attempts: int, pairs: int)
    ensures attempts == pairs ==> CalculateScore(attempts, pairs) == 100
    ensures attempts < pairs ==> CalculateScore(attempts, pairs) > 100
    ensures attempts == pairs - 1 ==> CalculateScore(attempts, pairs) == 105
    ensures attempts >= pairs + 20 ==> CalculateScore(attempts, pairs) == 0
  {
  }

  /** Each further attempt can only lower the score. */
  lemma ScoreNonIncreasing(a: int, b: int, pairs: int)
    requires a <= b
    ensures CalculateScore(b, pairs) <= CalculateScore(a, pairs)
  {
  }

  class MatchingGame {
    /** The ids of `pairs`, in order. */
    const pairIds: seq<string>
    /** Whether `timeLimit` is truthy, so that the countdown was started. */
    const timed: bool
    var selectedTerm: Option<string>
    var selectedDefinition: Option<string>
    var matches: set<string>
    var attempts: nat
    var timeRemaining: int
    var timerRunning: bool
    var fontSize: int
    /** Every score passed to `onComplete`, in order. */
    var reported: seq<int>

    /** Matches are ids of pairs, each won by an attempt, and the font stays readable. */
    ghost predicate Valid()
      reads this
    {
      && (forall id :: id in matches ==> id in pairIds)
      && |matches| <= attempts
      && 12 <= fontSize <= 24
    }

    constructor(ids: seq<string>, timeLimit: Option<int>)
      ensures Valid()
      ensures pairIds == ids && timed == (timeLimit.Some? && timeLimit.value != 0)
      ensures timeRemaining == (if timed then timeLimit.value else 0) && timerRunning == timed
      ensures selectedTerm == None && selectedDefinition == None && matches == {} && attempts == 0
      ensures fontSize == 16 && reported == []
    {
      pairIds := ids;
      timed := timeLimit.Some? && timeLimit.value != 0;
      timeRemaining := if timeLimit.Some? && timeLimit.value != 0 then timeLimit.value else 0;
      timerRunning := timeLimit.Some? && timeLimit.value != 0;
      selectedTerm := None;
      selectedDefinition := None;
      matches := {};
      attempts := 0;
      fontSize := InitialFontSize;
      reported := [];
    }

    /** Both halves of a selection name pairs (`pairs.find` succeeds for both). */
    predicate Known(termId: string, definitionId: string) {
      termId in pairIds && definitionId in pairIds
    }

    /** A selection of these ids would be the last match: both known, equal, and one pair left. */
    predicate LastMatch(termId: string, definitionId: string, matchedBefore: set<string>) {
      Known(termId, definitionId) && termId == definitionId && |matchedBefore| + 1 == |pairIds|
    }

    /**
     * The second half of a selection: an attempt when both ids are known, a match when
     * they are equal, completion (scored with the attempts read before this one) when
     * that match is the last; both selections are cleared either way.
     */
    method Resolve(termId: string, definitionId: string, clicked: string)
      modifies this
      requires Valid() && clicked !in matches && (clicked == termId || clicked == definitionId)
      ensures Valid()
      ensures selectedTerm == None && selectedDefinition == None
      ensures attempts == old(attempts) + (if Known(termId, definitionId) then 1 else 0)
      ensures matches == old(matches) + (if Known(termId, definitionId) && termId == definitionId then {clicked} else {})
      ensures Known(termId, definitionId) && termId == definitionId && |old(matches)| + 1 == |pairIds| ==>
                reported == old(reported) + [CalculateScore(old(attempts), |pairIds|)] && !timerRunning
      ensures !(Known(termId, definitionId) && termId == definitionId && |old(matches)| + 1 == |pairIds|) ==>
                reported == old(reported) && timerRunning == old(timerRunning)
      ensures timeRemaining == old(timeRemaining) && fontSize == old(fontSize)
    {
      var seen := attempts;
      var known := Known(termId, definitionId);
      if known {
        attempts := attempts + 1;
        if termId == definitionId {
          RecordMatch(clicked, seen);
        }
      }
      selectedTerm := None;
      selectedDefinition := None;
    }

    /** A known selection of equal ids: the id joins `matches`, and the last match completes the game. */
    method RecordMatch(clicked: string, attemptsSeen: int)
      modifies this
      requires clicked in pairIds && clicked !in matches && |matches| < attempts
      requires (forall id :: id in matches ==> id in pairIds) && 12 <= fontSize <= 24
      ensures Valid()
      ensures matches == old(matches) + {clicked} && attempts == old(attempts)
      ensures selectedTerm == old(selectedTerm) && selectedDefinition == old(selectedDefinition)
      ensures |old(matches)| + 1 == |pairIds| ==> reported == old(reported) + [CalculateScore(attemptsSeen, |pairIds|)] && !timerRunning
      ensures |old(matches)| + 1 != |pairIds| ==> reported == old(reported) && timerRunning == old(timerRunning)
      ensures timeRemaining == old(timeRemaining) && fontSize == old(fontSize)
    {
      var before := matches;
      matches := before + {clicked};
      assert |matches| == |before| + 1;
      if |before| + 1 == |pairIds| {
        Complete(attemptsSeen);
      }
    }

    /** `handleComplete`: stop the countdown and report the score for the attempts the caller read. */
    method Complete(attemptsSeen: int)
      modifies this
      ensures reported == old(reported) + [CalculateScore(attemptsSeen, |pairIds|)] && !timerRunning
      ensures selectedTerm == old(selectedTerm) && selectedDefinition == old(selectedDefinition)
      ensures matches == old(matches) && attempts == old(attempts)
      ensures timeRemaining == old(timeRemaining) && fontSize == old(fontSize)
    {
      timerRunning := false;
      reported := reported + [CalculateScore(attemptsSeen, |pairIds|)];
    }

    /** `handleTermClick`: ignored on a matched id; selects the term, and resolves if a definition is selected. */
    method ClickTerm(id: string)
      modifies this
      requires Valid()
      ensures Valid()
      ensures id in old(matches) ==>
                selectedTerm == old(selectedTerm) && selectedDefinition == old(selectedDefinition)
                && matches == old(matches) && attempts == old(attempts) && reported == old(reported)
      ensures id !in old(matches) && !Truthy(old(selectedDefinition)) ==>
                selectedTerm == Some(id) && selectedDefinition == old(selectedDefinition)
                && matches == old(matches) && attempts == old(attempts) && reported == old(reported)
      ensures id !in old(matches) && Truthy(old(selectedDefinition)) ==>
                selectedTerm == None && selectedDefinition == None
                && attempts == old(attempts) + (if Known(id, old(selectedDefinition).value) then 1 else 0)
                && matches == old(matches) + (if Known(id, old(selectedDefinition).value) && id == old(selectedDefinition).value then {id} else {})
                && reported == old(reported) +
                     (if Known(id, old(selectedDefinition).value) && id == old(selectedDefinition).value && |old(matches)| + 1 == |pairIds|
                      then [CalculateScore(old(attempts), |pairIds|)] else [])
      ensures id !in old(matches) && Truthy(old(selectedDefinition)) && LastMatch(id, old(selectedDefinition).value, old(matches)) ==>
                !timerRunning
      ensures !(id !in old(matches) && Truthy(old(selectedDefinition)) && LastMatch(id, old(selectedDefinition).value, old(matches))) ==>
                timerRunning == old(timerRunning)
      ensures old(matches) <= matches
      ensures timeRemaining == old(timeRemaining) && fontSize == old(fontSize)
    {
      if id in matches {
        return;
      }
      selectedTerm := Some(id);
      if Truthy(selectedDefinition) {
        Resolve(id, selectedDefinition.value, id);
      }
    }

    /** `handleDefinitionClick`: the same with the roles of term and definition swapped. */
    method ClickDefinition(id: string)
      modifies this
      requires Valid()
      ensures Valid()
      ensures id in old(matches) ==>
                selectedTerm == old(selectedTerm) && selectedDefinition == old(selectedDefinition)
                && matches == old(matches) && attempts == old(attempts) && reported == old(reported)
      ensures id !in old(matches) && !Truthy(old(selectedTerm)) ==>
                selectedDefinition == Some(id) && selectedTerm == old(selectedTerm)
                && matches == old(matches) && attempts == old(attempts) && reported == old(reported)
      ensures id !in old(matches) && Truthy(old(selectedTerm)) ==>
                selectedTerm == None && selectedDefinition == None
                && attempts == old(attempts) + (if Known(old(selectedTerm).value, id) then 1 else 0)
                && matches == old(matches) + (if Known(old(selectedTerm).value, id) && old(selectedTerm).value == id then {id} else {})
                && reported == old(reported) +
                     (if Known(old(selectedTerm).value, id) && old(selectedTerm).value == id && |old(matches)| + 1 == |pairIds|
                      then [CalculateScore(old(attempts), |pairIds|)] else [])
      ensures id !in old(matches) && Truthy(old(selectedTerm)) && LastMatch(old(selectedTerm).value, id, old(matches)) ==>
                !timerRunning
      ensures !(id !in old(matches) && Truthy(old(selectedTerm)) && LastMatch(old(selectedTerm).value, id, old(matches))) ==>
                timerRunning == old(timerRunning)
      ensures old(matches) <= matches
      ensures timeRemaining == old(timeRemaining) && fontSize == old(fontSize)
    {
      if id in matches {
        return;
      }
      selectedDefinition := Some(id);
      if Truthy(selectedTerm) {
        Resolve(selectedTerm.value, id, id);
      }
    }

    /**
     * One countdown callback. At one second or less the clock stops at 0 and the game
     * completes with the score the interval's closure computes: it was created on mount,
     * so it reads 0 attempts.
     */
    method Tick()
      modifies this
      requires Valid()
      ensures Valid()
      ensures !old(timerRunning) ==> timeRemaining == old(timeRemaining) && reported == old(reported) && timerRunning == old(timerRunning)
      ensures old(timerRunning) ==> timeRemaining == Countdown.Tick(old(timeRemaining)).remaining
      ensures old(timerRunning) && Countdown.Tick(old(timeRemaining)).expired ==>
                reported == old(reported) + [CalculateScore(0, |pairIds|)] && !timerRunning
      ensures old(timerRunning) && !Countdown.Tick(old(timeRemaining)).expired ==> reported == old(reported) && timerRunning
      ensures matches == old(matches) && attempts == old(attempts) && fontSize == old(fontSize)
      ensures selectedTerm == old(selectedTerm) && selectedDefinition == old(selectedDefinition)
    {
      if !timerRunning {
        return;
      }
      var r := Countdown.Tick(timeRemaining);
      if r.expired {
        Complete(0);
      }
      timeRemaining := r.remaining;
    }

    method DecreaseFont()
      modifies this
      requires Valid()
      ensures Valid() && fontSize == Smaller(old(fontSize))
      ensures matches == old(matches) && attempts == old(attempts) && reported == old(reported)
      ensures selectedTerm == old(selectedTerm) && selectedDefinition == old(selectedDefinition)
      ensures timeRemaining == old(timeRemaining) && timerRunning == old(timerRunning)
    {
      FontStaysInRange(fontSize);
      fontSize := Smaller(fontSize);
    }

    method IncreaseFont()
      modifies this
      requires Valid()
      ensures Valid() && fontSize == Larger(old(fontSize))
      ensures matches == old(matches) && attempts == old(attempts) && reported == old(reported)
      ensures selectedTerm == old(selectedTerm) && selectedDefinition == old(selectedDefinition)
      ensures timeRemaining == old(timeRemaining) && timerRunning == old(timerRunning)
    {
      FontStaysInRange(fontSize);
      fontSize := Larger(fontSize);
    }
  }
}
