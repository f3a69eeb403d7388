/**
 * The timed quiz: one question at a time against a countdown. An answer is recorded
 * for the current question, earns the question's points when it is the correct
 * option, and shows the explanation; two seconds later the quiz moves on, or after the
 * last question finishes. The countdown running out finishes the quiz as well.
 */
module TimedQuiz {
  import opened Wrappers
  import opened Accessibility
  import Countdown

  datatype Question = Question(id: string, question: string, options: seq<string>, correctAnswer: int, explanation: string, points: int)

  /** The points one recorded answer earns: the question's points for the correct option, else nothing. */
  function Gained(q: Question, answer: Option<int>): int {
    if answer == Some(q.correctAnswer) then q.points else 0
  }

  /** The points the answers earn on the first n questions. */
  function Earned(qs: seq<Question>, answers: seq<Option<int>>, n: nat): int
    requires n <= |qs| && |answers| == |qs|
  {
    if n == 0 then 0 else Earned(qs, answers, n - 1) + Gained(qs[n - 1], answers[n - 1])
  }

  /** The points of the first n questions. */
  function Total(qs: seq<Question>, n: nat): int
    requires n <= |qs|
  {
    if n == 0 then 0 else Total(qs, n - 1) + qs[n - 1].points
  }

  /** `questions.reduce((sum, q) => sum + q.points, 0)`: what a quiz answered all correctly earns. */
  function MaxScore(qs: seq<Question>): (m: int)
    ensures forall answers :: AllCorrect(qs, answers) ==> Earned(qs, answers, |qs|) == m
  {
    AllCorrectEarnAll(qs, |qs|);
    Total(qs, |qs|)
  }

  /** Every question has its correct option recorded. */
  predicate AllCorrect(qs: seq<Question>, answers: seq<Option<int>>) {
    |answers| == |qs| && forall k :: 0 <= k < |qs| ==> answers[k] == Some(qs[k].correctAnswer)
  }

  lemma {:induction false} AllCorrectEarnAll(qs: seq<Question>, n: nat)
    requires n <= |qs|
    ensures forall answers :: AllCorrect(qs, answers) ==> Earned(qs, answers, n) == Total(qs, n)
  {
    if n > 0 {
      AllCorrectEarnAll(qs, n - 1);
    }
  }

  /** Recording an answer where there was none adds exactly what that answer earns, if it lies among the first n. */
  lemma {:induction false} EarnedUpdate(qs: seq<Question>, answers: seq<Option<int>>, n: nat, k: nat, v: int)
    requires n <= |qs| && |answers| == |qs| && k < |qs| && answers[k] == None
    ensures Earned(qs, answers[k := Some(v)], n) == Earned(qs, answers, n) + (if k < n then Gained(qs[k], Some(v)) else 0)
  {
    if n > 0 {
      EarnedUpdate(qs, answers, n - 1, k, v);
    }
  }

  /**
   * With positive points, the earned score lies in [0, Total] and reaches the total
   * exactly when every one of the questions has its correct option recorded.
   */
  lemma {:induction false} EarnedAtMostTotal(qs: seq<Question>, answers: seq<Option<int>>, n: nat)
    requires n <= |qs| && |answers| == |qs|
    requires forall k :: 0 <= k < |qs| ==> qs[k].points > 0
    ensures 0 <= Earned(qs, answers, n) <= Total(qs, n)
    ensures Earned(qs, answers, n) == Total(qs, n) <==> forall k :: 0 <= k < n ==> answers[k] == Some(qs[k].correctAnswer)
  {
    if n > 0 {
      EarnedAtMostTotal(qs, answers, n - 1);
      if Earned(qs, answers, n) == Total(qs, n) {
        assert answers[n - 1] == Some(qs[n - 1].correctAnswer);
      }
    }
  }

  datatype Color = Green | Yellow | Red

  /** How urgent a colour is: green 0, yellow 1, red 2. */
  function Urgency(c: Color): nat {
    match c
    case Green => 0
    case Yellow => 1
    case Red => 2
  }

  /**
   * `getProgressColor`: `(timeRemaining / timeLimit) * 100` above 66 is green, above 33
   * yellow, else red, compared exactly. A zero limit divides a positive time into
   * Infinity (green) and no time into NaN, which is above nothing (red).
   */
  function ProgressColor(timeRemaining: int, timeLimit: int): (c: Color)
    ensures timeLimit > 0 ==> (c == Green <==> timeRemaining * 100 > 66 * timeLimit)
    ensures timeLimit > 0 ==> (c == Red <==> timeRemaining * 100 <= 33 * timeLimit)
    ensures timeLimit == 0 ==> (c == Green <==> timeRemaining > 0) && c != Yellow
  {
    if timeLimit == 0 then (if timeRemaining > 0 then Green else Red)
    else
      var above66 := if timeLimit > 0 then timeRemaining * 100 > 66 * timeLimit else timeRemaining * 100 < 66 * timeLimit;
      var above33 := if timeLimit > 0 then timeRemaining * 100 > 33 * timeLimit else timeRemaining * 100 < 33 * timeLimit;
      if above66 then Green else if above33 then Yellow else Red
  }

  /** As the countdown runs down the bar never turns less urgent; it starts green and ends red. */
  lemma ColorDarkens(t: int, u: int, timeLimit: int)
    requires timeLimit > 0 && u <= t
    ensures Urgency(ProgressColor(t, timeLimit)) <= Urgency(ProgressColor(u, timeLimit))
    ensures ProgressColor(timeLimit, timeLimit) == Green && ProgressColor(0, timeLimit) == Red
  {
  }

  class Quiz {
    const questions: seq<Question>
    const timeLimit: int
    var currentQuestion: nat
    var selectedAnswer: Option<int>
    var score: int
    var showExplanation: bool
    var timeRemaining: int
    var isFinished: bool
    var answers: seq<Option<int>>
    /** The countdown interval has not been cleared. */
    var timerRunning: bool
    /** An answer's two-second timeout is scheduled; it holds the score its closure read. */
    var pending: Option<int>
    var fontSize: int
    /** Every `(score, maxScore)` pair passed to `onComplete`, in order. */
    var reported: seq<(int, int)>

    /**
     * The quiz is at a question; the questions after it have no answer; the current one
     * has one exactly while its explanation shows, and that answer is the one selected;
     * `score` is what the recorded answers earn, and a scheduled timeout holds what they
     * earned before the current answer. The interval runs exactly until the quiz finishes.
     */
    ghost predicate Valid()
      reads this
    {
      && 0 < |questions|
      && currentQuestion < |questions|
      && |answers| == |questions|
      && (forall k :: currentQuestion < k < |answers| ==> answers[k] == None)
      && (showExplanation <==> answers[currentQuestion].Some?)
      && selectedAnswer == answers[currentQuestion]
      && (pending.Some? ==> showExplanation)
      && score == Earned(questions, answers, |questions|)
      && (pending.Some? ==> pending.value == Earned(questions, answers[currentQuestion := None], |questions|))
      && (isFinished <==> !timerRunning)
      && 12 <= fontSize <= 24
    }

    /** The first render (it reads `questions[0]`, so there is at least one question) and the mount effect that starts the interval. */
    constructor(qs: seq<Question>, limit: int)
      requires |qs| > 0
      ensures Valid()
      ensures questions == qs && timeLimit == limit && timeRemaining == limit
      ensures currentQuestion == 0 && score == 0 && !showExplanation && !isFinished && timerRunning
      ensures answers == seq(|qs|, _ => None) && pending == None && reported == [] && fontSize == InitialFontSize
    {
      questions := qs;
      timeLimit := limit;
      currentQuestion := 0;
      selectedAnswer := None;
      score := 0;
      showExplanation := false;
      timeRemaining := limit;
      isFinished := false;
      answers := seq(|qs|, _ => None);
      timerRunning := true;
      pending := None;
      fontSize := InitialFontSize;
      reported := [];
      new;
      assert Earned(questions, answers, |questions|) == 0 by {
        NoAnswersEarnNothing(questions, answers, |questions|);
      }
    }

    /** `finishQuiz` of a render that read `seenScore`: clear the interval, finish, report. */
    method Finish(seenScore: int)
      modifies this
      ensures isFinished && !timerRunning && reported == old(reported) + [(seenScore, MaxScore(questions))]
      ensures currentQuestion == old(currentQuestion) && selectedAnswer == old(selectedAnswer) && score == old(score)
      ensures showExplanation == old(showExplanation) && answers == old(answers) && pending == old(pending)
      ensures timeRemaining == old(timeRemaining) && fontSize == old(fontSize)
    {
      timerRunning := false;
      isFinished := true;
      reported := reported + [(seenScore, MaxScore(questions))];
    }

    /**
     * `handleAnswer` (its buttons are disabled while finished or explaining): record the
     * answer for the current question, add its points when correct, show the
     * explanation and schedule the timeout with the score this render read.
     */
    method HandleAnswer(answerIndex: int)
      modifies this
      requires Valid()
      ensures Valid()
      ensures old(isFinished || showExplanation) ==>
                answers == old(answers) && score == old(score) && showExplanation == old(showExplanation) && pending == old(pending)
      ensures !old(isFinished || showExplanation) ==>
                && answers == old(answers)[old(currentQuestion) := Some(answerIndex)]
                && selectedAnswer == Some(answerIndex) && showExplanation
                && score == old(score) + Gained(questions[currentQuestion], Some(answerIndex))
                && pending == Some(old(score))
      ensures currentQuestion == old(currentQuestion) && isFinished == old(isFinished) && timerRunning == old(timerRunning)
      ensures reported == old(reported) && timeRemaining == old(timeRemaining) && fontSize == old(fontSize)
    {
      if isFinished || showExplanation {
        return;
      }
      var seen := score;
      var before := answers;
      selectedAnswer := Some(answerIndex);
      answers := answers[currentQuestion := Some(answerIndex)];
      EarnedUpdate(questions, before, |questions|, currentQuestion, answerIndex);
      score := score + Gained(questions[currentQuestion], Some(answerIndex));
      showExplanation := true;
      assert answers[currentQuestion := None] == before;
      pending := Some(seen);
    }

    /**
     * The answer's timeout: before the last question move on to the next one; at the
     * last one call the closure's `finishQuiz`, which reports the score read before this
     * answer, that is the current score less what the last answer earned.
     */
    method AnswerTimeout()
      modifies this
      requires Valid()
      ensures Valid()
      ensures old(pending) == None ==>
                currentQuestion == old(currentQuestion) && showExplanation == old(showExplanation) && reported == old(reported)
                && isFinished == old(isFinished)
      ensures old(pending).Some? && old(currentQuestion) + 1 < |questions| ==>
                currentQuestion == old(currentQuestion) + 1 && selectedAnswer == None && !showExplanation
                && reported == old(reported) && isFinished == old(isFinished)
      ensures old(pending).Some? && old(currentQuestion) + 1 == |questions| ==>
                && currentQuestion == old(currentQuestion) && isFinished && !timerRunning
                && reported == old(reported) + [(old(score) - Gained(questions[currentQuestion], old(answers)[currentQuestion]), MaxScore(questions))]
      ensures pending == None && score == old(score) && answers == old(answers)
      ensures timeRemaining == old(timeRemaining) && fontSize == old(fontSize)
    {
      if pending == None {
        return;
      }
      var seen := pending.value;
      pending := None;
      if currentQuestion < |questions| - 1 {
        currentQuestion := currentQuestion + 1;
        selectedAnswer := None;
        showExplanation := false;
      } else {
        var without := answers[currentQuestion := None];
        EarnedUpdate(questions, without, |questions|, currentQuestion, answers[currentQuestion].value);
        assert without[currentQuestion := answers[currentQuestion]] == answers;
        Finish(seen);
      }
    }

    /** One interval callback; on expiry the mount render's `finishQuiz` reports a score of 0. */
    method Tick()
      modifies this
      requires Valid()
      ensures Valid()
      ensures !old(timerRunning) ==> timeRemaining == old(timeRemaining) && reported == old(reported) && isFinished == old(isFinished)
      ensures old(timerRunning) ==> timeRemaining == Countdown.Tick(old(timeRemaining)).remaining
      ensures old(timerRunning) && Countdown.Tick(old(timeRemaining)).expired ==>
                reported == old(reported) + [(0, MaxScore(questions))] && isFinished
      ensures old(timerRunning) && !Countdown.Tick(old(timeRemaining)).expired ==> reported == old(reported) && !isFinished
      ensures currentQuestion == old(currentQuestion) && score == old(score) && answers == old(answers)
      ensures showExplanation == old(showExplanation) && pending == old(pending) && fontSize == old(fontSize)
    {
      if !timerRunning {
        return;
      }
      var r := Countdown.Tick(timeRemaining);
      if r.expired {
        Finish(0);
      }
      timeRemaining := r.remaining;
    }

    method DecreaseFont()
      modifies this
      requires Valid()
      ensures Valid() && fontSize == Smaller(old(fontSize))
      ensures answers == old(answers) && score == old(score) && reported == old(reported) && pending == old(pending)
      ensures currentQuestion == old(currentQuestion) && isFinished == old(isFinished)
      ensures selectedAnswer == old(selectedAnswer) && showExplanation == old(showExplanation)
      ensures timeRemaining == old(timeRemaining) && timerRunning == old(timerRunning)
    {
      FontStaysInRange(fontSize);
      fontSize := Smaller(fontSize);
    }

    method IncreaseFont()
      modifies this
      requires Valid()
      ensures Valid() && fontSize == Larger(old(fontSize))
      ensures answers == old(answers) && score == old(score) && reported == old(reported) && pending == old(pending)
      ensures currentQuestion == old(currentQuestion) && isFinished == old(isFinished)
      ensures selectedAnswer == old(selectedAnswer) && showExplanation == old(showExplanation)
      ensures timeRemaining == old(timeRemaining) && timerRunning == old(timerRunning)
    {
      FontStaysInRange(fontSize);
      fontSize := Larger(fontSize);
    }
  }

  /** Before any answer nothing is earned. */
  lemma {:induction false} NoAnswersEarnNothing(qs: seq<Question>, answers: seq<Option<int>>, n: nat)
    requires n <= |qs| && |answers| == |qs|
    requires forall k :: 0 <= k < |answers| ==> answers[k] == None
    ensures Earned(qs, answers, n) == 0
  {
    if n > 0 {
      NoAnswersEarnNothing(qs, answers, n - 1);
    }
  }

  /**
   * A finished quiz whose answers were all correct shows the full marks, yet the report
   * the last answer's timeout makes leaves out that answer's points.
   */
  lemma PerfectRunReport(qs: seq<Question>, answers: seq<Option<int>>)
    requires |qs| > 0 && |answers| == |qs|
    requires forall k :: 0 <= k < |qs| ==> qs[k].points > 0 && answers[k] == Some(qs[k].correctAnswer)
    ensures Earned(qs, answers, |qs|) == MaxScore(qs)
    ensures Earned(qs, answers, |qs|) - Gained(qs[|qs| - 1], answers[|qs| - 1]) == MaxScore(qs) - qs[|qs| - 1].points < MaxScore(qs)
  {
    EarnedAtMostTotal(qs, answers, |qs|);
  }
}
