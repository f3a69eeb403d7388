/**
 * The quiz inside an interactive lesson: one question per step, answers kept by step
 * number, Previous/Next to move, Submit to grade with the rounded percentage of
 * answers strictly equal to the question's correct answer, and Try Again to restart.
 */
module InteractiveLesson {
  import opened Wrappers
  import Percent

  /**
   * A value an answer or a correct answer can hold: `undefined`, a string (a chosen
   * option or a selected match), or an object (the matching answers, keyed by pair index).
   */
  datatype Value = Undefined | Str(s: string) | Obj(fields: map<int, string>)

  /**
   * `===`. Two strings are equal by content and `undefined` equals itself; every
   * object an answer holds was built afresh by its handler, so it is identical to no
   * other value.
   */
  predicate StrictEq(a: Value, b: Value) {
    (a.Undefined? && b.Undefined?) || (a.Str? && b.Str? && a.s == b.s)
  }

  /** JavaScript truthiness: `undefined` and the empty string are falsy, objects are truthy. */
  predicate Truthy(v: Value) {
    match v
    case Undefined => false
    case Str(s) => s != ""
    case Obj(_) => true
  }

  datatype QuestionType = MultipleChoice | Matching | Unsupported

  datatype Question = Question(kind: QuestionType, text: string, correctAnswer: Value)

  /** `answers[index]`: a step without an entry reads `undefined`. */
  function AnswerAt(answers: map<int, Value>, index: int): Value {
    if index in answers then answers[index] else Undefined
  }

  /** The `correct` count over the first n questions: at most one per question. */
  function Correct(qs: seq<Question>, answers: map<int, Value>, n: nat): (c: nat)
    requires n <= |qs|
    ensures c <= n
  {
    if n == 0 then 0
    else Correct(qs, answers, n - 1) + (if StrictEq(AnswerAt(answers, n - 1), qs[n - 1].correctAnswer) then 1 else 0)
  }

  /** The count reaches n exactly when every one of the first n answers is strictly equal to its correct answer. */
  lemma {:induction false} CorrectBounds(qs: seq<Question>, answers: map<int, Value>, n: nat)
    requires n <= |qs|
    ensures Correct(qs, answers, n) == n <==> forall k :: 0 <= k < n ==> StrictEq(AnswerAt(answers, k), qs[k].correctAnswer)
  {
    if n > 0 {
      CorrectBounds(qs, answers, n - 1);
    }
  }

  /** A matching question whose correct answer is an object is never counted correct, whatever was selected. */
  lemma ObjectAnswersNeverCount(q: Question, answer: Value)
    requires q.correctAnswer.Obj?
    ensures !StrictEq(answer, q.correctAnswer)
  {
  }

  /** `checkAnswers`' `forEach` loop. */
  method CountCorrect(qs: seq<Question>, answers: map<int, Value>) returns (correct: nat)
    ensures correct == Correct(qs, answers, |qs|)
    ensures correct <= |qs|
  {
    correct := 0;
    var index := 0;
    while index < |qs|
      invariant index <= |qs|
      invariant correct == Correct(qs, answers, index)
    {
      if StrictEq(AnswerAt(answers, index), qs[index].correctAnswer) {
        correct := correct + 1;
      }
      index := index + 1;
    }
    CorrectBounds(qs, answers, |qs|);
  }

  const Mastered := "Great job! You've mastered this lesson!"
  const KeepPracticing := "Keep practicing! Try reviewing the material and attempt the quiz again."

  /** The feedback for a final score: mastery from 70 on. */
  function Feedback(finalScore: int): (f: string)
    ensures f == Mastered <==> finalScore >= 70
    ensures f == KeepPracticing <==> finalScore < 70
  {
    if finalScore >= 70 then Mastered else KeepPracticing
  }

  /** The final score: `Math.round((correct / total) * 100)`, in [0, 100] and 100 for all answers right. */
  lemma FinalScoreBounds(correct: nat, total: nat)
    requires 0 < total && correct <= total
    ensures 0 <= Percent.RoundedPercent(correct, total).value <= 100
    ensures correct == total ==> Percent.RoundedPercent(correct, total) == Some(100)
  {
    Percent.PercentBounds(correct, total);
  }

  /** `{ ...v }`: the own fields of an object, the characters of a string, nothing of `undefined`. */
  function Spread(v: Value): map<int, string> {
    match v
    case Undefined => map[]
    case Str(s) => map k | 0 <= k < |s| :: [s[k]]
    case Obj(fields) => fields
  }

  class Lesson {
    const questions: seq<Question>
    var currentStep: nat
    var answers: map<int, Value>
    /** `null` until Submit, then the final score. */
    var score: Option<int>
    var feedback: string
    /** Every score passed to `onComplete`, in order. */
    var reported: seq<int>

    /** The step is one of the questions (the page reads `questions[currentStep]`) and a score is a percentage. */
    ghost predicate Valid()
      reads this
    {
      && 0 < |questions|
      && currentStep < |questions|
      && (score.Some? ==> 0 <= score.value <= 100)
    }

    constructor(qs: seq<Question>)
      requires |qs| > 0
      ensures Valid()
      ensures questions == qs && currentStep == 0 && answers == map[] && score == None && feedback == "" && reported == []
    {
      questions := qs;
      currentStep := 0;
      answers := map[];
      score := None;
      feedback := "";
      reported := [];
    }

    /** `handleAnswer`: the answer is stored under the current step; every other step keeps its answer. */
    method HandleAnswer(answer: Value)
      modifies this
      requires Valid()
      ensures Valid()
      ensures answers == old(answers)[currentStep := answer]
      ensures AnswerAt(answers, currentStep) == answer
      ensures forall k :: k != currentStep ==> AnswerAt(answers, k) == AnswerAt(old(answers), k)
      ensures currentStep == old(currentStep) && score == old(score) && feedback == old(feedback) && reported == old(reported)
    {
      answers := answers[currentStep := answer];
    }

    /** A multiple-choice option is chosen: the step's answer is that option's text. */
    method ChooseOption(option: string)
      modifies this
      requires Valid()
      ensures Valid()
      ensures answers == old(answers)[currentStep := Str(option)]
      ensures currentStep == old(currentStep) && score == old(score) && feedback == old(feedback) && reported == old(reported)
    {
      HandleAnswer(Str(option));
    }

    /** A match is selected for pair `index`: a new object with the step's earlier selections and this one. */
    method SelectMatch(index: int, value: string)
      modifies this
      requires Valid()
      ensures Valid()
      ensures answers == old(answers)[currentStep := Obj(Spread(AnswerAt(old(answers), currentStep))[index := value])]
      ensures Truthy(AnswerAt(answers, currentStep))
      ensures currentStep == old(currentStep) && score == old(score) && feedback == old(feedback) && reported == old(reported)
    {
      var selections := Spread(AnswerAt(answers, currentStep));
      HandleAnswer(Obj(selections[index := value]));
    }

    /** Previous, shown only before the score and from step 1 on. */
    method Previous()
      modifies this
      requires Valid()
      ensures Valid()
      ensures old(score) == None && old(currentStep) > 0 ==> currentStep == old(currentStep) - 1
      ensures !(old(score) == None && old(currentStep) > 0) ==> currentStep == old(currentStep)
      ensures answers == old(answers) && score == old(score) && feedback == old(feedback) && reported == old(reported)
    {
      if score == None && currentStep > 0 {
        currentStep := currentStep - 1;
      }
    }

    /** Next, shown before the last step and enabled once the step's answer is truthy. */
    method Next()
      modifies this
      requires Valid()
      ensures Valid()
      ensures old(score) == None && old(currentStep) + 1 < |questions| && Truthy(AnswerAt(answers, old(currentStep))) ==>
                currentStep == old(currentStep) + 1
      ensures !(old(score) == None && old(currentStep) + 1 < |questions| && Truthy(AnswerAt(answers, old(currentStep)))) ==>
                currentStep == old(currentStep)
      ensures answers == old(answers) && score == old(score) && feedback == old(feedback) && reported == old(reported)
    {
      if score == None && currentStep < |questions| - 1 && Truthy(AnswerAt(answers, currentStep)) {
        currentStep := currentStep + 1;
      }
    }

    /**
     * Submit, shown at the last step and enabled once its answer is truthy: `checkAnswers`
     * sets the score and the feedback and reports the score.
     */
    method Submit()
      modifies this
      requires Valid()
      ensures Valid()
      ensures old(score) == None && old(currentStep) + 1 >= |questions| && Truthy(AnswerAt(answers, old(currentStep))) ==>
                && score == Percent.RoundedPercent(Correct(questions, answers, |questions|), |questions|)
                && feedback == Feedback(score.value)
                && reported == old(reported) + [score.value]
      ensures !(old(score) == None && old(currentStep) + 1 >= |questions| && Truthy(AnswerAt(answers, old(currentStep)))) ==>
                score == old(score) && feedback == old(feedback) && reported == old(reported)
      ensures answers == old(answers) && currentStep == old(currentStep)
    {
      if score != None || currentStep < |questions| - 1 || !Truthy(AnswerAt(answers, currentStep)) {
        return;
      }
      var correct := CountCorrect(questions, answers);
      FinalScoreBounds(correct, |questions|);
      var finalScore := Percent.RoundedPercent(correct, |questions|).value;
      score := Some(finalScore);
      feedback := Feedback(finalScore);
      reported := reported + [finalScore];
    }

    /** Try Again, shown with the score: no score, no answers, back to the first step. */
    method TryAgain()
      modifies this
      requires Valid()
      ensures Valid()
      ensures old(score).Some? ==> score == None && answers == map[] && currentStep == 0
      ensures old(score).None? ==> score == old(score) && answers == old(answers) && currentStep == old(currentStep)
      ensures feedback == old(feedback) && reported == old(reported)
    {
      if score.Some? {
        score := None;
        answers := map[];
        currentStep := 0;
      }
    }
  }
}
