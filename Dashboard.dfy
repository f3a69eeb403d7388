/**
 * The progress dashboard's figures: paths and lessons completed, the total number of
 * lessons, the average score and each path's completion percentage, all read from
 * the first progress record of a path or a lesson.
 */
module ProgressDashboard {
  import opened Wrappers
  import LearningPaths

  /** A lesson progress record: `completed`, and `score`, a nullable float (`null` as None). */
  datatype LessonRecord = LessonRecord(completed: bool, score: Option<real>)

  datatype Lesson = Lesson(id: string, title: string, progress: seq<LessonRecord>)

  /** A path with the `completed` flag of each of its path-progress records and its lessons. */
  datatype Path = Path(id: string, title: string, progress: seq<bool>, lessons: seq<Lesson>)

  /** `lesson.progress[0]?.completed`. */
  predicate LessonCompleted(l: Lesson) {
    |l.progress| > 0 && l.progress[0].completed
  }

  /** `completedPaths`: the paths whose first path-progress record is completed. */
  function CompletedPaths(paths: seq<Path>): (n: nat)
    ensures n <= |paths|
  {
    if paths == [] then 0
    else CompletedPaths(paths[..|paths| - 1]) + (if LearningPaths.FirstCompleted(paths[|paths| - 1].progress) then 1 else 0)
  }

  /** The lessons whose first record is completed, within one path. */
  function CompletedIn(lessons: seq<Lesson>): (n: nat)
    ensures n <= |lessons|
  {
    if lessons == [] then 0
    else CompletedIn(lessons[..|lessons| - 1]) + (if LessonCompleted(lessons[|lessons| - 1]) then 1 else 0)
  }

  /** `totalLessons`: the lesson counts of all paths added up; it is 0 exactly when no path has a lesson. */
  function TotalLessons(paths: seq<Path>): (t: nat)
    ensures forall k :: 0 <= k < |paths| ==> |paths[k].lessons| <= t
    ensures t == 0 <==> forall k :: 0 <= k < |paths| ==> paths[k].lessons == []
  {
    if paths == [] then 0
    else
      var init := paths[..|paths| - 1];
      assert forall k :: 0 <= k < |init| ==> init[k] == paths[k];
      TotalLessons(init) + |paths[|paths| - 1].lessons|
  }

  /** `completedLessons`: the completed lessons of all paths added up, never more than there are. */
  function CompletedLessons(paths: seq<Path>): (c: nat)
    ensures c <= TotalLessons(paths)
  {
    if paths == [] then 0 else CompletedLessons(paths[..|paths| - 1]) + CompletedIn(paths[|paths| - 1].lessons)
  }

  /** All lessons are completed exactly when each path's lessons all are. */
  lemma {:induction false} CompletedLessonsBounded(paths: seq<Path>)
    ensures CompletedLessons(paths) == TotalLessons(paths) <==>
              forall k :: 0 <= k < |paths| ==> CompletedIn(paths[k].lessons) == |paths[k].lessons|
  {
    if paths != [] {
      var init := paths[..|paths| - 1];
      CompletedLessonsBounded(init);
      assert forall k :: 0 <= k < |init| ==> init[k] == paths[k];
    }
  }

  /** A path counts as completed on the dashboard exactly when the path list shows it at 100. */
  lemma CompletedAgreesWithList(p: Path)
    ensures LearningPaths.FirstCompleted(p.progress) <==> LearningPaths.DisplayedProgress(p.progress) == 100
  {
  }

  /**
   * `pathScores`: the first record's score of each lesson that has a record (a lesson
   * without one gives `undefined`, which is dropped); a `null` score is kept and adds 0.
   */
  function PathScores(lessons: seq<Lesson>): (scores: seq<real>)
    ensures |scores| <= |lessons|
  {
    if lessons == [] then []
    else
      var l := lessons[|lessons| - 1];
      PathScores(lessons[..|lessons| - 1]) + (if |l.progress| > 0 then [l.progress[0].score.GetOr(0.0)] else [])
  }

  function Sum(xs: seq<real>): real {
    if xs == [] then 0.0 else Sum(xs[..|xs| - 1]) + xs[|xs| - 1]
  }

  /** The per-path mean added to the accumulator, or nothing for a path without scores. */
  function PathMean(lessons: seq<Lesson>): real {
    var scores := PathScores(lessons);
    if |scores| > 0 then Sum(scores) / (|scores| as real) else 0.0
  }

  function SumOfMeans(paths: seq<Path>): real {
    if paths == [] then 0.0 else SumOfMeans(paths[..|paths| - 1]) + PathMean(paths[|paths| - 1].lessons)
  }

  /** `averageScore`: the per-path means added up and divided by the number of paths, or by 1 when there are none. */
  function AverageScore(paths: seq<Path>): (a: real)
    ensures paths == [] ==> a == 0.0
    ensures paths != [] ==> a * (|paths| as real) == SumOfMeans(paths)
  {
    SumOfMeans(paths) / (if |paths| == 0 then 1.0 else |paths| as real)
  }

  /** Scores of every lesson record lie in [0, 100]. */
  ghost predicate ScoresInRange(paths: seq<Path>) {
    forall k, j, r :: 0 <= k < |paths| && 0 <= j < |paths[k].lessons| && 0 <= r < |paths[k].lessons[j].progress| ==>
      var s := paths[k].lessons[j].progress[r].score;
      s.Some? ==> 0.0 <= s.value <= 100.0
  }

  lemma {:induction false} ScoresOfLessonsInRange(lessons: seq<Lesson>)
    requires forall j, r :: 0 <= j < |lessons| && 0 <= r < |lessons[j].progress| ==>
               var s := lessons[j].progress[r].score; s.Some? ==> 0.0 <= s.value <= 100.0
    ensures forall i :: 0 <= i < |PathScores(lessons)| ==> 0.0 <= PathScores(lessons)[i] <= 100.0
  {
    if lessons != [] {
      ScoresOfLessonsInRange(lessons[..|lessons| - 1]);
    }
  }

  lemma {:induction false} SumInRange(xs: seq<real>)
    requires forall i :: 0 <= i < |xs| ==> 0.0 <= xs[i] <= 100.0
    ensures 0.0 <= Sum(xs) <= 100.0 * (|xs| as real)
  {
    if xs != [] {
      SumInRange(xs[..|xs| - 1]);
    }
  }

  /** A mean of scores in [0, 100] lies in [0, 100]. */
  lemma MeanInRange(lessons: seq<Lesson>)
    requires forall j, r :: 0 <= j < |lessons| && 0 <= r < |lessons[j].progress| ==>
               var s := lessons[j].progress[r].score; s.Some? ==> 0.0 <= s.value <= 100.0
    ensures 0.0 <= PathMean(lessons) <= 100.0
  {
    var scores := PathScores(lessons);
    if |scores| > 0 {
      ScoresOfLessonsInRange(lessons);
      SumInRange(scores);
      QuotientInRange(Sum(scores), |scores| as real);
    }
  }

  /** A total of at most 100 per item, divided by the number of items, lies in [0, 100]. */
  lemma QuotientInRange(total: real, n: real)
    requires n > 0.0 && 0.0 <= total <= 100.0 * n
    ensures 0.0 <= total / n <= 100.0
  {
    var q := total / n;
    assert q * n == total;
    assert (q - 100.0) * n <= 0.0;
  }

  lemma {:induction false} SumOfMeansInRange(paths: seq<Path>)
    requires ScoresInRange(paths)
    ensures 0.0 <= SumOfMeans(paths) <= 100.0 * (|paths| as real)
  {
    if paths != [] {
      var init := paths[..|paths| - 1];
      assert forall k :: 0 <= k < |init| ==> init[k] == paths[k];
      SumOfMeansInRange(init);
      MeanInRange(paths[|paths| - 1].lessons);
    }
  }

  /** With every score in [0, 100] the average score lies in [0, 100] too. */
  lemma AverageInRange(paths: seq<Path>)
    requires ScoresInRange(paths)
    ensures 0.0 <= AverageScore(paths) <= 100.0
  {
    SumOfMeansInRange(paths);
  }

  /**
   * The per-path percentage `(completedLessonsCount / lessons.length) * 100`; a path
   * without lessons divides 0 by 0, which is NaN (None).
   */
  function PathPercentage(lessons: seq<Lesson>): (p: Option<real>)
    ensures p.None? <==> lessons == []
    ensures p.Some? ==> 0.0 <= p.value <= 100.0
    ensures p.Some? ==> (p.value == 100.0 <==> CompletedIn(lessons) == |lessons|)
  {
    if lessons == [] then None
    else
      var c := CompletedIn(lessons) as real;
      var n := |lessons| as real;
      PercentOf(c, n);
      Some(c * 100.0 / n)
  }

  /** A count out of a positive total, as a percentage: within [0, 100], and 100 only for the whole total. */
  lemma PercentOf(c: real, n: real)
    requires 0.0 <= c <= n && n > 0.0
    ensures 0.0 <= c * 100.0 / n <= 100.0
    ensures c * 100.0 / n == 100.0 <==> c == n
  {
    QuotientInRange(c * 100.0, n);
    var q := c * 100.0 / n;
    assert q * n == c * 100.0;
  }
}
