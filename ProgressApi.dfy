/**
 * The lesson-progress route. POST marks a lesson completed for the signed-in user
 * and, once the user has a record for every lesson of the lesson's path, marks the
 * path completed too; GET lists the user's lesson records, optionally for one path.
 * The database tables are maps keyed by their unique key.
 */
module ProgressApi {
  import opened Wrappers
  import opened Http

  /** The unique keys `userId_lessonId` and `userId_learningPathId`. */
  datatype Key = Key(userId: string, id: string)

  datatype LessonProgress = LessonProgress(completed: bool, timeSpent: int, score: Option<real>)

  datatype PathProgress = PathProgress(completed: bool, completedAt: int)

  /** The JSON body: every field may be missing. */
  datatype ProgressBody = ProgressBody(lessonId: Option<string>, timeSpent: Option<int>, score: Option<real>)

  /** `timeSpent || 0`: a given time is stored as it is (0 stays 0), a missing one as 0. */
  function TimeSpent(body: ProgressBody): (t: int)
    ensures body.timeSpent.Some? ==> t == body.timeSpent.value
    ensures body.timeSpent.None? ==> t == 0
  {
    if body.timeSpent.Some? && body.timeSpent.value != 0 then body.timeSpent.value else 0
  }

  /** `score || null`: a missing score, and a score of 0, are stored as null. */
  function StoredScore(body: ProgressBody): (s: Option<real>)
    ensures s.None? <==> body.score.None? || body.score.value == 0.0
    ensures s.Some? ==> s == body.score
  {
    if body.score.Some? && body.score.value != 0.0 then body.score else None
  }

  /** What the upsert writes, on update and on create alike: a completed record with the body's time and score. */
  function Stored(body: ProgressBody): (r: LessonProgress)
    ensures r.completed
    ensures body.timeSpent.Some? ==> r.timeSpent == body.timeSpent.value
    ensures body.timeSpent.None? ==> r.timeSpent == 0
    ensures r.score.None? <==> body.score.None? || body.score.value == 0.0
    ensures r.score.Some? ==> r.score == body.score
  {
    LessonProgress(true, TimeSpent(body), StoredScore(body))
  }

  /** `lesson.learningPath.lessons`: the ids of the lessons of a path. */
  function PathLessons(lessons: map<string, string>, pathId: string): (ls: set<string>)
    ensures forall l :: l in ls <==> l in lessons && lessons[l] == pathId
  {
    set l | l in lessons && lessons[l] == pathId
  }

  /** The user's records among those lessons (`findMany` with `lessonId in`); the key makes each lesson count once. */
  function Recorded(progress: map<Key, LessonProgress>, lessons: map<string, string>, user: string, pathId: string): (ls: set<string>)
    ensures ls <= PathLessons(lessons, pathId)
    ensures forall l :: l in ls <==> l in PathLessons(lessons, pathId) && Key(user, l) in progress
  {
    set l | l in PathLessons(lessons, pathId) && Key(user, l) in progress
  }

  /**
   * `allLessonsCompleted`: the record count equals the path's lesson count, which is
   * the case exactly when the records cover the path's lessons.
   */
  predicate AllLessonsCompleted(progress: map<Key, LessonProgress>, lessons: map<string, string>, user: string, pathId: string)
    ensures AllLessonsCompleted(progress, lessons, user, pathId) <==> Recorded(progress, lessons, user, pathId) == PathLessons(lessons, pathId)
  {
    var r, p := Recorded(progress, lessons, user, pathId), PathLessons(lessons, pathId);
    SameSize(r, p);
    |r| == |p|
  }

  /** A subset has the size of the whole set exactly when it is the whole set. */
  lemma SameSize(a: set<string>, b: set<string>)
    requires a <= b
    ensures |a| == |b| <==> a == b
  {
    if |a| == |b| {
      SubsetOfSameSize(a, b);
    }
  }

  lemma {:induction false} SubsetSize(a: set<string>, b: set<string>)
    requires a <= b
    ensures |a| <= |b|
    decreases b
  {
    if a != {} {
      var y :| y in a;
      SubsetSize(a - {y}, b - {y});
    }
  }

  lemma SubsetOfSameSize(a: set<string>, b: set<string>)
    requires a <= b && |a| == |b|
    ensures a == b
  {
    if a != b {
      var x :| x in b && x !in a;
      SubsetSize(a, b - {x});
    }
  }

  /** The count test holds exactly when the user has a record for every lesson of the path. */
  lemma AllLessonsCompletedMeaning(progress: map<Key, LessonProgress>, lessons: map<string, string>, user: string, pathId: string)
    ensures AllLessonsCompleted(progress, lessons, user, pathId) <==>
              forall l :: l in lessons && lessons[l] == pathId ==> Key(user, l) in progress
  {
    var r := Recorded(progress, lessons, user, pathId);
    var p := PathLessons(lessons, pathId);
    if forall l :: l in lessons && lessons[l] == pathId ==> Key(user, l) in progress {
      assert r == p;
    }
  }

  /** The path-progress upsert: the key gets a completed record with the time of completion. */
  function CompletePath(paths: map<Key, PathProgress>, user: string, pathId: string, now: int): map<Key, PathProgress> {
    paths[Key(user, pathId) := PathProgress(true, now)]
  }

  /** The response of GET: the user's records, only those of the path's lessons when a (truthy) path id is given. */
  ghost predicate Listed(progress: map<Key, LessonProgress>, lessons: map<string, string>, user: string, pathId: Option<string>, k: Key) {
    k in progress && k.userId == user && (Truthy(pathId) ==> k.id in lessons && lessons[k.id] == pathId.value)
  }

  class ProgressStore {
    /** The lessons table: each lesson id with the id of its learning path. */
    const lessons: map<string, string>
    var lessonProgress: map<Key, LessonProgress>
    var pathProgress: map<Key, PathProgress>

    constructor(catalogue: map<string, string>, lessonRows: map<Key, LessonProgress>, pathRows: map<Key, PathProgress>)
      ensures lessons == catalogue && lessonProgress == lessonRows && pathProgress == pathRows
    {
      lessons := catalogue;
      lessonProgress := lessonRows;
      pathProgress := pathRows;
    }

    /**
     * POST: 401 without a signed-in user, 400 without a (truthy) lesson id, 404 for an
     * unknown lesson, all without writes. Otherwise the lesson's record for the user is
     * upserted as completed, and if the user now has a record for each lesson of the
     * lesson's path, the path's record is upserted as completed at `now`.
     */
    method Post(session: Option<string>, body: ProgressBody, now: int) returns (status: Status, record: Option<LessonProgress>)
      modifies this
      ensures !SignedIn(session) ==> status == Unauthorized
      ensures SignedIn(session) && !Truthy(body.lessonId) ==> status == BadRequest
      ensures SignedIn(session) && Truthy(body.lessonId) && body.lessonId.value !in lessons ==> status == NotFound
      ensures status != Ok ==> lessonProgress == old(lessonProgress) && pathProgress == old(pathProgress) && record == None
      ensures status == Ok <==> SignedIn(session) && Truthy(body.lessonId) && body.lessonId.value in lessons
      ensures status == Ok ==>
                var user := session.value;
                var pathId := lessons[body.lessonId.value];
                && record == Some(Stored(body))
                && lessonProgress == old(lessonProgress)[Key(user, body.lessonId.value) := Stored(body)]
                && (AllLessonsCompleted(lessonProgress, lessons, user, pathId) ==> pathProgress == CompletePath(old(pathProgress), user, pathId, now))
                && (!AllLessonsCompleted(lessonProgress, lessons, user, pathId) ==> pathProgress == old(pathProgress))
    {
      if !SignedIn(session) {
        return Unauthorized, None;
      }
      if !Truthy(body.lessonId) {
        return BadRequest, None;
      }
      var lessonId := body.lessonId.value;
      if lessonId !in lessons {
        return NotFound, None;
      }
      var user := session.value;
      var pathId := lessons[lessonId];
      lessonProgress := lessonProgress[Key(user, lessonId) := Stored(body)];
      if AllLessonsCompleted(lessonProgress, lessons, user, pathId) {
        pathProgress := CompletePath(pathProgress, user, pathId, now);
      }
      return Ok, Some(Stored(body));
    }

    /** GET: 401 without a signed-in user; otherwise exactly the user's records, restricted to the path when one is named. */
    function Get(session: Option<string>, learningPathId: Option<string>): (r: (Status, map<Key, LessonProgress>))
      reads this
      ensures !SignedIn(session) ==> r.0 == Unauthorized && r.1 == map[]
      ensures SignedIn(session) ==> r.0 == Ok
      ensures SignedIn(session) ==> forall k :: k in r.1 <==> Listed(lessonProgress, lessons, session.value, learningPathId, k)
      ensures forall k :: k in r.1 ==> k in lessonProgress && r.1[k] == lessonProgress[k]
    {
      if !SignedIn(session) then (Unauthorized, map[])
      else
        var user := session.value;
        (Ok, map k | k in lessonProgress && k.userId == user && (Truthy(learningPathId) ==> k.id in lessons && lessons[k.id] == learningPathId.value) :: lessonProgress[k])
    }
  }

  /** A POST writes only the session user's record of that one lesson and that user's record of the lesson's path. */
  lemma PostTouchesOnlyItsKeys(
    oldLessons: map<Key, LessonProgress>, newLessons: map<Key, LessonProgress>,
    oldPaths: map<Key, PathProgress>, newPaths: map<Key, PathProgress>,
    user: string, lessonId: string, pathId: string, body: ProgressBody, now: int, k: Key)
    requires newLessons == oldLessons[Key(user, lessonId) := Stored(body)]
    requires newPaths == oldPaths || newPaths == CompletePath(oldPaths, user, pathId, now)
    ensures k != Key(user, lessonId) ==> (k in newLessons <==> k in oldLessons) && (k in oldLessons ==> newLessons[k] == oldLessons[k])
    ensures k != Key(user, pathId) ==> (k in newPaths <==> k in oldPaths) && (k in oldPaths ==> newPaths[k] == oldPaths[k])
  {
  }

  /**
   * Completing the last unrecorded lesson of a path completes the path: when every
   * other lesson of the path already has a record, the POST's count test passes.
   */
  lemma LastLessonCompletesPath(progress: map<Key, LessonProgress>, lessons: map<string, string>, user: string, lessonId: string, body: ProgressBody)
    requires lessonId in lessons
    requires forall l :: l in lessons && lessons[l] == lessons[lessonId] && l != lessonId ==> Key(user, l) in progress
    ensures AllLessonsCompleted(progress[Key(user, lessonId) := Stored(body)], lessons, user, lessons[lessonId])
  {
    AllLessonsCompletedMeaning(progress[Key(user, lessonId) := Stored(body)], lessons, user, lessons[lessonId]);
  }

  /** A path with a lesson the user has no record of is not completed by a POST for another lesson. */
  lemma MissingLessonKeepsPathOpen(progress: map<Key, LessonProgress>, lessons: map<string, string>, user: string, lessonId: string, other: string, body: ProgressBody)
    requires lessonId in lessons && other in lessons && lessons[other] == lessons[lessonId]
    requires other != lessonId && Key(user, other) !in progress
    ensures !AllLessonsCompleted(progress[Key(user, lessonId) := Stored(body)], lessons, user, lessons[lessonId])
  {
    AllLessonsCompletedMeaning(progress[Key(user, lessonId) := Stored(body)], lessons, user, lessons[lessonId]);
  }
}
