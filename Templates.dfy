/**
 * The push-notification template engine: seven templates, each a total function from
 * the (all optional) template data to a title, body, icon, badge, link data and actions.
 */
module Templates {
  import opened Wrappers
  import opened Text

  datatype TemplateKind =
    | NewMessage | CourseProgress | Achievement | Reminder | Deadline | Quiz | WeeklyDigest

  /** `TemplateData`: every field may be missing. Numbers are modelled as integers. */
  datatype TemplateData = TemplateData(
    userName: Option<string>,
    courseName: Option<string>,
    lessonName: Option<string>,
    progress: Option<int>,
    daysInactive: Option<int>,
    achievementName: Option<string>,
    messageCount: Option<int>,
    senderName: Option<string>,
    deadline: Option<string>,
    score: Option<int>)

  datatype Action = Action(action: string, title: string, icon: string)

  /** The extra id field a template's `data` carries (`senderId`, `courseId`, …), if any. */
  datatype Reference = NoReference | Reference(key: string, value: Option<string>)

  /** The `data` record: where a click leads, the notification type, and the reference. */
  datatype LinkData = LinkData(url: string, kind: string, reference: Reference)

  datatype Template = Template(title: string, body: string, icon: string, badge: string, data: LinkData, actions: seq<Action>)

  /** How a template literal prints an optional string or number. */
  function Str(v: Option<string>): string {
    match v
    case None => "undefined"
    case Some(s) => s
  }

  function Num(v: Option<int>): string {
    match v
    case None => "undefined"
    case Some(n) => IntToString(n)
  }

  /** `v && v > t` for an optional number: a missing value and 0 are falsy. */
  predicate Above(v: Option<int>, t: int) {
    v.Some? && v.value != 0 && v.value > t
  }

  predicate AtLeast(v: Option<int>, t: int) {
    v.Some? && v.value != 0 && v.value >= t
  }

  function MoreSuffix(count: Option<int>): string {
    if Above(count, 1) then " (+" + IntToString(count.value - 1) + " more)" else ""
  }

  /** A title, a body and at least one action. */
  predicate Filled(t: Template) {
    |t.title| > 0 && |t.body| > 0 && |t.actions| > 0
  }

  function NewMessageTemplate(d: TemplateData): (t: Template)
    ensures Filled(t) && t.data.kind == TypeTag(NewMessage)
  {
    Template("New Message",
      Str(d.senderName) + " sent you a message" + MoreSuffix(d.messageCount),
      "/icons/message.png", "/icons/badge-message.png",
      LinkData("/messages", "message", Reference("senderId", d.senderName)),
      [Action("reply", "Reply", "/icons/reply.png"), Action("dismiss", "Dismiss", "/icons/dismiss.png")])
  }

  function CourseProgressTemplate(d: TemplateData): (t: Template)
    ensures Filled(t) && t.data.kind == TypeTag(CourseProgress)
  {
    Template("Learning Progress Update",
      "You've completed " + Num(d.progress) + "% of " + Str(d.courseName) + "! Keep up the great work!",
      "/icons/progress.png", "/icons/badge-progress.png",
      LinkData("/progress", "progress", Reference("courseId", d.courseName)),
      [Action("viewProgress", "View Progress", "/icons/view.png")])
  }

  function AchievementTemplate(d: TemplateData): (t: Template)
    ensures Filled(t) && t.data.kind == TypeTag(Achievement)
  {
    Template("Achievement Unlocked! \U{1F3C6}",
      "Congratulations! You've earned the \"" + Str(d.achievementName) + "\" badge.",
      "/icons/achievement.png", "/icons/badge-achievement.png",
      LinkData("/achievements", "achievement", Reference("achievementId", d.achievementName)),
      [Action("share", "Share", "/icons/share.png"), Action("viewAll", "View All", "/icons/view.png")])
  }

  const DailyReminder := "Time for your daily learning session!"

  function ReminderTemplate(d: TemplateData): (t: Template)
    ensures Filled(t) && t.data.kind == TypeTag(Reminder)
  {
    Template("Learning Reminder",
      if Above(d.daysInactive, 1)
      then "It's been " + IntToString(d.daysInactive.value) + " days since your last lesson. Ready to continue learning?"
      else DailyReminder,
      "/icons/reminder.png", "/icons/badge-reminder.png",
      LinkData("/learn", "reminder", NoReference),
      [Action("startLesson", "Start Lesson", "/icons/play.png"), Action("snooze", "Remind Later", "/icons/snooze.png")])
  }

  function DeadlineTemplate(d: TemplateData): (t: Template)
    ensures Filled(t) && t.data.kind == TypeTag(Deadline)
  {
    Template("Deadline Approaching",
      "The deadline for " + Str(d.lessonName) + " is " + Str(d.deadline) + ". Don't forget to complete it!",
      "/icons/deadline.png", "/icons/badge-deadline.png",
      LinkData("/lesson/" + Str(d.lessonName), "deadline", Reference("lessonId", d.lessonName)),
      [Action("startLesson", "Start Now", "/icons/play.png"), Action("dismiss", "Dismiss", "/icons/dismiss.png")])
  }

  const Praise := "Great job! \U{1F389}"
  const Encouragement := "Keep practicing to improve!"

  function QuizTemplate(d: TemplateData): (t: Template)
    ensures Filled(t) && t.data.kind == TypeTag(Quiz)
  {
    Template("Quiz Results",
      "You scored " + Num(d.score) + "% on " + Str(d.lessonName) + "! " + (if AtLeast(d.score, 80) then Praise else Encouragement),
      "/icons/quiz.png", "/icons/badge-quiz.png",
      LinkData("/lesson/" + Str(d.lessonName) + "/results", "quiz", Reference("lessonId", d.lessonName)),
      [Action("viewDetails", "View Details", "/icons/view.png"), Action("retry", "Try Again", "/icons/retry.png")])
  }

  function WeeklyDigestTemplate(d: TemplateData): (t: Template)
    ensures Filled(t) && t.data.kind == TypeTag(WeeklyDigest)
  {
    Template("Weekly Learning Summary",
      "Hi " + Str(d.userName) + "! Check out your learning progress this week.",
      "/icons/digest.png", "/icons/badge-digest.png",
      LinkData("/progress/weekly", "digest", NoReference),
      [Action("viewSummary", "View Summary", "/icons/view.png")])
  }

  /** The `type` each kind's link data is tagged with. */
  function TypeTag(kind: TemplateKind): string {
    match kind
    case NewMessage => "message"
    case CourseProgress => "progress"
    case Achievement => "achievement"
    case Reminder => "reminder"
    case Deadline => "deadline"
    case Quiz => "quiz"
    case WeeklyDigest => "digest"
  }

  /** `generateNotification`: the kind's template applied to the data; never an empty title or body. */
  function Generate(kind: TemplateKind, d: TemplateData): (t: Template)
    ensures Filled(t)
    ensures t.data.kind == TypeTag(kind)
  {
    match kind
    case NewMessage => NewMessageTemplate(d)
    case CourseProgress => CourseProgressTemplate(d)
    case Achievement => AchievementTemplate(d)
    case Reminder => ReminderTemplate(d)
    case Deadline => DeadlineTemplate(d)
    case Quiz => QuizTemplate(d)
    case WeeklyDigest => WeeklyDigestTemplate(d)
  }

  /** Different kinds are told apart by their type tag. */
  lemma TypeTagInjective(a: TemplateKind, b: TemplateKind)
    ensures TypeTag(a) == TypeTag(b) <==> a == b
  {
  }

  /** The new-message body ends in " (+k more)" exactly when more than one message is waiting, with k one less than the count. */
  lemma NewMessageMore(d: TemplateData)
    ensures EndsWith(Generate(NewMessage, d).body, " more)") <==> Above(d.messageCount, 1)
    ensures Above(d.messageCount, 1) ==>
              EndsWith(Generate(NewMessage, d).body, " (+" + IntToString(d.messageCount.value - 1) + " more)")
    ensures !Above(d.messageCount, 1) ==> EndsWith(Generate(NewMessage, d).body, " sent you a message")
  {
    var prefix := Str(d.senderName) + " sent you a message";
    var body := Generate(NewMessage, d).body;
    assert body == prefix + MoreSuffix(d.messageCount);
    if Above(d.messageCount, 1) {
      var tail := " (+" + IntToString(d.messageCount.value - 1) + " more)";
      EndsWithConcat(prefix, tail, tail);
      EndsWithConcat(prefix, tail, " more)");
      assert tail[|tail| - 6..] == " more)";
    } else {
      assert body == prefix;
      assert EndsWith(body, " sent you a message");
      assert body[|body| - 1] == 'e';
    }
  }

  /** The reminder names the day count exactly when more than one day has passed. */
  lemma ReminderPhrasing(d: TemplateData)
    ensures Generate(Reminder, d).body == DailyReminder <==> !Above(d.daysInactive, 1)
    ensures Above(d.daysInactive, 1) ==> Contains(Generate(Reminder, d).body, IntToString(d.daysInactive.value))
  {
    var body := Generate(Reminder, d).body;
    if Above(d.daysInactive, 1) {
      var n := IntToString(d.daysInactive.value);
      assert body[0] == 'I' != DailyReminder[0];
      var head := "It's been ";
      var tail := " days since your last lesson. Ready to continue learning?";
      assert body == head + n + tail;
      assert (head + n + tail)[|head|..|head| + |n|] == n;
      assert OccursAt(body, n, |head|);
    }
  }

  /** The quiz body praises exactly a truthy score of at least 80, and encourages otherwise. */
  lemma QuizEnding(d: TemplateData)
    ensures EndsWith(Generate(Quiz, d).body, Praise) <==> AtLeast(d.score, 80)
    ensures !AtLeast(d.score, 80) ==> EndsWith(Generate(Quiz, d).body, Encouragement)
  {
    var prefix := "You scored " + Num(d.score) + "% on " + Str(d.lessonName) + "! ";
    var body := Generate(Quiz, d).body;
    if AtLeast(d.score, 80) {
      assert body == prefix + Praise;
      EndsWithConcat(prefix, Praise, Praise);
    } else {
      assert body == prefix + Encouragement;
      EndsWithConcat(prefix, Encouragement, Encouragement);
      assert body[|body| - 1] == '!' != Praise[|Praise| - 1];
    }
  }

  /** The quiz results link is the deadline's lesson link followed by "/results"; both point below "/lesson/". */
  lemma LessonLinks(d: TemplateData)
    ensures Generate(Quiz, d).data.url == Generate(Deadline, d).data.url + "/results"
    ensures Generate(Deadline, d).data.url == "/lesson/" + Str(d.lessonName)
  {
  }

  /** A lesson link carries the lesson's name back: stripping the prefix recovers it. */
  lemma DeadlineLinkNamesLesson(d: TemplateData)
    requires d.lessonName.Some?
    ensures Generate(Deadline, d).data.url[|"/lesson/"|..] == d.lessonName.value
  {
    assert Generate(Deadline, d).data.url == "/lesson/" + d.lessonName.value;
  }
}
