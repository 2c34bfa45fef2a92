/** The learning screen's logic (src/screens/LearnScreen.tsx). */
module Learn {
  import opened Wrappers
  import opened Data
  import Lists
  import JsOps
  import Text

  /** `course.requiredXP || 0`. */
  function RequiredXP(c: Course): (r: int)
    ensures c.requiredXP.Some? ==> r == c.requiredXP.value
    ensures c.requiredXP.None? ==> r == 0
  {
    c.requiredXP.GetOr(0)
  }

  /** A course is closed to the user only when it is flagged locked AND the user's XP is below its requirement. */
  predicate CourseLocked(c: Course, userXP: int) {
    c.isLocked && userXP < RequiredXP(c)
  }

  /** "Наберите ещё N XP": what a locked course still asks for. */
  function XpShortfall(c: Course, userXP: int): (r: int)
    requires CourseLocked(c, userXP)
    ensures r > 0
    ensures userXP + r == RequiredXP(c)
  {
    RequiredXP(c) - userXP
  }

  /** The user's XP reaching the shortfall unlocks the course, and nothing less does. */
  lemma ShortfallIsExact(c: Course, userXP: int, gain: int)
    requires CourseLocked(c, userXP)
    ensures CourseLocked(c, userXP + gain) <==> gain < XpShortfall(c, userXP)
  {
  }

  /** Tapping a course card in the list: a locked course opens nothing. */
  function OpenCourse(selected: Option<Course>, c: Course, userXP: int): (r: Option<Course>)
    ensures CourseLocked(c, userXP) ==> r == selected
    ensures !CourseLocked(c, userXP) ==> r == Some(c)
  {
    if CourseLocked(c, userXP) then selected else Some(c)
  }

  /** The progress block on a list card is drawn only for a started, open course. */
  predicate ShowsCardProgress(c: Course, userXP: int) {
    c.completedLessons > 0 && !CourseLocked(c, userXP)
  }

  /** One lesson completed, never past the lesson count. */
  function CompleteOne(c: Course): (r: Course)
    ensures r.completedLessons == JsOps.Min(c.completedLessons + 1, c.lessonsCount)
    ensures r.(completedLessons := c.completedLessons) == c
  {
    c.(completedLessons := if c.completedLessons + 1 <= c.lessonsCount then c.completedLessons + 1 else c.lessonsCount)
  }

  /** Completing a lesson keeps the count within the course and moves it by at most one. */
  lemma CompleteOneBounds(c: Course)
    requires c.completedLessons <= c.lessonsCount
    ensures c.completedLessons <= CompleteOne(c).completedLessons <= c.lessonsCount
    ensures CompleteOne(c).completedLessons == c.completedLessons <==> c.completedLessons == c.lessonsCount
  {
  }

  /** `handleCompleteLesson(courseId, lessonIndex)`: the index is not used. */
  function HandleCompleteLesson(courses: seq<Course>, courseId: string, lessonIndex: int): (r: seq<Course>)
    ensures |r| == |courses|
    ensures forall i :: 0 <= i < |courses| && courses[i].id != courseId ==> r[i] == courses[i]
    ensures forall i :: 0 <= i < |courses| && courses[i].id == courseId ==> r[i] == CompleteOne(courses[i])
  {
    if courses == [] then []
    else
      var head := if courses[0].id == courseId then CompleteOne(courses[0]) else courses[0];
      [head] + HandleCompleteLesson(courses[1..], courseId, lessonIndex)
  }

  /** `k` completions of the same course. */
  function CompleteRepeatedly(courses: seq<Course>, courseId: string, k: nat): (r: seq<Course>)
    ensures |r| == |courses|
  {
    if k == 0 then courses else HandleCompleteLesson(CompleteRepeatedly(courses, courseId, k - 1), courseId, 0)
  }

  /** After `k` taps a course has `min(done + k, count)` lessons, and no other course changed. */
  lemma {:induction false} RepeatedCompletion(courses: seq<Course>, courseId: string, k: nat)
    ensures forall i :: 0 <= i < |courses| && courses[i].id == courseId && courses[i].completedLessons <= courses[i].lessonsCount ==>
      CompleteRepeatedly(courses, courseId, k)[i] ==
        courses[i].(completedLessons := JsOps.Min(courses[i].completedLessons + k, courses[i].lessonsCount))
    ensures forall i :: 0 <= i < |courses| && courses[i].id != courseId ==>
      CompleteRepeatedly(courses, courseId, k)[i] == courses[i]
  {
    if k > 0 {
      RepeatedCompletion(courses, courseId, k - 1);
      var prev := CompleteRepeatedly(courses, courseId, k - 1);
      forall i | 0 <= i < |courses| && courses[i].id == courseId && courses[i].completedLessons <= courses[i].lessonsCount
        ensures CompleteRepeatedly(courses, courseId, k)[i] ==
          courses[i].(completedLessons := JsOps.Min(courses[i].completedLessons + k, courses[i].lessonsCount))
      {
        assert prev[i].id == courseId;
      }
    }
  }

  /** The three states of a lesson row, decided by the open course's completed count. */
  datatype LessonState = Completed | Current | LockedLesson

  predicate LessonIsLocked(index: nat, completed: nat) { index > completed }
  predicate LessonIsCompleted(index: nat, completed: nat) { index < completed }
  predicate LessonIsCurrent(index: nat, completed: nat) { index == completed }

  function LessonStateOf(index: nat, completed: nat): (s: LessonState)
    ensures s == Completed <==> LessonIsCompleted(index, completed)
    ensures s == Current <==> LessonIsCurrent(index, completed)
    ensures s == LockedLesson <==> LessonIsLocked(index, completed)
  {
    if index < completed then Completed
    else if index == completed then Current
    else LockedLesson
  }

  /** Among the rows at most one is current: the one whose index equals the completed count, if there is such a row. */
  lemma CurrentRowUnique(rows: nat, completed: nat, i: nat, j: nat)
    requires i < rows && j < rows
    requires LessonStateOf(i, completed) == Current && LessonStateOf(j, completed) == Current
    ensures i == j
  {
  }

  datatype Lesson = Lesson(id: string, title: string, minutes: nat)

  /** `getLessons(courseId)`: the same six lessons whichever course is open. */
  function GetLessons(courseId: string): (r: seq<Lesson>)
    ensures |r| == 6
    ensures forall i :: 0 <= i < |r| ==> r[i].minutes > 0
  {
    [ Lesson("1", "Введение в тему", 15),
      Lesson("2", "Основные понятия", 20),
      Lesson("3", "Диагностика", 25),
      Lesson("4", "Современные методы лечения", 30),
      Lesson("5", "Клинические случаи", 35),
      Lesson("6", "Тестирование", 15) ]
  }

  /**
   * Tapping lesson row `index` of the open course: a locked row does nothing,
   * any other row (done or current) completes one more lesson of the course
   * in the list. The open course itself is a snapshot and is not updated.
   */
  function TapLesson(courses: seq<Course>, selected: Course, index: nat): (r: seq<Course>)
    ensures LessonIsLocked(index, selected.completedLessons) ==> r == courses
    ensures !LessonIsLocked(index, selected.completedLessons) ==> r == HandleCompleteLesson(courses, selected.id, index)
  {
    if LessonIsLocked(index, selected.completedLessons) then courses
    else HandleCompleteLesson(courses, selected.id, index)
  }

  /** "Курс завершён!": the progress ratio is exactly 100 per cent. */
  predicate CourseFinished(c: Course) {
    c.lessonsCount > 0 && c.completedLessons == c.lessonsCount
  }

  /** Once finished, more completions leave the course as it is. */
  lemma FinishedIsStable(courses: seq<Course>, courseId: string, index: int, i: nat)
    requires i < |courses| && courses[i].id == courseId && CourseFinished(courses[i])
    ensures HandleCompleteLesson(courses, courseId, index)[i] == courses[i]
  {
  }

  /** The summary cards on the learning screen show two key points, cut to 25 characters. */
  function SummaryBadges(s: AISummary): (r: seq<string>)
    ensures |r| == if |s.keyPoints| < 2 then |s.keyPoints| else 2
    ensures forall i :: 0 <= i < |r| ==> |r[i]| <= 28 && r[i] == Lists.Take(s.keyPoints[i], 25) + "..."
  {
    Text.Badges(s.keyPoints, 2, 25)
  }
}
