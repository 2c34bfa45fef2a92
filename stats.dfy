/**
 * The counters shown on the home and profile screens
 * (src/screens/HomeScreen.tsx, src/screens/ProfileScreen.tsx); both screens
 * compute them the same way from the same read-only data.
 */
module Stats {
  import opened Data
  import opened Lists
  import Learn

  predicate Attended(e: MedEvent) { e.isAttended }
  predicate NotAttended(e: MedEvent) { !e.isAttended }
  predicate Finished(c: Course) { c.completedLessons == c.lessonsCount }

  function CompletedLessonsOf(c: Course): int { c.completedLessons }

  /** `events.filter(e => e.isAttended).length`. */
  function EventsAttended(events: seq<MedEvent>): (n: nat)
    ensures n <= |events|
    ensures n == 0 <==> forall e :: e in events ==> !e.isAttended
  {
    FilterEmptyIff(events, Attended);
    |Filter(events, Attended)|
  }

  /** `courses.filter(c => c.completedLessons === c.lessonsCount).length`. */
  function CoursesCompleted(courses: seq<Course>): (n: nat)
    ensures n <= |courses|
    ensures n == 0 <==> forall c :: c in courses ==> c.completedLessons != c.lessonsCount
  {
    FilterEmptyIff(courses, Finished);
    |Filter(courses, Finished)|
  }

  /** `courses.reduce((acc, c) => acc + c.completedLessons, 0)`. */
  function LessonsCompleted(courses: seq<Course>): (n: nat)
    ensures forall i :: 0 <= i < |courses| ==> n >= courses[i].completedLessons
  {
    if courses == [] then 0
    else courses[0].completedLessons + LessonsCompleted(courses[1..])
  }

  /** The running total is the library sum of the completed-lesson counts. */
  lemma {:induction false} LessonsCompletedIsSum(courses: seq<Course>)
    ensures LessonsCompleted(courses) == Sum(courses, CompletedLessonsOf)
  {
    if courses != [] {
      LessonsCompletedIsSum(courses[1..]);
    }
  }

  /** An event is either attended or counted as still to come: the two counts add up. */
  lemma AttendedSplit(events: seq<MedEvent>)
    ensures EventsAttended(events) + |Filter(events, NotAttended)| == |events|
  {
    FilterPartition(events, Attended, NotAttended);
  }

  predicate NotFinished(c: Course) { c.completedLessons != c.lessonsCount }

  /** A course is either finished or still has lessons to do: the two counts add up. */
  lemma CompletedSplit(courses: seq<Course>)
    ensures CoursesCompleted(courses) + |Filter(courses, NotFinished)| == |courses|
  {
    FilterPartition(courses, Finished, NotFinished);
  }

  predicate CanAdvance(courseId: string, c: Course) {
    c.id == courseId && c.completedLessons < c.lessonsCount
  }

  function CanAdvanceBy(courseId: string): Course -> bool {
    (c: Course) => CanAdvance(courseId, c)
  }

  /**
   * One lesson completion adds one lesson to the total for every course
   * with that id that is not yet at its cap, and nothing otherwise.
   */
  lemma {:induction false} CompletionAddsOne(courses: seq<Course>, courseId: string, lessonIndex: int)
    requires forall i :: 0 <= i < |courses| ==> courses[i].completedLessons <= courses[i].lessonsCount
    ensures LessonsCompleted(Learn.HandleCompleteLesson(courses, courseId, lessonIndex))
      == LessonsCompleted(courses) + |Filter(courses, CanAdvanceBy(courseId))|
  {
    if courses != [] {
      var after := Learn.HandleCompleteLesson(courses, courseId, lessonIndex);
      CompletionAddsOne(courses[1..], courseId, lessonIndex);
      assert after[1..] == Learn.HandleCompleteLesson(courses[1..], courseId, lessonIndex);
    }
  }
}
