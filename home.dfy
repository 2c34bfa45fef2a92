/** The home dashboard (src/screens/HomeScreen.tsx): read-only selections over the app data. */
module Home {
  import opened Wrappers
  import opened Data
  import opened Lists
  import Text
  import Stats
  import Progression

  predicate InProgress(c: Course) {
    c.completedLessons > 0 && c.completedLessons < c.lessonsCount
  }

  /** `nextEvent`: the first event in list order that has not been attended. */
  function NextEvent(events: seq<MedEvent>): (r: Option<MedEvent>)
    ensures r.Some? ==> r.value in events && !r.value.isAttended
    ensures r.Some? ==> exists i :: 0 <= i < |events| && events[i] == r.value && forall j :: 0 <= j < i ==> events[j].isAttended
    ensures r.None? <==> forall e :: e in events ==> e.isAttended
  {
    Find(events, Stats.NotAttended)
  }

  /** `activeCourse`: the first course that is started but not finished. */
  function ActiveCourse(courses: seq<Course>): (r: Option<Course>)
    ensures r.Some? ==> r.value in courses && 0 < r.value.completedLessons < r.value.lessonsCount
    ensures r.Some? ==> exists i :: 0 <= i < |courses| && courses[i] == r.value && forall j :: 0 <= j < i ==> !InProgress(courses[j])
    ensures r.None? <==> forall c :: c in courses ==> !InProgress(c)
  {
    Find(courses, InProgress)
  }

  /** There is no next event exactly when the attended counter equals the number of events. */
  lemma {:induction false} NoNextEventIffAllAttended(events: seq<MedEvent>)
    ensures NextEvent(events).None? <==> Stats.EventsAttended(events) == |events|
  {
    Stats.AttendedSplit(events);
    if NextEvent(events).None? {
      FilterKeepsNone(events, Stats.NotAttended);
    } else {
      var e := NextEvent(events).value;
      assert e in Filter(events, Stats.NotAttended);
    }
  }

  /** `demoAISummaries[0]`, absent for an empty list. */
  function LatestSummary(summaries: seq<AISummary>): (r: Option<AISummary>)
    ensures r.None? <==> summaries == []
    ensures r.Some? ==> r.value == summaries[0]
  {
    if summaries == [] then None else Some(summaries[0])
  }

  /** The summary card's badges: at most three key points, cut to 30 characters. */
  function KeyPointBadges(s: AISummary): (r: seq<string>)
    ensures |r| == if |s.keyPoints| < 3 then |s.keyPoints| else 3
    ensures forall i :: 0 <= i < |r| ==> |r[i]| <= 33 && r[i] == Take(s.keyPoints[i], 30) + "..."
  {
    Text.Badges(s.keyPoints, 3, 30)
  }

  /** The achievements strip: the first three achievements, in order. */
  function AchievementsPreview(d: Doctor): (r: seq<Achievement>)
    ensures |r| == if |d.achievements| < 3 then |d.achievements| else 3
    ensures r <= d.achievements
  {
    Take(d.achievements, 3)
  }

  /** The XP block: progress within the level and what is left of it. */
  datatype XpBar = XpBar(value: int, max: int, remaining: int)

  function RenderXpBar(xp: int): (b: XpBar)
    ensures b.max == 500 && b.value + b.remaining == b.max
    ensures xp >= 0 ==> 0 <= b.value < 500 && 1 <= b.remaining <= 500
    ensures b.value == Progression.CurrentLevelXP(xp)
  {
    XpBar(Progression.CurrentLevelXP(xp), 500, Progression.XpToNextLevel(xp))
  }

  /** The three stat cards: achievements, attended events, completed lessons. */
  datatype StatCards = StatCards(achievements: nat, eventsAttended: nat, lessonsCompleted: nat)

  function RenderStats(data: AppData): (s: StatCards)
    ensures s.achievements == |data.doctor.achievements|
    ensures s.eventsAttended == Stats.EventsAttended(data.events)
    ensures s.lessonsCompleted == Stats.LessonsCompleted(data.courses)
  {
    StatCards(|data.doctor.achievements|, Stats.EventsAttended(data.events), Stats.LessonsCompleted(data.courses))
  }

  /** The next-event card is highlighted and badged exactly when the user is registered. */
  datatype EventCard = EventCard(event: MedEvent, highlighted: bool, registeredBadge: bool)

  function RenderNextEvent(events: seq<MedEvent>): (r: Option<EventCard>)
    ensures r.Some? <==> NextEvent(events).Some?
    ensures r.Some? ==> r.value.event == NextEvent(events).value
    ensures r.Some? ==> r.value.highlighted == r.value.event.isRegistered && r.value.registeredBadge == r.value.event.isRegistered
  {
    match NextEvent(events)
    case None => None
    case Some(e) => Some(EventCard(e, e.isRegistered, e.isRegistered))
  }

  /** The tappable places on the dashboard that switch tabs. */
  datatype HomeLink = AllEventsLink | EventCardLink | ContinueLearningLink | CourseCardLink | AllAchievementsLink

  /** The tab each link asks `onNavigate` for. */
  function LinkTarget(l: HomeLink): (t: TabId)
    ensures t == Events <==> l == AllEventsLink || l == EventCardLink
    ensures t == Learn <==> l == ContinueLearningLink || l == CourseCardLink
    ensures t == Profile <==> l == AllAchievementsLink
  {
    match l
    case AllEventsLink => Events
    case EventCardLink => Events
    case ContinueLearningLink => Learn
    case CourseCardLink => Learn
    case AllAchievementsLink => Profile
  }

  /** A link is on screen only with its section: events with a next event, learning with an active course. */
  predicate LinkShown(data: AppData, l: HomeLink) {
    match l
    case AllEventsLink => NextEvent(data.events).Some?
    case EventCardLink => NextEvent(data.events).Some?
    case ContinueLearningLink => ActiveCourse(data.courses).Some?
    case CourseCardLink => ActiveCourse(data.courses).Some?
    case AllAchievementsLink => true
  }

  /** The dashboard never links to itself or to the community tab. */
  lemma LinksLeaveHome(l: HomeLink)
    ensures LinkTarget(l) != Home && LinkTarget(l) != Community
  {
  }
}
