/** The profile screen's figures (src/screens/ProfileScreen.tsx). */
module Profile {
  import opened Data
  import Stats
  import Progression

  /** The level header and the four statistic tiles. */
  datatype ProfileView = ProfileView(
    level: int,
    currentLevelXP: int,
    xpToNextLevel: int,
    nextLevel: int,
    eventsAttended: nat,
    coursesCompleted: nat,
    lessonsCompleted: nat,
    summariesReceived: nat,
    achievements: nat)

  function Render(data: AppData): (v: ProfileView)
    ensures v.level == Progression.Level(data.doctor.xp)
    ensures v.currentLevelXP == Progression.CurrentLevelXP(data.doctor.xp)
    ensures v.xpToNextLevel + v.currentLevelXP == Progression.XpPerLevel
    ensures v.nextLevel == v.level + 1
    ensures v.eventsAttended == Stats.EventsAttended(data.events) && v.eventsAttended <= |data.events|
    ensures v.coursesCompleted == Stats.CoursesCompleted(data.courses) && v.coursesCompleted <= |data.courses|
    ensures v.lessonsCompleted == Stats.LessonsCompleted(data.courses)
    ensures v.summariesReceived == |data.summaries| && v.achievements == |data.doctor.achievements|
  {
    var xp := data.doctor.xp;
    ProfileView(
      Progression.Level(xp), Progression.CurrentLevelXP(xp), Progression.XpToNextLevel(xp), Progression.NextLevelLabel(xp),
      Stats.EventsAttended(data.events), Stats.CoursesCompleted(data.courses), Stats.LessonsCompleted(data.courses),
      |data.summaries|, |data.doctor.achievements|)
  }

  /** For non-negative XP the level figures recompose the XP and the gap is within one level. */
  lemma LevelFiguresConsistent(data: AppData)
    requires data.doctor.xp >= 0
    ensures var v := Render(data);
            (v.level - 1) * 500 + v.currentLevelXP == data.doctor.xp && 1 <= v.xpToNextLevel <= 500 && v.level >= 1
  {
    Progression.LevelDecomposition(data.doctor.xp);
  }
}
