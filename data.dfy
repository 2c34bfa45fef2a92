/**
 * The records the screens read (src/types/index.ts), restricted to the
 * fields the modelled logic uses. Dates are abstract ordered values (days),
 * so "is past" is an integer comparison against a given "now".
 */
module Data {
  import opened Wrappers

  /** The five top-level tabs. */
  datatype TabId = Home | Events | Learn | Community | Profile

  datatype Achievement = Achievement(id: string, title: string, xpReward: int)

  datatype Doctor = Doctor(
    id: string,
    firstName: string,
    lastName: string,
    specialization: string,
    photoUrl: Option<string>,
    rating: real,
    city: string,
    achievements: seq<Achievement>,
    xp: int)

  /** `MedEvent`; the optional `isAttended` is `false` when absent. */
  datatype MedEvent = MedEvent(
    id: string,
    title: string,
    date: int,
    city: string,
    maxParticipants: Option<nat>,
    registeredCount: int,
    isRegistered: bool,
    isAttended: bool,
    rating: Option<real>,
    tags: seq<string>)

  datatype Course = Course(
    id: string,
    title: string,
    lessonsCount: nat,
    completedLessons: nat,
    isLocked: bool,
    requiredXP: Option<int>)

  datatype AISummary = AISummary(id: string, eventId: string, title: string, keyPoints: seq<string>)

  datatype CommunityMember = CommunityMember(
    id: string,
    name: string,
    specialization: string,
    photoUrl: Option<string>,
    rating: real,
    city: string)

  /** Everything the data provider hands the screens. */
  datatype AppData = AppData(
    doctor: Doctor,
    events: seq<MedEvent>,
    courses: seq<Course>,
    summaries: seq<AISummary>,
    members: seq<CommunityMember>)
}
