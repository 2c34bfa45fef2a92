# Medical-education Telegram Mini App: a Dafny model of its core

The application is a Telegram Mini App for doctors. A bottom tab bar
switches between five screens:

- Главная: a dashboard.
- События: medical events, with registration.
- Обучение: courses made of lessons, some of them locked behind an XP threshold.
- Врачи: a community leaderboard with search and a specialization filter.
- Профиль: the doctor's level and statistics.

The app talks to the Telegram host through a thin bridge (`src/lib/telegram.ts`).
That bridge signals readiness, asks for fullscreen, colours the header and drives
the host's back button, main button and haptic feedback.

This project models that core in Dafny and proves properties of the model.

- **Host bridge** (`telegram.dfy`). The host is a `WebApp` object whose only
  state is the log of calls the app made on it. What the user would see is a
  function of that log:
  - whether a button is visible;
  - the main button's text and progress indicator;
  - the list of click callbacks the host holds.

  The bridge's helpers are methods that append to the log. A missing host is a
  `null` `WebApp?`.
- **Root and navigation** (`app.dfy`, `navigation.dfy`). `App.MiniApp` is a
  class holding:
  - the active tab;
  - the mounted screen's local state (filter, selected event and event list on
    the events screen; selected course and course list on the learning screen;
    search query and chip on the community screen);
  - a counter of back-button callbacks created so far.

  Every operation a user can trigger is a method: tap a tab, tap a dashboard
  link, open an event, register, press the host's back button, open a course,
  complete a lesson, search, tap a chip. Each one keeps an invariant tying the
  host's back button to the screen state. `scenarios.dfy` drives the class
  through concrete sessions and states the exact host log they produce.
- **Screen logic**:
  - `events.dfy`: filtering by date and registration, the registration toggle,
    the detail's action button;
  - `learn.dfy`: locking, lesson completion capped at the lesson count, lesson
    row classification;
  - `community.dfy`: the leaderboard sort, filters, rows and podium;
  - `home.dfy`: dashboard selections and links;
  - `profile.dfy`, `progression.dfy`, `stats.dfy`: level arithmetic and counters;
  - `ui.dfy`: the shared Card, Button, Avatar and StarRating components.
- **JavaScript built-ins** (`lists.dfy`, `text.dfy`, `jsops.dfy`):
  - `Array.prototype.filter`, `find`, `slice` and `reduce`;
  - `String.prototype.includes`, `split(' ')`, `toLowerCase` and `toUpperCase`;
  - the `%` operator, which truncates toward zero;
  - `Math.min`.

## How the code behaves

Where the code's behaviour may surprise a reader, the model follows the
code. The main cases:

- **Back-button callbacks accumulate.** `backButton.show` registers a fresh
  closure with `BackButton.onClick` every time the events screen's effect runs.
  No code ever calls `offClick`.
  - Every open of an event's detail adds one more callback to the host, and so
    does every registration toggle inside the detail. A toggle replaces
    `selectedEvent` with a new object, so the effect runs again.
  - A back press makes the host run all of them. With `k` callbacks created so
    far, one press gives `k` light haptic impacts, then `k` identical
    "deselect" updates. The model applies that update once.
  - `App.MiniApp.Valid` states that the host holds exactly the callbacks
    `0 … nextHandler-1`. `Scenarios.TwoVisitsThenBack` and
    `Scenarios.RegisterThenBack` show the second press firing two haptics.
    Their logs are written with `App.ShowCalls(h)` (one run of the back-button
    effect: the cleanup's hide, then registering callback `h` and showing the
    button) and `App.LightTaps(k)` (one press with `k` callbacks held).
- **`initTelegram` has no guard.** Mounting the root twice repeats the whole
  initialisation sequence (`Telegram.InitTwiceRepeats`, `Scenarios.MountTwice`).
- **Re-tapping the active tab** fires the selection haptic but leaves the
  screen mounted with its local state. An open event detail stays open and
  keeps the back button (`Scenarios.ReselectKeepsDetail`).
- **Leaving the events screen with the detail open** hides the back button
  (effect cleanup). The host keeps the callback (`Scenarios.LeaveWithDetailOpen`).
- **The detail's participant count goes stale.** Registering from the detail
  updates `registeredCount` in the list but only `isRegistered` in the
  displayed snapshot (`Events.DetailCountGoesStale`).
- **The learning screen's open course is a snapshot.** Completing a lesson
  updates the course list, not `selectedCourse`. The lesson rows and the
  progress bar go on showing the old count until the course is reopened
  (`App.MiniApp.TapLesson`).
  - The lesson list is the same six fixed lessons for every course.
  - The tapped lesson's index is ignored: any unlocked row completes exactly
    one more lesson, capped at the course's lesson count.
- **The dashboard and profile read the static demo data.** They never read the
  events or learning screens' state, so their figures ignore registrations and
  completions made in the session. The model gives them the initial `AppData`.
- **Level arithmetic with negative XP.** The level shown is
  `Math.floor(xp / 500) + 1` and the XP within the level is `xp % 500`, which
  truncates toward zero. For a negative XP the two no longer recompose
  (`Progression.NegativeXpBreaksDecomposition`). XP is never negative in the
  data, and the level lemmas assume `xp >= 0`.

The host's own behaviour is not in the repository. The model assumes:

- a button's visibility is the effect of the latest `show`/`hide`, and a
  button starts hidden;
- `onClick` of a callback the button already holds does nothing;
- `offClick` removes the callback;
- the host runs callbacks in registration order.

An empty string `src` or `highlighted` behaves as JavaScript truthiness says.
`renderScreen`'s `default` branch cannot be reached, because `TabId` is a
closed enumeration.

## Model

| member | source | states |
|---|---|---|
| Telegram.WebApp.constructor | src/lib/telegram.ts:11-79 | A fresh host has the given optional capabilities and user, and no calls made on it yet |
| Telegram.DocumentBody.constructor | src/lib/telegram.ts:106 | The document body starts with the given set of classes |
| Telegram.HandlersRegister | src/lib/telegram.ts:31-37 | Registering a callback with `onClick` adds it at the end of the button's callbacks unless the button already holds it |
| Telegram.InitCallsShape | src/lib/telegram.ts:97-116 | The initialisation sequence starts with ready then expand and ends with the two theme colours. It requests fullscreen exactly when the host supports it, and that request comes third. It disables vertical swipes exactly when supported. It never touches a button |
| Telegram.InitTelegram | src/lib/telegram.ts:90-127 | Without a host nothing happens. With a host, the log gains exactly the initialisation sequence, and the body gains `tg-fullscreen` exactly when fullscreen is supported |
| Telegram.InitTwiceRepeats | src/lib/telegram.ts:90-127 | Initialising twice issues the whole sequence twice: nothing makes the second call a no-op |
| Telegram.BackButtonShow | src/lib/telegram.ts:131-137 | With a host, the callback is registered and the back button shown, in that order. Afterwards the button is visible, its callbacks gain the new one (unless already held), and the main button's callbacks are unchanged |
| Telegram.BackButtonHide | src/lib/telegram.ts:139-144 | With a host, the back button becomes hidden and no button's callbacks change |
| Telegram.BackButtonIsVisible | src/lib/telegram.ts:146-149 | The result is false without a host, otherwise the back button's current visibility |
| Telegram.MainButtonShow | src/lib/telegram.ts:154-161 | With a host, the text is set, the callback registered and the button shown, in that order. The button is then visible with that text and holds the callback; the progress indicator and the back button's callbacks are unchanged |
| Telegram.MainShowEffect | src/lib/telegram.ts:154-161 | After `mainButton.show`'s three calls the button is visible with the given text and holds the callback; the progress indicator and the back button's callbacks are as before |
| Telegram.MainShowHandlers | src/lib/telegram.ts:154-161 | `mainButton.show` adds its callback to the main button and leaves the back button's callbacks unchanged |
| Telegram.MainButtonHide | src/lib/telegram.ts:163-168 | With a host, the main button becomes hidden; its text and progress indicator are unchanged |
| Telegram.MainButtonShowProgress | src/lib/telegram.ts:170-175 | With a host, the progress indicator becomes visible; the button's visibility and text are unchanged |
| Telegram.MainButtonHideProgress | src/lib/telegram.ts:177-182 | With a host, the progress indicator becomes hidden; the button's visibility and text are unchanged |
| Telegram.HapticCall | src/lib/telegram.ts:186-194 | light, medium and heavy are impacts (never rigid or soft); success, error and warning are notifications; selection is the selection-changed call, and only it is |
| Telegram.HapticCallInjective | src/lib/telegram.ts:186-194 | Different helpers issue different host calls |
| Telegram.Haptic | src/lib/telegram.ts:186-194 | With a host, exactly that helper's call is appended; button visibility and callbacks are unchanged |
| Telegram.GetTelegramUser | src/lib/telegram.ts:197-200 | The user is null without a host, otherwise the host's `initDataUnsafe.user` |
| Telegram.CloseApp | src/lib/telegram.ts:203-206 | With a host, exactly one `close` call is made |
| Telegram.BridgeNeverUnregisters | src/lib/telegram.ts:129-194 | No helper of the bridge ever issues `offClick` |
| App.RenderScreen | src/App.tsx:34-48 | Each tab renders its own screen and no other (both directions for all five tabs) |
| App.RenderScreenInjective | src/App.tsx:34-48 | Different tabs render different screens |
| App.InitialScreen | src/screens/EventsScreen.tsx:21-23 | A freshly mounted screen is the one the tab renders. The events screen starts on the "all" filter with no selection and the demo events; the learning screen with no open course and the demo courses; the community screen with an empty query and no chip |
| App.Created | src/screens/EventsScreen.tsx:28-31 | The callbacks created so far are `n` distinct ones, exactly those numbered below `n` |
| App.LightTaps | src/screens/EventsScreen.tsx:29 | `k` runs of the back callback produce exactly `k` light impacts |
| App.MiniApp.constructor | src/App.tsx:21 | The root starts on the home tab with the dashboard mounted and no back callbacks created, in a state satisfying the invariant |
| App.MiniApp.MountEffect | src/App.tsx:24-26 | Mounting the root runs the host initialisation once: the log gains the initialisation sequence, and the body class is added only when fullscreen is supported. The invariant is kept |
| App.MiniApp.HandleTabChange | src/App.tsx:29-32 | A tab change always fires the selection haptic and makes the tab active. Re-selecting the active tab keeps the mounted screen and its state. Any other tab unmounts the old screen (hiding the back button if it was the events screen) and mounts a fresh one (whose effect hides the back button if it is the events screen). The invariant is kept |
| App.MiniApp.TapTabButton | src/components/Navigation.tsx:31 | Tapping the i-th tab button is a tab change to that button's tab, with the same host calls |
| App.MiniApp.TapHomeLink | src/App.tsx:37 | A dashboard link switches to that link's tab, mounting that screen fresh after the selection haptic |
| App.MiniApp.SetEventsFilter | src/screens/EventsScreen.tsx:207-213 | A filter chip changes only the filter; the tab, the events and the host are untouched |
| App.MiniApp.OpenEvent | src/screens/EventsScreen.tsx:26-39 | Opening a listed event selects it. The effect's cleanup hides the button, then a new callback is registered and the button shown, so the host gains that one new callback and the button is visible |
| App.MiniApp.RerunBackButtonEffect | src/screens/EventsScreen.tsx:26-39 | A re-run of the effect with a detail open hides the button, registers one more callback and shows the button again, leaving the screen unchanged |
| App.MiniApp.TapRegister | src/screens/EventsScreen.tsx:160-187 | The detail's register/cancel button toggles the event in the list and in the snapshot, and, because the snapshot is a new object, re-runs the back-button effect (one more callback) |
| App.MiniApp.PressBackButton | src/screens/EventsScreen.tsx:26-39 | With no host or a hidden button nothing happens. Otherwise every callback ever created runs: the log gains one light impact per callback, then the cleanup's and the effect's hides. The detail closes and the invariant is kept |
| App.MiniApp.RunBackCallbacks | src/screens/EventsScreen.tsx:28-31 | Running `k` back callbacks appends exactly `k` light impacts and changes no button's visibility or callbacks |
| App.MiniApp.OpenCourse | src/screens/LearnScreen.tsx:213 | Tapping a course card opens it exactly when it is not locked for the doctor's XP; otherwise nothing changes |
| App.MiniApp.CloseCourse | src/screens/LearnScreen.tsx:52 | The back link closes the open course and changes nothing else |
| App.MiniApp.TapLesson | src/screens/LearnScreen.tsx:118 | Tapping a lesson row updates the course list as the row's handler does, and the open course snapshot is left as it was |
| App.MiniApp.SetSearchQuery | src/screens/CommunityScreen.tsx:67 | Typing changes only the community screen's query |
| App.MiniApp.TapSpecializationChip | src/screens/CommunityScreen.tsx:78 | Tapping a chip stores its name, or clears the selection exactly when it is the first ("Все") chip |
| Navigation.TabIndex | src/components/Navigation.tsx:11-17 | Every tab id appears in the tab table exactly once |
| Navigation.RenderTabBar | src/components/Navigation.tsx:23-56 | The bar shows the five tabs in table order with their labels. Exactly the active tab's button is accented, and it alone carries the indicator dot |
| Navigation.TapTarget | src/components/Navigation.tsx:31 | Tapping a button asks for that button's tab |
| Navigation.ExactlyOneActive | src/components/Navigation.tsx:24 | Whatever the active tab, exactly one button of the bar is highlighted |
| Events.IsPast | src/screens/EventsScreen.tsx:42 | Definition: an event is past when its date is before the clock reading passed in |
| Events.Shown | src/screens/EventsScreen.tsx:41-46 | Definition: "registered" keeps registered upcoming events, "past" keeps past ones, anything else keeps upcoming ones |
| Events.FilteredEvents | src/screens/EventsScreen.tsx:41-46 | The listed events are a subsequence of the events (order kept), and an event is listed iff it passes the filter: upcoming for "all", registered and upcoming for "registered", past for "past" |
| Events.RegisteredWithinAll | src/screens/EventsScreen.tsx:41-46 | The "registered" list is a subsequence of the "all" list |
| Events.AllPastPartition | src/screens/EventsScreen.tsx:41-46 | The "all" and "past" lists together hold every event exactly once |
| Events.Toggled | src/screens/EventsScreen.tsx:51 | Toggling flips `isRegistered` and moves `registeredCount` by one in the matching direction, leaving every other field alone |
| Events.HandleRegister | src/screens/EventsScreen.tsx:48-53 | The list keeps its length; events with the id are toggled, all others are unchanged |
| Events.HandleRegisterTwice | src/screens/EventsScreen.tsx:48-53 | Registering and cancelling restores the list exactly |
| Events.SnapshotAfterRegister | src/screens/EventsScreen.tsx:54-56 | The open detail is updated only when it shows that event, and then only its `isRegistered` flips |
| Events.DetailCountGoesStale | src/screens/EventsScreen.tsx:48-57 | After registering from the detail, the list and the snapshot agree on `isRegistered` but disagree on the participant count |
| Events.DetailControl | src/screens/EventsScreen.tsx:160-187 | An attended event shows no registration control; otherwise the control is "cancel" exactly when registered |
| Events.ControlFlips | src/screens/EventsScreen.tsx:160-187 | For an event not attended, toggling switches the control between register and cancel |
| Learn.RequiredXP | src/screens/LearnScreen.tsx:202 | A missing `requiredXP` counts as 0 |
| Learn.CourseLocked | src/screens/LearnScreen.tsx:202 | Definition: a course is closed only when it is flagged locked and the user's XP is below its requirement (0 when none is set) |
| Learn.XpShortfall | src/screens/LearnScreen.tsx:277-280 | For a locked course, the "Наберите ещё N XP" figure is positive and exactly closes the gap to the requirement |
| Learn.ShortfallIsExact | src/screens/LearnScreen.tsx:202 | A locked course unlocks exactly when the XP gained reaches the shortfall |
| Learn.OpenCourse | src/screens/LearnScreen.tsx:213 | A card tap selects the course iff it is not locked; a locked course leaves the selection unchanged |
| Learn.CompleteOne | src/screens/LearnScreen.tsx:36 | One completion sets the completed lessons to `min(done + 1, count)` and changes no other field |
| Learn.CompleteOneBounds | src/screens/LearnScreen.tsx:36 | For a well-formed course, the count never decreases and never exceeds the lesson count, and stays put exactly when the course is finished |
| Learn.HandleCompleteLesson | src/screens/LearnScreen.tsx:33-40 | The list keeps its length; courses with the id complete one lesson, all others are unchanged; the lesson index plays no part |
| Learn.CompleteRepeatedly | src/screens/LearnScreen.tsx:33-40 | `k` successive completions keep the list's length |
| Learn.RepeatedCompletion | src/screens/LearnScreen.tsx:33-40 | After `k` completions a matching course has `min(done + k, count)` lessons done, and other courses are untouched |
| Learn.LessonStateOf | src/screens/LearnScreen.tsx:110-113 | A lesson row is completed, current or locked exactly as its index is below, at or above the completed count |
| Learn.CurrentRowUnique | src/screens/LearnScreen.tsx:113 | At most one lesson row is the current one |
| Learn.GetLessons | src/screens/LearnScreen.tsx:24-31 | Every course shows the same six lessons, each of positive duration |
| Learn.TapLesson | src/screens/LearnScreen.tsx:118 | A locked row does nothing; any other row completes one lesson of the open course |
| Learn.FinishedIsStable | src/screens/LearnScreen.tsx:36 | A finished course stays exactly as it is under further completions |
| Learn.SummaryBadges | src/screens/LearnScreen.tsx:183-187 | A summary card shows exactly `min(2, n)` badges for `n` key points, badge `i` being the first 25 characters of point `i` followed by "..." |
| Community.CurrentUserEntry | src/screens/CommunityScreen.tsx:24-33 | The doctor's entry is marked as the current user, named "first last", and carries the doctor's id, specialization, photo, rating, city and XP |
| Community.MemberEntries | src/screens/CommunityScreen.tsx:34-38 | Entry `i` carries member `i`'s id, name, specialization, photo, rating and city, and gets `1000 + (n - i) * 200` XP: strictly decreasing along the list and never below 1200. No member is the current user |
| Community.Insert | src/screens/CommunityScreen.tsx:39 | Inserting into the ranking adds exactly that entry |
| Community.InsertRanked | src/screens/CommunityScreen.tsx:39 | Inserting into a ranking sorted by descending XP keeps it sorted |
| Community.InsertCounts | src/screens/CommunityScreen.tsx:39 | Insertion keeps how many entries satisfy any predicate |
| Community.InsertStable | src/screens/CommunityScreen.tsx:39 | Insertion keeps entries of equal XP in their original relative order |
| Community.SortByXpDesc | src/screens/CommunityScreen.tsx:39 | The sort is a permutation of its input in descending XP order |
| Community.SortCounts | src/screens/CommunityScreen.tsx:39 | The sort keeps how many entries satisfy any predicate |
| Community.SortStable | src/screens/CommunityScreen.tsx:39 | The sort is stable: entries of equal XP keep their relative order, as `Array.prototype.sort` guarantees |
| Community.AllMembers | src/screens/CommunityScreen.tsx:23-39 | The leaderboard is the doctor plus every member, ranked by descending XP |
| Community.LeaderboardShape | src/screens/CommunityScreen.tsx:23-39 | The leaderboard has one entry more than the member list, and exactly one of them, the doctor's, is the current user |
| Community.TopHasMostXp | src/screens/CommunityScreen.tsx:23-39 | The leaderboard's first entry has at least as much XP as anyone |
| Community.EmptyQueryPassesAll | src/screens/CommunityScreen.tsx:42-43 | The empty search query matches every entry |
| Community.MatchesSearch | src/screens/CommunityScreen.tsx:42-43 | Definition: the lower-cased query occurs in the lower-cased name or in the lower-cased specialization |
| Community.MatchesSpecialization | src/screens/CommunityScreen.tsx:44-45 | Definition: no chip stored (null or empty), the "Все" chip, or the entry's own specialization lets the entry through |
| Community.ChipHighlighted | src/screens/CommunityScreen.tsx:81 | Definition: a chip is drawn selected when it is the stored one, or it is "Все" and nothing is stored |
| Community.TapSpecialization | src/screens/CommunityScreen.tsx:78 | The "Все" chip clears the selection, and any other chip selects its own name |
| Community.TappedChipAlone | src/screens/CommunityScreen.tsx:78-81 | After tapping a chip, exactly that chip is drawn selected |
| Community.FilteredMembers | src/screens/CommunityScreen.tsx:41-47 | The visible list is a subsequence of the leaderboard. An entry is in it iff its name or specialization contains the query (both lower-cased) and it matches the chosen specialization (none, empty or "Все" match all). It is still ranked |
| Community.NoFilterListsAll | src/screens/CommunityScreen.tsx:41-47 | With no query and no chip, the visible list is the whole leaderboard |
| Community.ListRows | src/screens/CommunityScreen.tsx:151-217 | Row `i` shows rank `i + 1` and is highlighted iff `i < 3`. It has the "Вы" badge iff it is the current user, and the message button iff it is not |
| Community.HighlightedRows | src/screens/CommunityScreen.tsx:163-166 | Exactly `min(3, n)` rows are highlighted |
| Community.Podium | src/screens/CommunityScreen.tsx:98-146 | The podium has three places: place `k` is filled iff the leaderboard has a `k`-th entry, and then shows that entry with the first word of its name |
| Community.Render | src/screens/CommunityScreen.tsx:98-217 | The podium comes from the unfiltered leaderboard and the rows from the filtered one |
| Community.PodiumIgnoresFilters | src/screens/CommunityScreen.tsx:100-146 | The podium does not depend on the search query or the chip |
| Home.NextEvent | src/screens/HomeScreen.tsx:15 | The next event is the first not attended event in list order, and there is none iff every event was attended |
| Home.ActiveCourse | src/screens/HomeScreen.tsx:16 | The active course is the first one started but not finished, and there is none iff no course is in progress |
| Home.NoNextEventIffAllAttended | src/screens/HomeScreen.tsx:15 | The dashboard has no next event exactly when the attended counter equals the number of events |
| Home.LatestSummary | src/screens/HomeScreen.tsx:17 | The latest summary is the first one, and it is missing iff there are none |
| Home.KeyPointBadges | src/screens/HomeScreen.tsx:207-209 | Exactly `min(3, n)` badges are shown for `n` key points, badge `i` being the first 30 characters of point `i` followed by "..." |
| Home.AchievementsPreview | src/screens/HomeScreen.tsx:235 | The preview is a prefix of the achievements of length exactly `min(3, n)`: the first three, or all of them when there are fewer |
| Home.RenderXpBar | src/screens/HomeScreen.tsx:51-53 | The bar's value and the "До следующего уровня" figure add up to 500, and for non-negative XP the value lies in 0..499 and the figure in 1..500 |
| Home.RenderStats | src/screens/HomeScreen.tsx:64-79 | The three stat cards show the achievements count, the attended events count and the total completed lessons |
| Home.RenderNextEvent | src/screens/HomeScreen.tsx:84-130 | The next-event card appears iff there is a next event; it is highlighted and badged iff the event is registered |
| Home.LinkShown | src/screens/HomeScreen.tsx:84-227 | Definition: the events links appear only with a next event, the learning links only with an active course, the achievements link always |
| Home.LinkTarget | src/screens/HomeScreen.tsx:97-227 | The events links go to events, the learning links to learning, the achievements link to the profile, and nothing else goes there |
| Home.LinksLeaveHome | src/screens/HomeScreen.tsx:97-227 | No dashboard link leads to the dashboard or to the community tab |
| Profile.Render | src/screens/ProfileScreen.tsx:26-35 | The profile's figures are the level, the XP in the level and to the next (summing to 500), the next level (level + 1), and the attended, completed and lesson counters (each bounded by its list), plus the summary and achievement counts |
| Profile.LevelFiguresConsistent | src/screens/ProfileScreen.tsx:32-35 | For non-negative XP the level and the XP in the level recompose the XP, the level is at least 1 and the remaining XP lies in 1..500 |
| Progression.Level | src/screens/ProfileScreen.tsx:35 | XP lies in `[(l-1)*500, l*500)` for the level `l` (so `Math.floor` is followed for negative XP too), and the level is at least 1 for non-negative XP |
| Progression.CurrentLevelXP | src/screens/ProfileScreen.tsx:33 | For non-negative XP the XP within the level lies in 0..499 |
| Progression.XpToNextLevel | src/screens/ProfileScreen.tsx:34 | The XP to the next level and the XP in the level add up to 500; for non-negative XP it lies in 1..500 |
| Progression.NextLevelLabel | src/screens/ProfileScreen.tsx:100 | The label names the level after the current one, at least 2 for non-negative XP |
| Progression.LevelDecomposition | src/screens/ProfileScreen.tsx:32-35 | For non-negative XP the figures recompose the XP; gaining exactly the remaining XP raises the level by one, and any smaller gain keeps it |
| Progression.NegativeXpBreaksDecomposition | src/screens/ProfileScreen.tsx:33-35 | For -250 XP the level is 0, the XP in the level is -250 and 750 is shown as missing, and the figures do not recompose |
| Stats.EventsAttended | src/screens/ProfileScreen.tsx:27 | The attended counter is at most the number of events, and 0 iff none was attended |
| Stats.CoursesCompleted | src/screens/ProfileScreen.tsx:28 | The completed counter is at most the number of courses, and 0 iff none is complete |
| Stats.CompletedSplit | src/screens/ProfileScreen.tsx:28 | The completed counter plus the number of courses not yet complete is the number of courses, so it counts exactly the courses with `completedLessons == lessonsCount` |
| Stats.LessonsCompleted | src/screens/ProfileScreen.tsx:29 | The total of completed lessons is at least each course's own count |
| Stats.LessonsCompletedIsSum | src/screens/ProfileScreen.tsx:29 | The total is the sum of the courses' completed lessons |
| Stats.AttendedSplit | src/screens/ProfileScreen.tsx:27 | Attended and not attended events together account for every event |
| Stats.CompletionAddsOne | src/screens/LearnScreen.tsx:33-40 | For well-formed courses, one completion raises the lesson total by the number of courses with that id not yet finished |
| Ui.Initials | src/components/ui/index.tsx:126-131 | The initials have at most two characters: the upper-cased first characters of the first two words of the name |
| Ui.InitialsStartWords | src/components/ui/index.tsx:126-131 | Each initial is the upper case of a character that begins a word of the name |
| Ui.Avatar | src/components/ui/index.tsx:118-147 | The avatar is the image iff a non-empty `src` is given, and otherwise the (at most two) initials |
| Ui.Stars | src/components/ui/index.tsx:182-207 | There are `maxRating` stars (5 by default); star `i` is filled iff `i < rating`, and all are disabled unless interactive |
| Ui.StarClick | src/components/ui/index.tsx:202 | A star click reports `i + 1`, a value in `1..maxRating`, exactly when the rating is interactive and has an `onChange` |
| Ui.FilledStars | src/components/ui/index.tsx:207 | The filled count is the rating rounded up, clamped to `0..maxRating` |
| Ui.FilledPrefix | src/components/ui/index.tsx:198-207 | The filled stars are a prefix of the row, as many as the rating rounded up |
| Ui.HalfStarRoundsUp | src/components/ui/index.tsx:207 | A rating of 4.5 fills all five stars |
| Ui.ResolveButton | src/components/ui/index.tsx:42-48 | Missing props default to primary, medium, not full-width and enabled; given props are kept |
| Ui.ButtonClick | src/components/ui/index.tsx:68-71 | A click reaches `onClick` iff the button is enabled and has a handler |
| Ui.RenderCard | src/components/ui/index.tsx:12-27 | A card is clickable (and scales on tap) iff it has `onClick`, and has the accent border iff `highlighted` is true |
| Lists.Filter | src/screens/EventsScreen.tsx:41-46 | `filter` keeps exactly the elements satisfying the predicate and never lengthens the list |
| Lists.FilterIsSubseq | src/screens/CommunityScreen.tsx:41-47 | `filter` keeps the original order |
| Lists.FilterEmptyIff | src/screens/ProfileScreen.tsx:27-28 | `filter(...).length` is 0 iff no element satisfies the predicate |
| Lists.FilterPartition | src/screens/ProfileScreen.tsx:27 | Filtering by a predicate and by its negation splits the list |
| Lists.FilterOnlyOne | src/components/Navigation.tsx:22-24 | When exactly one element satisfies the predicate, filtering yields one element |
| Lists.Find | src/screens/HomeScreen.tsx:15-16 | `find` returns the first element satisfying the predicate, and nothing iff no element does |
| Lists.FindIndex | src/screens/HomeScreen.tsx:15-16 | The index found is the first satisfying the predicate, and there is none iff no element does |
| Lists.Take | src/components/ui/index.tsx:130 | `slice(0, n)` keeps the first `min(n, length)` elements |
| Lists.Sum | src/screens/ProfileScreen.tsx:29 | `reduce` with `+` from 0 over non-negative values is non-negative |
| Text.ToLower | src/screens/CommunityScreen.tsx:42-43 | Lower-casing maps each character (Latin and Cyrillic capitals to their small letters) and keeps the length |
| Text.ToUpper | src/components/ui/index.tsx:131 | Upper-casing maps each character (Latin and Cyrillic small letters to their capitals) and keeps the length |
| Text.Contains | src/screens/CommunityScreen.tsx:42-43 | Definition of `includes`: the needle is a prefix of the text or of some suffix of it |
| Text.ContainsAt | src/screens/CommunityScreen.tsx:42-43 | `includes` holds iff the needle occurs at some index |
| Text.ContainsWitness | src/screens/CommunityScreen.tsx:42-43 | When `includes` holds, an index is given at which the needle occurs |
| Text.OccursContains | src/screens/CommunityScreen.tsx:42-43 | An occurrence at any index makes `includes` hold |
| Text.Split | src/components/ui/index.tsx:127 | `split(' ')` yields at least one piece and no piece contains a space |
| Text.JoinSplit | src/components/ui/index.tsx:127 | `split(' ')` loses nothing: joining its pieces with one space between neighbours gives back the text, so the pieces are exactly the runs between spaces |
| Text.FirstChars | src/components/ui/index.tsx:128-129 | Definition of `map(n => n[0]).join('')`: the first character of each piece in order, an empty piece contributing nothing |
| Text.WordStarts | src/components/ui/index.tsx:126-129 | Definition: scanning left to right, each non-space character at the start of the text or right after a space |
| Text.SplitFirstChars | src/components/ui/index.tsx:126-129 | The first characters of the pieces are the characters that begin words |
| Text.Badges | src/screens/HomeScreen.tsx:207-209 | Showing `n` points cut to `width` gives `min(n, count)` badges, each a prefix of its point followed by "..." |
| JsOps.Rem | src/screens/ProfileScreen.tsx:33 | `%` with a positive divisor agrees with the mathematical remainder for non-negative operands; for a negative dividend it is the truncated remainder, `a == -((-a) / b) * b + r` with `-b < r <= 0` |
| JsOps.RemNegative | src/screens/ProfileScreen.tsx:33 | `-250 % 500` is -250, where the Euclidean remainder is 250 |
| JsOps.Min | src/screens/LearnScreen.tsx:36 | `Math.min` returns one of its operands, no greater than either |
| Scenarios.StartOnEvents | src/App.tsx:24-32 | Mounting, then tapping the events tab, leaves a valid app on the events screen with the log being the initialisation, the selection haptic and the effect's hide |
| Scenarios.TwoVisitsThenBack | src/screens/EventsScreen.tsx:26-39 | Opening an event, pressing back, opening another and pressing back gives this exact log: the second press fires two light impacts, and the host ends up holding two callbacks with the button hidden |
| Scenarios.RegisterThenBack | src/screens/EventsScreen.tsx:26-57 | Opening an event, registering, then pressing back registers two callbacks and the press fires two light impacts; the list ends up toggled |
| Scenarios.OpenThenBack | src/screens/EventsScreen.tsx:26-39 | From the events list, opening an event and pressing back returns to the list: the log gains the effect's hide/register/show, one light impact per callback then held, and the two hides |
| Scenarios.OpenRegisterBack | src/screens/EventsScreen.tsx:26-57 | Opening an event, registering and pressing back re-runs the back-button effect, so the press fires one more light impact, and the list becomes the registration toggle of the old list |
| Scenarios.ReselectKeepsDetail | src/App.tsx:29-32 | Re-tapping the events tab with a detail open keeps the detail and the visible back button; the full log is the start, the effect's hide/register/show, and only the selection haptic after it |
| Scenarios.LeaveWithDetailOpen | src/screens/EventsScreen.tsx:36-38 | Switching tabs with a detail open hides the back button through cleanup (the full log ends with the selection haptic and one hide), while the host keeps the callback |
| Scenarios.NoHost | src/lib/telegram.ts:90-95 | Outside Telegram nothing reaches the host and the body gets no class, and the screens still work |
| Scenarios.MountTwice | src/lib/telegram.ts:90-127 | Mounting the root twice sends the initialisation sequence twice |

## Left out

- Where the bridge finds the host (`getTelegram` looking up `window.Telegram.WebApp`) is not modelled: the host is passed to every operation as a possibly-null `WebApp?` object.
- `console.log` calls in `initTelegram` are left out: they change nothing the app or the host can observe.
- The host's own implementation (rendering, the native back button, haptic hardware) is not part of this model; its observable state is a function of the call log, under the assumptions listed above.
- The bridge members the app never calls through the root (`mainButton.*`, `getTelegramUser`, `closeApp`) are modelled as bridge operations, but no screen uses them.
- Dates are not parsed: `new Date(event.date) < new Date()` becomes an integer comparison against a `now` parameter, and date formatting is left out.
- Floating-point percentages (`Progress` widths, a course's progress bar, `progress === 100`) are left out; the model keeps the integer counts they are computed from. Star ratings use Dafny `real`.
- Case mapping covers ASCII and the basic Cyrillic block (А–я, Ѐ–Џ, ѐ–џ); other Unicode case mappings and UTF-16 code units are left out.
- Animations (`framer-motion`), Tailwind classes, icons, lazy loading and `Suspense` are presentation and scheduling; they are left out. React's batching and effect scheduling are reduced to the order in which the methods append host calls.
- `Ui.Initials`: `name.split(' ').map(n => n[0])` yields `undefined` for an empty piece, which `join` drops; the model skips empty pieces in the same way but does not model `undefined` itself.
- The demo data in `mockData.ts` is not reproduced; every operation takes the data as a parameter (`AppData`).
- `AchievementIcon`, the profile's `activeSection` tabs and menu cards, and the event detail's static text are display only and are left out.
- The "Требуется N XP" overlay on a locked course thumbnail shows `requiredXP` as stored (possibly missing); only the shortfall figure is modelled.
- The duplicate React `key` warnings and other development-mode diagnostics are left out.
- App.MiniApp.PressBackButton: the host runs `setSelectedEvent(null)` once per callback; the model applies it once, since repeated identical updates give the same state.
- XP, counts and indices are unbounded integers; JavaScript's 2^53 safe-integer limit is not modelled.
