/**
 * The root component and the screen state it mounts (src/App.tsx), with the
 * state the events, learning and community screens keep while mounted
 * (src/screens/EventsScreen.tsx, LearnScreen.tsx, CommunityScreen.tsx).
 *
 * React's effects are explicit steps here: a state change that re-runs the
 * events screen's back-button effect first runs the previous cleanup
 * (`backButton.hide()`) and then the effect body; unmounting runs the cleanup.
 */
module App {
  import opened Wrappers
  import opened Data
  import opened Telegram
  import Navigation
  import Events
  import Learn
  import Community
  import Home

  /** The five screen components. */
  datatype Screen = HomeScreen | EventsScreen | LearnScreen | CommunityScreen | ProfileScreen

  /** `renderScreen()`: one screen per tab. */
  function RenderScreen(t: TabId): (s: Screen)
    ensures s == HomeScreen <==> t == Home
    ensures s == EventsScreen <==> t == Events
    ensures s == LearnScreen <==> t == Learn
    ensures s == CommunityScreen <==> t == Community
    ensures s == ProfileScreen <==> t == Profile
  {
    match t
    case Home => HomeScreen
    case Events => EventsScreen
    case Learn => LearnScreen
    case Community => CommunityScreen
    case Profile => ProfileScreen
  }

  /** Different tabs render different screens. */
  lemma RenderScreenInjective(a: TabId, b: TabId)
    ensures RenderScreen(a) == RenderScreen(b) ==> a == b
  {
  }

  /** The mounted screen with the local state it keeps while mounted. */
  datatype MountedScreen =
    | HomeView
    | EventsView(filter: Events.EventFilter, selectedEvent: Option<MedEvent>, events: seq<MedEvent>)
    | LearnView(selectedCourse: Option<Course>, courses: seq<Course>)
    | CommunityView(searchQuery: string, selectedSpecialization: Option<string>)
    | ProfileView

  function KindOf(m: MountedScreen): Screen {
    match m
    case HomeView => HomeScreen
    case EventsView(_, _, _) => EventsScreen
    case LearnView(_, _) => LearnScreen
    case CommunityView(_, _) => CommunityScreen
    case ProfileView => ProfileScreen
  }

  /** A freshly mounted screen: its `useState` initial values. */
  function InitialScreen(t: TabId, data: AppData): (m: MountedScreen)
    ensures KindOf(m) == RenderScreen(t)
    ensures m.EventsView? ==> m.filter == Events.All && m.selectedEvent.None? && m.events == data.events
    ensures m.LearnView? ==> m.selectedCourse.None? && m.courses == data.courses
    ensures m.CommunityView? ==> m.searchQuery == "" && m.selectedSpecialization.None?
  {
    match t
    case Home => HomeView
    case Events => EventsView(Events.All, None, data.events)
    case Learn => LearnView(None, data.courses)
    case Community => CommunityView("", None)
    case Profile => ProfileView
  }

  /** The detail view of the events screen is open. */
  predicate EventDetailOpen(m: MountedScreen) {
    m.EventsView? && m.selectedEvent.Some?
  }

  /** The back-button callbacks created so far, in creation order: `0, 1, …, n - 1`. */
  function Created(n: nat): (r: seq<Handler>)
    ensures |r| == n
    ensures forall h: Handler :: h in r <==> h < n
  {
    if n == 0 then [] else Created(n - 1) + [n - 1]
  }

  /** `k` light impacts in a row. */
  function LightTaps(k: nat): (r: seq<HostCall>)
    ensures |r| == k
    ensures forall c :: c in r ==> c == ImpactOccurred(Light)
  {
    if k == 0 then [] else LightTaps(k - 1) + [ImpactOccurred(Light)]
  }

  /**
   * One run of the events screen's effect with an event selected: the previous
   * run's cleanup hides the button, then `backButton.show` registers callback
   * `h` and shows the button.
   */
  function ShowCalls(h: Handler): seq<HostCall> {
    [Hide(BackButton), OnClick(BackButton, h), Show(BackButton)]
  }

  /** What unmounting a screen does to the host: only the events screen has a cleanup. */
  function UnmountCalls(m: MountedScreen): seq<HostCall> {
    if m.EventsView? then [Hide(BackButton)] else []
  }

  /** What mounting a fresh screen does to the host: the events screen's effect hides the button. */
  function MountCalls(t: TabId): seq<HostCall> {
    if t == Events then [Hide(BackButton)] else []
  }

  /** The running application: the root's tab, the mounted screen, and the host it talks to. */
  class MiniApp {
    var activeTab: TabId
    var screen: MountedScreen
    /** The next back-button callback to be created; each `backButton.show` gets a new closure. */
    var nextHandler: nat
    const tg: WebApp?
    const body: DocumentBody
    const data: AppData

    /**
     * The mounted screen is the one the tab renders; the host's back button is
     * shown exactly while an event's detail is open; and, since nothing ever
     * calls `offClick`, the host still holds every callback ever created.
     */
    ghost predicate Valid()
      reads this, tg
    {
      KindOf(screen) == RenderScreen(activeTab) &&
      (tg != null ==> (Visible(tg.log, BackButton) <==> EventDetailOpen(screen))) &&
      (tg != null ==> Handlers(tg.log, BackButton) == Created(nextHandler)) &&
      (tg != null && Visible(tg.log, BackButton) ==> nextHandler > 0)
    }

    /** First render: the home tab, before any effect has run. */
    constructor (tg: WebApp?, body: DocumentBody, data: AppData)
      requires tg != null ==> !Visible(tg.log, BackButton) && Handlers(tg.log, BackButton) == []
      ensures Valid()
      ensures activeTab == Home && screen == HomeView && nextHandler == 0
      ensures this.tg == tg && this.body == body && this.data == data
    {
      activeTab := Home;
      screen := HomeView;
      nextHandler := 0;
      this.tg := tg;
      this.body := body;
      this.data := data;
    }

    /** The root's mount effect: `initTelegram()`. */
    method MountEffect()
      requires Valid()
      modifies tg, body
      ensures Valid()
      ensures tg != null ==> tg.log == old(tg.log) + InitCalls(tg.caps)
      ensures tg == null ==> body.classes == old(body.classes)
      ensures tg != null ==> body.classes == old(body.classes) + (if tg.caps.requestFullscreen then {FullscreenClass} else {})
    {
      ghost var before := if tg != null then tg.log else [];
      InitTelegram(tg, body);
      if tg != null {
        InitCallsShape(tg.caps);
        LatestFlagAppend(before, InitCalls(tg.caps), Show(BackButton), Hide(BackButton));
        HandlersAppend(before, InitCalls(tg.caps), BackButton);
      }
    }

    /**
     * `handleTabChange(tab)`: a selection haptic, then `setActiveTab(tab)`.
     * Setting the tab it already has changes nothing; a different tab
     * unmounts the current screen and mounts a fresh one.
     */
    method HandleTabChange(t: TabId)
      requires Valid()
      modifies this, tg
      ensures Valid()
      ensures activeTab == t && nextHandler == old(nextHandler)
      ensures t == old(activeTab) ==> screen == old(screen)
      ensures t != old(activeTab) ==> screen == InitialScreen(t, data)
      ensures tg != null ==>
        tg.log == old(tg.log) + [SelectionChanged] + (if t == old(activeTab) then [] else UnmountCalls(old(screen)) + MountCalls(t))
    {
      Haptic(tg, SelectionHaptic);
      if t == activeTab {
        return;
      }
      if screen.EventsView? {
        BackButtonHide(tg);
      }
      activeTab := t;
      screen := InitialScreen(t, data);
      if t == Events {
        BackButtonHide(tg);
      }
    }

    /** Tapping button `i` of the tab bar. */
    method TapTabButton(i: nat)
      requires Valid() && i < |Navigation.Tabs|
      modifies this, tg
      ensures Valid()
      ensures activeTab == Navigation.Tabs[i].id
      ensures tg != null ==>
        tg.log == old(tg.log) + [SelectionChanged] +
          (if Navigation.Tabs[i].id == old(activeTab) then [] else UnmountCalls(old(screen)) + MountCalls(Navigation.Tabs[i].id))
    {
      var bar := Navigation.RenderTabBar(activeTab);
      HandleTabChange(Navigation.TapTarget(bar, i));
    }

    /** Tapping one of the dashboard's links: the same handler as the tab bar. */
    method TapHomeLink(l: Home.HomeLink)
      requires Valid() && screen.HomeView? && Home.LinkShown(data, l)
      modifies this, tg
      ensures Valid()
      ensures activeTab == Home.LinkTarget(l) && screen == InitialScreen(Home.LinkTarget(l), data)
      ensures tg != null ==> tg.log == old(tg.log) + [SelectionChanged] + MountCalls(Home.LinkTarget(l))
    {
      Home.LinksLeaveHome(l);
      HandleTabChange(Home.LinkTarget(l));
    }

    // ----- events screen -----

    /** Tapping a filter chip in the list view. */
    method SetEventsFilter(f: Events.EventFilter)
      requires Valid() && screen.EventsView? && screen.selectedEvent.None?
      modifies this
      ensures Valid()
      ensures screen == old(screen).(filter := f)
      ensures activeTab == old(activeTab) && nextHandler == old(nextHandler)
    {
      screen := screen.(filter := f);
    }

    /**
     * Tapping an event card of the list: the selection changes, so the back-button
     * effect re-runs, its cleanup hiding the button before the body shows it
     * with a new callback.
     */
    method OpenEvent(e: MedEvent, now: int)
      requires Valid() && screen.EventsView? && screen.selectedEvent.None?
      requires e in Events.FilteredEvents(screen.events, screen.filter, now)
      modifies this, tg
      ensures Valid()
      ensures screen == old(screen).(selectedEvent := Some(e))
      ensures activeTab == old(activeTab) && nextHandler == old(nextHandler) + 1
      ensures tg != null ==> tg.log == old(tg.log) + ShowCalls(old(nextHandler))
      ensures tg != null ==> Handlers(tg.log, BackButton) == old(Handlers(tg.log, BackButton)) + [old(nextHandler)]
    {
      screen := screen.(selectedEvent := Some(e));
      RerunBackButtonEffect();
    }

    /** The effect for an open detail: cleanup of the previous run, then `backButton.show` with a fresh callback. */
    method RerunBackButtonEffect()
      requires KindOf(screen) == RenderScreen(activeTab) && EventDetailOpen(screen)
      requires tg != null ==> Handlers(tg.log, BackButton) == Created(nextHandler)
      modifies this, tg
      ensures Valid()
      ensures screen == old(screen) && activeTab == old(activeTab) && nextHandler == old(nextHandler) + 1
      ensures tg != null ==> tg.log == old(tg.log) + ShowCalls(old(nextHandler))
      ensures tg != null ==> Handlers(tg.log, BackButton) == old(Handlers(tg.log, BackButton)) + [old(nextHandler)]
    {
      BackButtonHide(tg);
      BackButtonShow(tg, nextHandler);
      nextHandler := nextHandler + 1;
    }

    /**
     * The register / cancel control of the detail view (offered only for an
     * event not attended): the list entry toggles with its count, the open
     * snapshot toggles its flag only, and being a new object it re-runs the
     * back-button effect, which registers one more callback.
     */
    method TapRegister()
      requires Valid() && EventDetailOpen(screen)
      requires Events.DetailControl(screen.selectedEvent.value).Some?
      modifies this, tg
      ensures Valid()
      ensures var id := old(screen).selectedEvent.value.id;
              screen == old(screen).(events := Events.HandleRegister(old(screen).events, id),
                                     selectedEvent := Events.SnapshotAfterRegister(old(screen).selectedEvent, id))
      ensures activeTab == old(activeTab) && nextHandler == old(nextHandler) + 1
      ensures tg != null ==> tg.log == old(tg.log) + ShowCalls(old(nextHandler))
    {
      var id := screen.selectedEvent.value.id;
      screen := screen.(events := Events.HandleRegister(screen.events, id),
                        selectedEvent := Events.SnapshotAfterRegister(screen.selectedEvent, id));
      RerunBackButtonEffect();
    }

    /**
     * The user presses the host's back button. The host calls every callback it
     * holds, in registration order; each one fires `haptic.light()` and clears
     * the selection. The cleared selection then re-runs the effect: the
     * previous cleanup hides the button, and so does the new body.
     */
    method PressBackButton()
      requires Valid()
      modifies this, tg
      ensures Valid()
      ensures activeTab == old(activeTab) && nextHandler == old(nextHandler)
      ensures tg == null || !old(Visible(tg.log, BackButton)) ==> screen == old(screen)
      ensures tg != null && !old(Visible(tg.log, BackButton)) ==> tg.log == old(tg.log)
      ensures tg != null && old(Visible(tg.log, BackButton)) ==>
        screen == old(screen).(selectedEvent := None) &&
        tg.log == old(tg.log) + LightTaps(old(nextHandler)) + [Hide(BackButton), Hide(BackButton)]
    {
      var visible := BackButtonIsVisible(tg);
      if !visible {
        return;
      }
      RunBackCallbacks(|Handlers(tg.log, BackButton)|);
      screen := screen.(selectedEvent := None);
      BackButtonHide(tg);
      BackButtonHide(tg);
    }

    /**
     * The host calling `k` back-button callbacks of the events screen: one light
     * impact each. (Their `setSelectedEvent(null)` is applied once by the caller;
     * repeating it changes nothing.)
     */
    method RunBackCallbacks(k: nat)
      requires tg != null
      modifies tg
      ensures tg.log == old(tg.log) + LightTaps(k)
      ensures forall b :: Visible(tg.log, b) == old(Visible(tg.log, b)) && Handlers(tg.log, b) == old(Handlers(tg.log, b))
    {
      var i := 0;
      while i < k
        invariant 0 <= i <= k
        invariant tg.log == old(tg.log) + LightTaps(i)
        invariant forall b :: Visible(tg.log, b) == old(Visible(tg.log, b)) && Handlers(tg.log, b) == old(Handlers(tg.log, b))
      {
        Haptic(tg, LightHaptic);
        i := i + 1;
      }
    }

    // ----- learning screen -----

    /** Tapping a course card: a locked course does not open. */
    method OpenCourse(c: Course)
      requires Valid() && screen.LearnView? && screen.selectedCourse.None? && c in screen.courses
      modifies this
      ensures Valid()
      ensures screen == old(screen).(selectedCourse := Learn.OpenCourse(None, c, data.doctor.xp))
      ensures Learn.CourseLocked(c, data.doctor.xp) <==> screen.selectedCourse.None?
      ensures activeTab == old(activeTab) && nextHandler == old(nextHandler)
    {
      if !Learn.CourseLocked(c, data.doctor.xp) {
        screen := screen.(selectedCourse := Some(c));
      }
    }

    /** The in-page "Назад" of the course detail: clears the selection, no host call. */
    method CloseCourse()
      requires Valid() && screen.LearnView? && screen.selectedCourse.Some?
      modifies this
      ensures Valid()
      ensures screen == old(screen).(selectedCourse := None)
      ensures activeTab == old(activeTab) && nextHandler == old(nextHandler)
    {
      screen := screen.(selectedCourse := None);
    }

    /** Tapping lesson row `i` of the open course; the open snapshot keeps its counts. */
    method TapLesson(i: nat)
      requires Valid() && screen.LearnView? && screen.selectedCourse.Some?
      requires i < |Learn.GetLessons(screen.selectedCourse.value.id)|
      modifies this
      ensures Valid()
      ensures screen == old(screen).(courses := Learn.TapLesson(old(screen).courses, old(screen).selectedCourse.value, i))
      ensures screen.selectedCourse == old(screen).selectedCourse
      ensures activeTab == old(activeTab) && nextHandler == old(nextHandler)
    {
      screen := screen.(courses := Learn.TapLesson(screen.courses, screen.selectedCourse.value, i));
    }

    // ----- community screen -----

    /** Typing in the search box. */
    method SetSearchQuery(q: string)
      requires Valid() && screen.CommunityView?
      modifies this
      ensures Valid()
      ensures screen == old(screen).(searchQuery := q)
      ensures activeTab == old(activeTab) && nextHandler == old(nextHandler)
    {
      screen := screen.(searchQuery := q);
    }

    /** Tapping specialisation chip `i`. */
    method TapSpecializationChip(i: nat)
      requires Valid() && screen.CommunityView? && i < |Community.Specializations|
      modifies this
      ensures Valid()
      ensures screen == old(screen).(selectedSpecialization := Community.TapSpecialization(Community.Specializations[i]))
      ensures i == 0 <==> screen.selectedSpecialization.None?
      ensures activeTab == old(activeTab) && nextHandler == old(nextHandler)
    {
      screen := screen.(selectedSpecialization := Community.TapSpecialization(Community.Specializations[i]));
    }
  }
}
