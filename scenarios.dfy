/**
 * Whole-application runs over a fresh host, each stating the exact calls the
 * host receives. They exhibit the consequences of the back button's callbacks
 * never being removed (src/lib/telegram.ts:131-137 with the effect in
 * src/screens/EventsScreen.tsx:26-39).
 */
module Scenarios {
  import opened Wrappers
  import opened Data
  import opened Telegram
  import opened App
  import Events

  /** App start, then the events tab chosen from the tab bar. */
  method StartOnEvents(caps: Capabilities, data: AppData) returns (app: MiniApp)
    ensures fresh(app) && fresh(app.tg) && app.tg != null && app.Valid()
    ensures app.activeTab == Events && app.screen == EventsView(Events.All, None, data.events) && app.nextHandler == 0
    ensures app.tg.caps == caps && app.data == data
    ensures app.tg.log == InitCalls(caps) + [SelectionChanged, Hide(BackButton)]
  {
    var tg := new WebApp(caps, None);
    var body := new DocumentBody({});
    app := new MiniApp(tg, body, data);
    app.MountEffect();
    app.HandleTabChange(Events);
  }

  /**
   * Opening two events one after the other, going back each time: the second
   * back press fires two light impacts, one of them for the stale first callback.
   */
  method TwoVisitsThenBack(caps: Capabilities, data: AppData, e1: MedEvent, e2: MedEvent, now: int)
    returns (log: seq<HostCall>, handlers: seq<Handler>)
    requires e1 in Events.FilteredEvents(data.events, Events.All, now)
    requires e2 in Events.FilteredEvents(data.events, Events.All, now)
    ensures log == InitCalls(caps) + [SelectionChanged, Hide(BackButton)]
      + ShowCalls(0) + LightTaps(1) + [Hide(BackButton), Hide(BackButton)]
      + ShowCalls(1) + LightTaps(2) + [Hide(BackButton), Hide(BackButton)]
    ensures handlers == [0, 1] && !Visible(log, BackButton)
  {
    var app := StartOnEvents(caps, data);
    OpenThenBack(app, e1, now);
    OpenThenBack(app, e2, now);
    log := app.tg.log;
    handlers := Handlers(log, BackButton);
    assert Created(1) == [0];
    assert handlers == Created(1) + [1];
  }

  /**
   * One visit to an event's detail and back: the new callback is registered,
   * and the press runs it together with every earlier one.
   */
  method OpenThenBack(app: MiniApp, e: MedEvent, now: int)
    requires app.Valid() && app.tg != null && app.screen.EventsView? && app.screen.selectedEvent.None?
    requires e in Events.FilteredEvents(app.screen.events, app.screen.filter, now)
    modifies app, app.tg
    ensures app.Valid() && app.screen == old(app.screen) && app.activeTab == old(app.activeTab)
    ensures app.nextHandler == old(app.nextHandler) + 1
    ensures app.tg.log == old(app.tg.log) + ShowCalls(old(app.nextHandler))
      + LightTaps(old(app.nextHandler) + 1) + [Hide(BackButton), Hide(BackButton)]
  {
    app.OpenEvent(e, now);
    app.PressBackButton();
  }

  /**
   * Registering from the detail view re-runs the effect, so one back press
   * afterwards fires two light impacts; the list entry is toggled.
   */
  method RegisterThenBack(caps: Capabilities, data: AppData, e: MedEvent, now: int)
    returns (log: seq<HostCall>, listed: seq<MedEvent>)
    requires e in Events.FilteredEvents(data.events, Events.All, now) && !e.isAttended
    ensures log == InitCalls(caps) + [SelectionChanged, Hide(BackButton)]
      + ShowCalls(0) + ShowCalls(1) + LightTaps(2) + [Hide(BackButton), Hide(BackButton)]
    ensures listed == Events.HandleRegister(data.events, e.id)
  {
    var app := StartOnEvents(caps, data);
    listed := OpenRegisterBack(app, e, now);
    log := app.tg.log;
  }

  /**
   * Open an event, register from its detail, go back: the effect ran twice,
   * so the press runs two more callbacks than were created before the visit.
   */
  method OpenRegisterBack(app: MiniApp, e: MedEvent, now: int) returns (listed: seq<MedEvent>)
    requires app.Valid() && app.tg != null && app.screen.EventsView? && app.screen.selectedEvent.None?
    requires e in Events.FilteredEvents(app.screen.events, app.screen.filter, now) && !e.isAttended
    modifies app, app.tg
    ensures app.Valid() && app.nextHandler == old(app.nextHandler) + 2
    ensures app.screen.EventsView? && listed == app.screen.events && listed == Events.HandleRegister(old(app.screen.events), e.id)
    ensures app.tg.log == old(app.tg.log) + ShowCalls(old(app.nextHandler)) + ShowCalls(old(app.nextHandler) + 1)
      + LightTaps(old(app.nextHandler) + 2) + [Hide(BackButton), Hide(BackButton)]
  {
    app.OpenEvent(e, now);
    app.TapRegister();
    listed := app.screen.events;
    app.PressBackButton();
  }

  /** Re-tapping the events tab while a detail is open: a haptic, and the detail and its back button stay. */
  method ReselectKeepsDetail(caps: Capabilities, data: AppData, e: MedEvent, now: int)
    returns (selected: Option<MedEvent>, visible: bool, log: seq<HostCall>)
    requires e in Events.FilteredEvents(data.events, Events.All, now)
    ensures selected == Some(e) && visible
    ensures log == InitCalls(caps) + [SelectionChanged, Hide(BackButton)] + ShowCalls(0) + [SelectionChanged]
  {
    var app := StartOnEvents(caps, data);
    app.OpenEvent(e, now);
    app.HandleTabChange(Events);
    selected := app.screen.selectedEvent;
    visible := BackButtonIsVisible(app.tg);
    log := app.tg.log;
  }

  /** Leaving the events tab with a detail open hides the button but the host keeps the callback. */
  method LeaveWithDetailOpen(caps: Capabilities, data: AppData, e: MedEvent, now: int)
    returns (visible: bool, handlers: seq<Handler>, log: seq<HostCall>)
    requires e in Events.FilteredEvents(data.events, Events.All, now)
    ensures !visible && handlers == [0]
    ensures log == InitCalls(caps) + [SelectionChanged, Hide(BackButton)] + ShowCalls(0) + [SelectionChanged] + [Hide(BackButton)]
  {
    var app := StartOnEvents(caps, data);
    app.OpenEvent(e, now);
    ghost var shown := app.tg.log;
    assert UnmountCalls(app.screen) + MountCalls(Home) == [Hide(BackButton)];
    app.HandleTabChange(Home);
    assert app.tg.log == shown + [SelectionChanged] + [Hide(BackButton)];
    assert Created(1) == [0];
    visible := BackButtonIsVisible(app.tg);
    handlers := Handlers(app.tg.log, BackButton);
    log := app.tg.log;
  }

  /** Without a host every step runs and no body class is added. */
  method NoHost(data: AppData, e: MedEvent, now: int) returns (classes: set<string>, selected: Option<MedEvent>)
    requires e in Events.FilteredEvents(data.events, Events.All, now)
    ensures classes == {} && selected == Some(e)
  {
    var body := new DocumentBody({});
    var app := new MiniApp(null, body, data);
    app.MountEffect();
    app.HandleTabChange(Events);
    app.OpenEvent(e, now);
    app.PressBackButton();
    classes := body.classes;
    selected := app.screen.selectedEvent;
  }

  /** Mounting twice negotiates with the host twice. */
  method MountTwice(caps: Capabilities, data: AppData) returns (log: seq<HostCall>, classes: set<string>)
    ensures log == InitCalls(caps) + InitCalls(caps)
    ensures caps.requestFullscreen <==> FullscreenClass in classes
  {
    var tg := new WebApp(caps, None);
    var body := new DocumentBody({});
    var app := new MiniApp(tg, body, data);
    app.MountEffect();
    app.MountEffect();
    log := tg.log;
    classes := body.classes;
  }
}
