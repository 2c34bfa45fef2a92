/**
 * The bridge to the Telegram Mini Apps host (src/lib/telegram.ts).
 *
 * The host object `window.Telegram.WebApp` is a `WebApp?`: `null` is the
 * plain-browser case in which `getTelegram()` returns `null`. Every call the
 * bridge makes on the host is appended to the host's `log`; what the host then
 * shows (button visibility, registered click handlers, main-button text) is
 * read off that log by the functions `Visible`, `Handlers` and `MainText`.
 */
module Telegram {
  import opened Wrappers
  import Lists

  /** A JavaScript callback passed to `onClick`; every closure the app creates is a distinct value. */
  type Handler = nat

  datatype ImpactStyle = Light | Medium | Heavy | Rigid | Soft
  datatype NotificationType = Error | Success | Warning
  datatype Button = BackButton | MainButton

  /** One call the bridge makes on the host object. */
  datatype HostCall =
    | Ready
    | Expand
    | Close
    | RequestFullscreen
    | DisableVerticalSwipes
    | SetHeaderColor(color: string)
    | SetBackgroundColor(color: string)
    | OnClick(button: Button, handler: Handler)
    | OffClick(button: Button, handler: Handler)
    | Show(button: Button)
    | Hide(button: Button)
    | SetText(text: string)        // MainButton.setText
    | ShowProgress                 // MainButton.showProgress
    | HideProgress                 // MainButton.hideProgress
    | ImpactOccurred(style: ImpactStyle)
    | NotificationOccurred(kind: NotificationType)
    | SelectionChanged

  /** The optional host methods (API 7.7+) that `initTelegram` probes for. */
  datatype Capabilities = Capabilities(requestFullscreen: bool, disableVerticalSwipes: bool)

  /** `initDataUnsafe.user` as the host reports it. */
  datatype User = User(
    id: int,
    firstName: string,
    lastName: Option<string>,
    username: Option<string>,
    languageCode: Option<string>,
    photoUrl: Option<string>)

  const ThemeColor: string := "#0a0a0a"
  const FullscreenClass: string := "tg-fullscreen"

  /** The host object: its optional capabilities, the user it reports, and the calls it has received. */
  class WebApp {
    const caps: Capabilities
    const user: Option<User>
    var log: seq<HostCall>

    constructor (caps: Capabilities, user: Option<User>)
      ensures this.caps == caps && this.user == user && log == []
    {
      this.caps := caps;
      this.user := user;
      log := [];
    }
  }

  /** `document.body`, of which only the class list is touched. */
  class DocumentBody {
    var classes: set<string>

    constructor (classes: set<string>)
      ensures this.classes == classes
    {
      this.classes := classes;
    }
  }

  // ----- What the host shows, as a function of the calls it received -----

  /** A host flag switched on by `on` and off by `off`: the latest of the two wins; it starts off. */
  function LatestFlag(log: seq<HostCall>, on: HostCall, off: HostCall): bool
  {
    if log == [] then false
    else if log[|log| - 1] == on then true
    else if log[|log| - 1] == off then false
    else LatestFlag(log[..|log| - 1], on, off)
  }

  /** `BackButton.isVisible` / `MainButton.isVisible`. */
  function Visible(log: seq<HostCall>, b: Button): bool {
    LatestFlag(log, Show(b), Hide(b))
  }

  /** `MainButton.isProgressVisible`. */
  function ProgressVisible(log: seq<HostCall>): bool {
    LatestFlag(log, ShowProgress, HideProgress)
  }

  /** `MainButton.text`: the latest text set, if any. */
  function MainText(log: seq<HostCall>): Option<string>
  {
    if log == [] then None
    else if log[|log| - 1].SetText? then Some(log[|log| - 1].text)
    else MainText(log[..|log| - 1])
  }

  /**
   * The click handlers the host holds for button `b`, in registration order:
   * `onClick` adds a callback the host does not already hold, `offClick` removes it.
   */
  function Handlers(log: seq<HostCall>, b: Button): seq<Handler>
  {
    if log == [] then []
    else
      var hs := Handlers(log[..|log| - 1], b);
      match log[|log| - 1]
      case OnClick(b', h) => if b' == b && h !in hs then hs + [h] else hs
      case OffClick(b', h) => if b' == b then Lists.Filter(hs, (x: Handler) => x != h) else hs
      case _ => hs
  }

  /** The call changes which handlers button `b` holds. */
  predicate TouchesHandlers(c: HostCall, b: Button) {
    (c.OnClick? || c.OffClick?) && c.button == b
  }

  // ----- Facts about the host state functions -----

  lemma {:induction false} LatestFlagAppend(a: seq<HostCall>, b: seq<HostCall>, on: HostCall, off: HostCall)
    ensures LatestFlag(a + b, on, off) ==
            if on in b || off in b then LatestFlag(b, on, off) else LatestFlag(a, on, off)
    decreases |b|
  {
    if b == [] {
      assert a + b == a;
    } else {
      var b' := b[..|b| - 1];
      assert (a + b)[..|a + b| - 1] == a + b';
      assert (a + b)[|a + b| - 1] == b[|b| - 1];
      assert b == b' + [b[|b| - 1]];
      LatestFlagAppend(a, b', on, off);
    }
  }

  lemma {:induction false} MainTextAppend(a: seq<HostCall>, b: seq<HostCall>)
    ensures (forall c :: c in b ==> !c.SetText?) ==> MainText(a + b) == MainText(a)
    decreases |b|
  {
    if b != [] {
      var b' := b[..|b| - 1];
      assert (a + b)[..|a + b| - 1] == a + b';
      assert (a + b)[|a + b| - 1] == b[|b| - 1];
      assert b == b' + [b[|b| - 1]];
      MainTextAppend(a, b');
    } else {
      assert a + b == a;
    }
  }

  /** Calls that neither register nor remove a handler of `b` leave its handlers alone. */
  lemma {:induction false} HandlersAppend(a: seq<HostCall>, b: seq<HostCall>, btn: Button)
    ensures (forall c :: c in b ==> !TouchesHandlers(c, btn)) ==> Handlers(a + b, btn) == Handlers(a, btn)
    decreases |b|
  {
    if b != [] {
      var b' := b[..|b| - 1];
      assert (a + b)[..|a + b| - 1] == a + b';
      assert (a + b)[|a + b| - 1] == b[|b| - 1];
      assert b == b' + [b[|b| - 1]];
      HandlersAppend(a, b', btn);
      if forall c :: c in b ==> !TouchesHandlers(c, btn) {
        assert !TouchesHandlers(b[|b| - 1], btn);
        assert Handlers(a + b, btn) == Handlers(a + b', btn);
      }
    } else {
      assert a + b == a;
    }
  }

  /** Registering a handler the host does not hold yet appends it; nothing is removed. */
  lemma HandlersRegister(log: seq<HostCall>, btn: Button, h: Handler)
    ensures Handlers(log + [OnClick(btn, h)], btn) ==
            if h in Handlers(log, btn) then Handlers(log, btn) else Handlers(log, btn) + [h]
  {
    assert (log + [OnClick(btn, h)])[..|log|] == log;
  }

  // ----- initTelegram -----

  /** The calls `initTelegram` makes on a present host, in order. */
  function InitCalls(caps: Capabilities): seq<HostCall>
  {
    [Ready, Expand]
    + (if caps.requestFullscreen then [RequestFullscreen] else [])
    + (if caps.disableVerticalSwipes then [DisableVerticalSwipes] else [])
    + [SetHeaderColor(ThemeColor), SetBackgroundColor(ThemeColor)]
  }

  /**
   * The initialisation sequence: ready and expand first, the two theme colours
   * last, fullscreen (third) and swipe locking exactly when the host offers
   * them, and no button is ever touched.
   */
  lemma InitCallsShape(caps: Capabilities)
    ensures var calls := InitCalls(caps);
      4 <= |calls| <= 6 && calls[0] == Ready && calls[1] == Expand &&
      calls[|calls| - 2] == SetHeaderColor(ThemeColor) && calls[|calls| - 1] == SetBackgroundColor(ThemeColor)
    ensures RequestFullscreen in InitCalls(caps) <==> caps.requestFullscreen
    ensures DisableVerticalSwipes in InitCalls(caps) <==> caps.disableVerticalSwipes
    ensures caps.requestFullscreen ==> InitCalls(caps)[2] == RequestFullscreen
    ensures forall c :: c in InitCalls(caps) ==> !c.OnClick? && !c.OffClick? && !c.Show? && !c.Hide?
  {
  }

  /** `initTelegram()`: no run-once guard, so every call repeats the whole sequence. */
  method InitTelegram(tg: WebApp?, body: DocumentBody)
    modifies tg, body
    ensures tg == null ==> unchanged(body)
    ensures tg != null ==> tg.log == old(tg.log) + InitCalls(tg.caps)
    ensures tg != null ==> body.classes == old(body.classes) + (if tg.caps.requestFullscreen then {FullscreenClass} else {})
  {
    if tg == null {
      return;
    }
    tg.log := tg.log + [Ready];
    tg.log := tg.log + [Expand];
    if tg.caps.requestFullscreen {
      tg.log := tg.log + [RequestFullscreen];
      body.classes := body.classes + {FullscreenClass};
    }
    if tg.caps.disableVerticalSwipes {
      tg.log := tg.log + [DisableVerticalSwipes];
    }
    tg.log := tg.log + [SetHeaderColor(ThemeColor)];
    tg.log := tg.log + [SetBackgroundColor(ThemeColor)];
  }

  /** Running `initTelegram` twice negotiates twice: the helper is not idempotent. */
  lemma InitTwiceRepeats(log: seq<HostCall>, caps: Capabilities)
    ensures log + InitCalls(caps) + InitCalls(caps) != log + InitCalls(caps)
    ensures |log + InitCalls(caps) + InitCalls(caps)| == |log| + 2 * |InitCalls(caps)|
  {
    InitCallsShape(caps);
    assert |log + InitCalls(caps) + InitCalls(caps)| > |log + InitCalls(caps)|;
  }

  // ----- backButton -----

  /** `backButton.show(cb)`: `onClick(cb)` then `show()`; earlier callbacks stay registered. */
  method BackButtonShow(tg: WebApp?, cb: Handler)
    modifies tg
    ensures tg != null ==> tg.log == old(tg.log) + [OnClick(BackButton, cb), Show(BackButton)]
    ensures tg != null ==> Visible(tg.log, BackButton)
    ensures tg != null ==>
      Handlers(tg.log, BackButton) ==
        (if cb in old(Handlers(tg.log, BackButton)) then old(Handlers(tg.log, BackButton))
         else old(Handlers(tg.log, BackButton)) + [cb])
    ensures tg != null ==> Handlers(tg.log, MainButton) == old(Handlers(tg.log, MainButton))
  {
    if tg == null {
      return;
    }
    ghost var before := tg.log;
    tg.log := tg.log + [OnClick(BackButton, cb)];
    HandlersRegister(before, BackButton, cb);
    HandlersAppend(before, [OnClick(BackButton, cb)], MainButton);
    ghost var registered := tg.log;
    tg.log := tg.log + [Show(BackButton)];
    HandlersAppend(registered, [Show(BackButton)], BackButton);
    HandlersAppend(registered, [Show(BackButton)], MainButton);
    assert tg.log == before + [OnClick(BackButton, cb), Show(BackButton)];
  }

  /** `backButton.hide()`: only `BackButton.hide()`; registered callbacks are untouched. */
  method BackButtonHide(tg: WebApp?)
    modifies tg
    ensures tg != null ==> tg.log == old(tg.log) + [Hide(BackButton)]
    ensures tg != null ==> !Visible(tg.log, BackButton)
    ensures tg != null ==> forall b :: Handlers(tg.log, b) == old(Handlers(tg.log, b))
  {
    if tg == null {
      return;
    }
    ghost var before := tg.log;
    tg.log := tg.log + [Hide(BackButton)];
    forall b ensures Handlers(tg.log, b) == Handlers(before, b) {
      HandlersAppend(before, [Hide(BackButton)], b);
    }
  }

  /** `backButton.isVisible()`: `false` without a host, the host's flag otherwise. */
  method BackButtonIsVisible(tg: WebApp?) returns (visible: bool)
    ensures tg == null ==> !visible
    ensures tg != null ==> visible == Visible(tg.log, BackButton)
  {
    visible := tg != null && Visible(tg.log, BackButton);
  }

  // ----- mainButton -----

  /** `mainButton.show(text, cb)`: `setText(text)`, `onClick(cb)`, `show()`, in that order. */
  method MainButtonShow(tg: WebApp?, text: string, cb: Handler)
    modifies tg
    ensures tg != null ==> tg.log == old(tg.log) + [SetText(text), OnClick(MainButton, cb), Show(MainButton)]
    ensures tg != null ==> Visible(tg.log, MainButton) && MainText(tg.log) == Some(text)
    ensures tg != null ==> ProgressVisible(tg.log) == old(ProgressVisible(tg.log))
    ensures tg != null ==> cb in Handlers(tg.log, MainButton)
    ensures tg != null ==> Handlers(tg.log, BackButton) == old(Handlers(tg.log, BackButton))
  {
    if tg == null {
      return;
    }
    ghost var before := tg.log;
    tg.log := tg.log + [SetText(text)];
    tg.log := tg.log + [OnClick(MainButton, cb)];
    tg.log := tg.log + [Show(MainButton)];
    assert tg.log == before + [SetText(text), OnClick(MainButton, cb), Show(MainButton)];
    MainShowEffect(before, text, cb);
  }

  /** What the three calls of `mainButton.show` leave the host showing. */
  lemma MainShowEffect(before: seq<HostCall>, text: string, cb: Handler)
    ensures var after := before + [SetText(text), OnClick(MainButton, cb), Show(MainButton)];
      Visible(after, MainButton) && MainText(after) == Some(text) &&
      ProgressVisible(after) == ProgressVisible(before) && cb in Handlers(after, MainButton) &&
      Handlers(after, BackButton) == Handlers(before, BackButton)
  {
    var texted := before + [SetText(text)];
    var after := texted + [OnClick(MainButton, cb), Show(MainButton)];
    assert after == before + [SetText(text), OnClick(MainButton, cb), Show(MainButton)];
    LatestFlagAppend(before, [SetText(text), OnClick(MainButton, cb), Show(MainButton)], ShowProgress, HideProgress);
    MainTextAppend(texted, [OnClick(MainButton, cb), Show(MainButton)]);
    assert texted[..|texted| - 1] == before;
    MainShowHandlers(before, text, cb);
  }

  /** `mainButton.show` registers its callback and leaves the back button's alone. */
  lemma MainShowHandlers(before: seq<HostCall>, text: string, cb: Handler)
    ensures var after := before + [SetText(text), OnClick(MainButton, cb), Show(MainButton)];
      cb in Handlers(after, MainButton) && Handlers(after, BackButton) == Handlers(before, BackButton)
  {
    var texted := before + [SetText(text)];
    var registered := texted + [OnClick(MainButton, cb)];
    assert registered + [Show(MainButton)] == before + [SetText(text), OnClick(MainButton, cb), Show(MainButton)];
    HandlersAppend(before, [SetText(text)], MainButton);
    HandlersAppend(before, [SetText(text)], BackButton);
    HandlersRegister(texted, MainButton, cb);
    HandlersAppend(texted, [OnClick(MainButton, cb)], BackButton);
    HandlersAppend(registered, [Show(MainButton)], MainButton);
    HandlersAppend(registered, [Show(MainButton)], BackButton);
  }

  /** `mainButton.hide()`: only `MainButton.hide()`. */
  method MainButtonHide(tg: WebApp?)
    modifies tg
    ensures tg != null ==> tg.log == old(tg.log) + [Hide(MainButton)]
    ensures tg != null ==> !Visible(tg.log, MainButton) && MainText(tg.log) == old(MainText(tg.log))
    ensures tg != null ==> ProgressVisible(tg.log) == old(ProgressVisible(tg.log))
  {
    if tg == null {
      return;
    }
    ghost var before := tg.log;
    tg.log := tg.log + [Hide(MainButton)];
    LatestFlagAppend(before, [Hide(MainButton)], ShowProgress, HideProgress);
    MainTextAppend(before, [Hide(MainButton)]);
  }

  /** `mainButton.showProgress()`: only the progress call; visibility and text stay as they were. */
  method MainButtonShowProgress(tg: WebApp?)
    modifies tg
    ensures tg != null ==> tg.log == old(tg.log) + [ShowProgress]
    ensures tg != null ==> ProgressVisible(tg.log)
    ensures tg != null ==> Visible(tg.log, MainButton) == old(Visible(tg.log, MainButton))
    ensures tg != null ==> MainText(tg.log) == old(MainText(tg.log))
  {
    if tg == null {
      return;
    }
    ghost var before := tg.log;
    tg.log := tg.log + [ShowProgress];
    LatestFlagAppend(before, [ShowProgress], Show(MainButton), Hide(MainButton));
    MainTextAppend(before, [ShowProgress]);
  }

  /** `mainButton.hideProgress()`: only the progress call; hiding progress does not hide the button. */
  method MainButtonHideProgress(tg: WebApp?)
    modifies tg
    ensures tg != null ==> tg.log == old(tg.log) + [HideProgress]
    ensures tg != null ==> !ProgressVisible(tg.log)
    ensures tg != null ==> Visible(tg.log, MainButton) == old(Visible(tg.log, MainButton))
    ensures tg != null ==> MainText(tg.log) == old(MainText(tg.log))
  {
    if tg == null {
      return;
    }
    ghost var before := tg.log;
    tg.log := tg.log + [HideProgress];
    LatestFlagAppend(before, [HideProgress], Show(MainButton), Hide(MainButton));
    MainTextAppend(before, [HideProgress]);
  }

  // ----- haptic -----

  /** The seven members of the `haptic` helper object. */
  datatype HapticKind = LightHaptic | MediumHaptic | HeavyHaptic | SuccessHaptic | ErrorHaptic | WarningHaptic | SelectionHaptic

  /** The one host call each haptic helper makes. */
  function HapticCall(h: HapticKind): (c: HostCall)
    ensures c.ImpactOccurred? <==> h in {LightHaptic, MediumHaptic, HeavyHaptic}
    ensures c.NotificationOccurred? <==> h in {SuccessHaptic, ErrorHaptic, WarningHaptic}
    ensures c == SelectionChanged <==> h == SelectionHaptic
    ensures c.ImpactOccurred? ==> c.style != Rigid && c.style != Soft
  {
    match h
    case LightHaptic => ImpactOccurred(Light)
    case MediumHaptic => ImpactOccurred(Medium)
    case HeavyHaptic => ImpactOccurred(Heavy)
    case SuccessHaptic => NotificationOccurred(Success)
    case ErrorHaptic => NotificationOccurred(Error)
    case WarningHaptic => NotificationOccurred(Warning)
    case SelectionHaptic => SelectionChanged
  }

  /** Distinct helpers make distinct calls. */
  lemma HapticCallInjective(a: HapticKind, b: HapticKind)
    ensures HapticCall(a) == HapticCall(b) ==> a == b
  {
  }

  /** `haptic.light()` … `haptic.selection()`: exactly one host call, none without a host. */
  method Haptic(tg: WebApp?, h: HapticKind)
    modifies tg
    ensures tg != null ==> tg.log == old(tg.log) + [HapticCall(h)]
    ensures tg != null ==> forall b :: Visible(tg.log, b) == old(Visible(tg.log, b)) && Handlers(tg.log, b) == old(Handlers(tg.log, b))
  {
    if tg == null {
      return;
    }
    ghost var before := tg.log;
    tg.log := tg.log + [HapticCall(h)];
    forall b ensures Visible(tg.log, b) == Visible(before, b) && Handlers(tg.log, b) == Handlers(before, b) {
      LatestFlagAppend(before, [HapticCall(h)], Show(b), Hide(b));
      HandlersAppend(before, [HapticCall(h)], b);
    }
  }

  // ----- user and close -----

  /** `getTelegramUser()`: the user the host reports, or `null`; nothing is made up. */
  method GetTelegramUser(tg: WebApp?) returns (u: Option<User>)
    ensures tg == null ==> u == None
    ensures tg != null ==> u == tg.user
  {
    if tg == null {
      u := None;
    } else {
      u := tg.user;
    }
  }

  /** `closeApp()`: `close()` when a host exists, nothing otherwise. */
  method CloseApp(tg: WebApp?)
    modifies tg
    ensures tg != null ==> tg.log == old(tg.log) + [Close]
  {
    if tg != null {
      tg.log := tg.log + [Close];
    }
  }

  /** No bridge helper ever unregisters a handler: none of the sequences they emit holds `offClick`. */
  lemma BridgeNeverUnregisters(caps: Capabilities, cb: Handler, text: string, h: HapticKind)
    ensures forall c :: c in InitCalls(caps) ==> !c.OffClick?
    ensures forall c :: c in [OnClick(BackButton, cb), Show(BackButton)] ==> !c.OffClick?
    ensures forall c :: c in [SetText(text), OnClick(MainButton, cb), Show(MainButton)] ==> !c.OffClick?
    ensures !HapticCall(h).OffClick?
  {
    InitCallsShape(caps);
  }
}
