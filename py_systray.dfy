/**
 * libexec/mx-arch-updater/updater_systray.py: the Python tray icon.  It keeps
 * the last state document the monitor sent, replaces it wholesale on every
 * valid `stateChanged` payload, and on each update picks the icon, the
 * tooltip and the visibility, and shows a notification once per stretch of
 * available updates (the latch of TrayApp, which the C++ tray shares).
 *
 * The settings file, the environment (MX_ARCH_UPDATER_PATH, which files and
 * directories exist, what is on the PATH), the monitor's reachability and its
 * replies are parameters.  What `_update_ui` raises is returned.
 */
module PySystray {
  import opened Wrappers
  import opened Text
  import opened Json
  import PyCommon
  import PySystemMonitor
  import SettingsDialog
  import PySettings
  import TrayApp

  const DEFAULT_THEME: String := "wireframe-dark"
  const DEFAULT_HELPER: String := "paru"
  const VIEW_BIN: String := "updater-view-and-upgrade"

  /** The environment: MX_ARCH_UPDATER_PATH, the file system, the PATH and Python's repr of containers. */
  datatype Env = Env(root: Option<String>, dirExists: String -> bool, fileExists: String -> bool,
                     onPath: String -> bool, repr: Json -> String)

  /** The tray icon as shown: its icon file (none before the first one is set), tooltip and visibility. */
  datatype Look = Look(icon: Option<String>, tooltip: String, visible: bool)

  /** A QSystemTrayIcon before anything is set on it. */
  const BLANK: Look := Look(None, "", false)

  // ---------------------------------------------------------------- the state document

  /** The state before the monitor sends one: all counts 0, no packages, status "idle". */
  function InitialState(): Json {
    var counts := map["upgrade" := JNum(0), "new" := JNum(0), "remove" := JNum(0), "held" := JNum(0)];
    JObj(map["counts" := JObj(counts), "packages" := JArr([]), "status" := JStr("idle")])
  }

  /** The whole text is decimal digits. */
  predicate AllDigits(s: String) {
    forall i :: 0 <= i < |s| ==> IsDigit(s[i])
  }

  /** int() of text without surrounding white space: an optional sign and at least one decimal digit. */
  function SignedDigits(t: String): (r: Py<int>)
    ensures r.Raised? ==> r.error == ValueError
  {
    var digits := if |t| > 0 && (t[0] == '-' || t[0] == '+') then t[1..] else t;
    if digits != [] && AllDigits(digits) then
      Returned(if t[0] == '-' then 0 - DigitsValue(digits) else DigitsValue(digits))
    else Raised(ValueError)
  }

  /** int() of text: surrounding white space is ignored; anything but a signed number raises ValueError. */
  function IntText(s: String): (r: Py<int>)
    ensures r.Raised? ==> r.error == ValueError
  {
    SignedDigits(Trim(PySpace, s))
  }

  /** A natural number's digits, with or without a minus sign, are read as its value. */
  lemma SignedDigitsOfNat(m: nat)
    ensures SignedDigits(NatToString(m)) == Returned(m)
    ensures SignedDigits("-" + NatToString(m)) == Returned(0 - m)
  {
    NatToStringValue(m);
    var d := NatToString(m);
    assert IsDigit(d[0]);
    assert ("-" + d)[1..] == d;
  }

  /** int() reads back what str() writes. */
  lemma IntTextRoundTrip(n: int)
    ensures IntText(IntToString(n)) == Returned(n)
  {
    var m: nat := if n < 0 then -n else n;
    var d := NatToString(m);
    var s := IntToString(n);
    assert IsDigit(d[0]) && IsDigit(d[|d| - 1]);
    assert s[|s| - 1] == d[|d| - 1];
    TrimNoBlankEnds(PySpace, s);
    SignedDigitsOfNat(m);
  }

  /** int() of a decoded JSON value: numbers as they are, True and False as 1 and 0, text parsed; else TypeError. */
  function PyInt(v: Json): (r: Py<int>)
    ensures v.JNum? ==> r == Returned(v.n)
    ensures v.JBool? ==> r == Returned(if v.b then 1 else 0)
    ensures v.JStr? ==> r == IntText(v.s)
    ensures v.JNull? || v.JArr? || v.JObj? ==> r == Raised(TypeError)
  {
    match v
    case JNum(n) => Returned(n)
    case JBool(b) => Returned(if b then 1 else 0)
    case JStr(s) => IntText(s)
    case _ => Raised(TypeError)
  }

  /** str() of a decoded JSON value inside an f-string. */
  function Format(v: Json, repr: Json -> String): (t: String)
    ensures v.JNum? ==> t == IntToString(v.n)
    ensures v.JStr? ==> t == v.s
    ensures v.JBool? ==> t == (if v.b then "True" else "False")
  {
    match v
    case JNum(n) => IntToString(n)
    case JStr(s) => s
    case JBool(b) => if b then "True" else "False"
    case JNull => "None"
    case _ => repr(v)
  }

  /** state.get("counts", {}): AttributeError when the state is not an object. */
  function CountsOf(state: Json): (r: Py<Json>)
    ensures r.Returned? <==> state.JObj?
    ensures state.JObj? ==> r.value == Get(state.fields, "counts").GetOr(JObj(map[]))
  {
    if state.JObj? then Returned(Get(state.fields, "counts").GetOr(JObj(map[]))) else Raised(AttributeError)
  }

  /** A member of the counts object, 0 when it is missing. */
  function Count(counts: Object, key: String): Json {
    Get(counts, key).GetOr(JNum(0))
  }

  /** int(counts.get("upgrade", 0)), raising where Python does. */
  function Upgrades(state: Json): (r: Py<int>) {
    var counts := CountsOf(state);
    if counts.Raised? then Raised(counts.error)
    else if !counts.value.JObj? then Raised(AttributeError)
    else PyInt(Count(counts.value.fields, "upgrade"))
  }

  /** What reading the upgrade count raises: AttributeError for a non-object, ValueError or TypeError for the value. */
  lemma UpgradesErrors(state: Json)
    ensures Upgrades(state).Raised? ==> Upgrades(state).error in {AttributeError, ValueError, TypeError}
    ensures !state.JObj? ==> Upgrades(state) == Raised(AttributeError)
  {
  }

  /** A missing "counts" or a missing "upgrade" reads as 0; a number reads as itself. */
  lemma UpgradesMissing(state: Json)
    requires state.JObj?
    ensures "counts" !in state.fields ==> Upgrades(state) == Returned(0)
    ensures "counts" in state.fields && state.fields["counts"].JObj? ==>
      var counts := state.fields["counts"].fields;
      ("upgrade" !in counts ==> Upgrades(state) == Returned(0)) &&
      ("upgrade" in counts && counts["upgrade"].JNum? ==> Upgrades(state) == Returned(counts["upgrade"].n))
  {
  }

  /** The tooltip: the four counts, each as str() shows the member (0 when missing). */
  function Tooltip(counts: Object, repr: Json -> String): String {
    "Upgrades: " + Format(Count(counts, "upgrade"), repr) + "\nNew: " + Format(Count(counts, "new"), repr) +
    "\nRemove: " + Format(Count(counts, "remove"), repr) + "\nHeld: " + Format(Count(counts, "held"), repr)
  }

  /** Nothing is available before the monitor's first state, and the tooltip shows 0 for each count. */
  lemma InitialStateIdle(repr: Json -> String)
    ensures Upgrades(InitialState()) == Returned(0)
    ensures InitialState().fields["counts"].JObj?
    ensures var counts := InitialState().fields["counts"].fields;
      Format(Count(counts, "upgrade"), repr) == "0" && Format(Count(counts, "new"), repr) == "0" &&
      Format(Count(counts, "remove"), repr) == "0" && Format(Count(counts, "held"), repr) == "0"
  {
    assert IntToString(0) == "0";
  }

  /**
   * The document the Python monitor emits after a check, once decoded, has
   * the number of upgrade lines as its upgrade count: the tray shows updates
   * exactly when that number is positive.
   */
  lemma MonitorStateAvailable(c: Codec, lines: seq<String>, now: int, upgrades: nat, removed: nat, held: nat)
    requires c.Sound()
    ensures var state := JObj(PySystemMonitor.PyCheckedState(lines, now, upgrades, removed, held));
      c.parse(c.plain(state)) == Some(state) && Upgrades(state) == Returned(upgrades)
  {
    PySystemMonitor.PyCheckedStateShape(lines, now, upgrades, removed, held);
  }

  // ---------------------------------------------------------------- settings

  /** The auto_hide setting, "false" when missing. */
  predicate AutoHideOn(store: PySettings.Store) {
    PySettings.TrueText(PySettings.TextOf(store, SettingsDialog.AutoHide, "false"))
  }

  /** The notify setting, "true" when missing. */
  predicate NotifyOn(store: PySettings.Store) {
    PySettings.TrueText(PySettings.TextOf(store, SettingsDialog.Notify, "true"))
  }

  /** _icon_path's theme: the setting when it is a known theme, else "wireframe-dark". */
  function Theme(store: PySettings.Store, themes: seq<String>): (t: String)
    ensures t in themes || t == DEFAULT_THEME
    ensures PySettings.TextOf(store, SettingsDialog.IconTheme, DEFAULT_THEME) in themes ==>
      t == PySettings.TextOf(store, SettingsDialog.IconTheme, DEFAULT_THEME)
    ensures PySettings.TextOf(store, SettingsDialog.IconTheme, DEFAULT_THEME) !in themes ==> t == DEFAULT_THEME
  {
    var theme := PySettings.TextOf(store, SettingsDialog.IconTheme, DEFAULT_THEME);
    if theme in themes then theme else DEFAULT_THEME
  }

  /** _icon_path: the icon under the data root for the theme, the "available" icon exactly when updates are. */
  function IconFor(store: PySettings.Store, themes: seq<String>, env: Env, available: bool): (r: Py<String>)
    ensures r == PyCommon.IconPath(env.root, env.dirExists, Theme(store, themes),
                                   if available then TrayApp.AVAILABLE_ICON else TrayApp.UP_TO_DATE_ICON)
  {
    var name := if available then TrayApp.AVAILABLE_ICON else TrayApp.UP_TO_DATE_ICON;
    PyCommon.IconPath(env.root, env.dirExists, Theme(store, themes), name)
  }

  // ---------------------------------------------------------------- _update_ui

  /** What an update leaves: the look, the latch and the messages it showed. */
  datatype Ui = Ui(look: Look, notified: bool, shown: seq<TrayApp.Message>)

  /**
   * _update_ui on a state, given the look and the latch before it: the
   * upgrade count, then the icon path (either can raise), then the icon (kept
   * when the file is missing), tooltip, visibility and notification.
   */
  function UpdatedUi(state: Json, store: PySettings.Store, themes: seq<String>, env: Env, look: Look,
                     notified: bool): Py<Ui>
  {
    var upgrades := Upgrades(state);
    if upgrades.Raised? then Raised(upgrades.error)
    else
      var available := upgrades.value > 0;
      var path := IconFor(store, themes, env, available);
      if path.Raised? then Raised(path.error)
      else
        var tooltip := Tooltip(CountsOf(state).value.fields, env.repr);
        var round := TrayApp.Round(NotifyOn(store), available);
        Returned(Ui(Look(if env.fileExists(path.value) then Some(path.value) else look.icon, tooltip,
                         !(AutoHideOn(store) && !available)),
                    TrayApp.Latched(notified, round), TrayApp.Announcement(notified, round, tooltip)))
  }

  /**
   * An update succeeds exactly when the upgrade count and the icon path can
   * be read; it raises only AttributeError, ValueError, TypeError or
   * SystemExit.  Otherwise the tray is visible unless auto-hide is on and
   * nothing is available, takes the icon when its file exists (else keeps the
   * old one), and the latch and the message follow TrayApp's latch.
   */
  lemma UpdatedUiShape(state: Json, store: PySettings.Store, themes: seq<String>, env: Env, look: Look, notified: bool)
    ensures var r := UpdatedUi(state, store, themes, env, look, notified);
      (r.Returned? <==> Upgrades(state).Returned? && IconFor(store, themes, env, Upgrades(state).value > 0).Returned?) &&
      (r.Raised? ==> r.error in {AttributeError, ValueError, TypeError, SystemExit})
    ensures var r := UpdatedUi(state, store, themes, env, look, notified);
      r.Returned? ==>
        var available := Upgrades(state).value > 0;
        var round := TrayApp.Round(NotifyOn(store), available);
        var path := IconFor(store, themes, env, available).value;
        r.value.look.visible == !(AutoHideOn(store) && !available) &&
        r.value.look.icon == (if env.fileExists(path) then Some(path) else look.icon) &&
        r.value.notified == TrayApp.Latched(notified, round) &&
        r.value.shown == TrayApp.Announcement(notified, round, r.value.look.tooltip)
  {
    UpgradesErrors(state);
  }

  /** A second update of the same state changes nothing and shows no second message. */
  lemma UpdatedUiAgain(state: Json, store: PySettings.Store, themes: seq<String>, env: Env, look: Look, notified: bool)
    requires UpdatedUi(state, store, themes, env, look, notified).Returned?
    ensures var u := UpdatedUi(state, store, themes, env, look, notified).value;
      UpdatedUi(state, store, themes, env, u.look, u.notified) == Returned(Ui(u.look, u.notified, []))
  {
    var u := UpdatedUi(state, store, themes, env, look, notified).value;
    var round := TrayApp.Round(NotifyOn(store), Upgrades(state).value > 0);
    TrayApp.LatchedAgain(notified, round, u.look.tooltip);
  }

  // ---------------------------------------------------------------- clicks

  /** What a click does: start a program, show a message, or nothing. */
  datatype Effect = Started(program: String) | Shown(message: TrayApp.Message) | NoEffect

  /** launch_helper's helper: the setting, "paru" when it is missing or empty. */
  function HelperName(store: PySettings.Store): (h: String)
    ensures h != ""
    ensures SettingsDialog.Helper in store && store[SettingsDialog.Helper] != "" ==> h == store[SettingsDialog.Helper]
    ensures !(SettingsDialog.Helper in store && store[SettingsDialog.Helper] != "") ==> h == DEFAULT_HELPER
  {
    var helper := PySettings.TextOf(store, SettingsDialog.Helper, DEFAULT_HELPER);
    if helper != "" then helper else DEFAULT_HELPER
  }

  /**
   * _launch_bin's path: Path(root) / "bin" / name, where a missing or empty
   * MX_ARCH_UPDATER_PATH, like ".", is the current directory.
   */
  function BinPath(root: Option<String>, name: String): (p: String)
    ensures |p| >= 4 + |name| && p[|p| - |name| - 4..] == "bin/" + name
    ensures (root.None? || root.value == "" || root.value == ".") ==> p == "bin/" + name
    ensures root.Some? && root.value != "" && root.value != "." ==> root.value <= p
  {
    PyCommon.PathJoin(root.GetOr("."), "bin/" + name)
  }

  /** _on_activated: Trigger opens the view when its program exists, MiddleClick runs the helper or says it is missing. */
  function ActivationEffect(reason: TrayApp.ActivationReason, store: PySettings.Store, env: Env): (e: Effect)
    ensures reason == TrayApp.Trigger ==>
      e == (if env.fileExists(BinPath(env.root, VIEW_BIN)) then Started(BinPath(env.root, VIEW_BIN)) else NoEffect)
    ensures reason == TrayApp.MiddleClick && env.onPath(HelperName(store)) ==> e == Started(HelperName(store))
    ensures reason == TrayApp.MiddleClick && !env.onPath(HelperName(store)) ==>
      e == Shown(TrayApp.Message("Helper not found", "Could not locate " + HelperName(store)))
    ensures reason != TrayApp.Trigger && reason != TrayApp.MiddleClick ==> e == NoEffect
  {
    if reason == TrayApp.Trigger then
      var path := BinPath(env.root, VIEW_BIN);
      if env.fileExists(path) then Started(path) else NoEffect
    else if reason == TrayApp.MiddleClick then
      var helper := HelperName(store);
      if env.onPath(helper) then Started(helper)
      else Shown(TrayApp.Message("Helper not found", "Could not locate " + helper))
    else NoEffect
  }

  /** The exception an update raised, if any. */
  function ErrorOf(r: Py<Ui>): (e: Option<PyError>)
    ensures e.Some? <==> r.Raised?
  {
    if r.Raised? then Some(r.error) else None
  }

  /** _update_ui's computation, step by step as the handler runs it. */
  method ComputeUi(state: Json, store: PySettings.Store, themes: seq<String>, env: Env, look: Look, notified: bool)
    returns (r: Py<Ui>)
    ensures r == UpdatedUi(state, store, themes, env, look, notified)
  {
    var upgrades := Upgrades(state);
    if upgrades.Raised? {
      return Raised(upgrades.error);
    }
    var available := upgrades.value > 0;
    var autoHide := AutoHideOn(store);
    var path := IconFor(store, themes, env, available);
    if path.Raised? {
      return Raised(path.error);
    }
    var icon := look.icon;
    if env.fileExists(path.value) {
      icon := Some(path.value);
    }
    var tooltip := Tooltip(CountsOf(state).value.fields, env.repr);
    var shown := [];
    var latch := notified;
    if NotifyOn(store) && available && !latch {
      shown := [TrayApp.Message("Updates Available", tooltip)];
      latch := true;
    }
    if !available {
      latch := false;
    }
    r := Returned(Ui(Look(icon, tooltip, !(autoHide && !available)), latch, shown));
  }

  // ---------------------------------------------------------------- the tray

  class Tray {
    const themes: seq<String>
    /** The last state document, `_state`. */
    var state: Json
    var notifiedAvailable: bool
    var look: Look
    /** The notifications shown, oldest first. */
    var messages: seq<TrayApp.Message>
    /** The programs started, oldest first. */
    var launched: seq<String>

    /**
     * The tray after an update with outcome `r`, from the look, latch and
     * messages before it: unchanged when the update raised.
     */
    ghost predicate Applied(r: Py<Ui>, look0: Look, notified0: bool, messages0: seq<TrayApp.Message>)
      reads this
    {
      match r
      case Raised(_) => look == look0 && notifiedAvailable == notified0 && messages == messages0
      case Returned(u) => look == u.look && notifiedAvailable == u.notified && messages == messages0 + u.shown
    }

    /**
     * __init__: the initial state, then _setup_dbus's refresh (an update only
     * when the monitor is unreachable), an update and `show()`.  When an
     * update raises, the exception leaves __init__ and nothing is shown.
     */
    constructor (store: PySettings.Store, env: Env, monitorValid: bool)
      ensures themes == PyCommon.ICON_THEMES && state == InitialState() && launched == []
      ensures var r := UpdatedUi(InitialState(), store, themes, env, BLANK, false);
        (r.Raised? ==> look == BLANK && messages == [] && !notifiedAvailable) &&
        (r.Returned? ==> look == r.value.look.(visible := true) && messages == r.value.shown &&
                         notifiedAvailable == r.value.notified)
    {
      themes := PyCommon.ICON_THEMES;
      state := InitialState();
      notifiedAvailable := false;
      look := BLANK;
      messages := [];
      launched := [];
      new;
      Start(store, env, monitorValid);
    }

    /** The part of __init__ after the initial state. */
    method Start(store: PySettings.Store, env: Env, monitorValid: bool)
      requires look == BLANK && !notifiedAvailable && messages == []
      modifies this
      ensures state == old(state) && launched == old(launched)
      ensures var r := UpdatedUi(state, store, themes, env, BLANK, false);
        (r.Raised? ==> look == BLANK && messages == [] && !notifiedAvailable) &&
        (r.Returned? ==> look == r.value.look.(visible := true) && messages == r.value.shown &&
                         notifiedAvailable == r.value.notified)
    {
      ghost var r := UpdatedUi(state, store, themes, env, BLANK, false);
      if r.Returned? {
        UpdatedUiAgain(state, store, themes, env, BLANK, false);
      }
      var err := Refresh(store, env, monitorValid);
      if err.Some? {
        return;
      }
      err := UpdateUI(store, env);
      if err.Some? {
        return;
      }
      look := look.(visible := true);
    }

    /**
     * _update_ui: on an exception nothing changes and the error is returned;
     * otherwise the look, the latch and the messages are as UpdatedUi says.
     */
    method UpdateUI(store: PySettings.Store, env: Env) returns (err: Option<PyError>)
      modifies this
      ensures var r := UpdatedUi(old(state), store, themes, env, old(look), old(notifiedAvailable));
        err == ErrorOf(r) && Applied(r, old(look), old(notifiedAvailable), old(messages))
      ensures state == old(state) && launched == old(launched)
    {
      var r := ComputeUi(state, store, themes, env, look, notifiedAvailable);
      if r.Raised? {
        return Some(r.error);
      }
      look := r.value.look;
      notifiedAvailable := r.value.notified;
      messages := messages + r.value.shown;
      err := None;
    }

    /** _on_state_changed: an undecodable payload is ignored; otherwise it replaces the state and the tray updates. */
    method OnStateChanged(c: Codec, payload: String, store: PySettings.Store, env: Env) returns (err: Option<PyError>)
      modifies this
      ensures c.parse(payload).None? ==>
        err == None && state == old(state) && look == old(look) && messages == old(messages) &&
        notifiedAvailable == old(notifiedAvailable)
      ensures c.parse(payload).Some? ==>
        var r := UpdatedUi(c.parse(payload).value, store, themes, env, old(look), old(notifiedAvailable));
        state == c.parse(payload).value && err == ErrorOf(r) &&
        Applied(r, old(look), old(notifiedAvailable), old(messages))
      ensures launched == old(launched)
    {
      var doc := c.parse(payload);
      if doc.None? {
        return None;
      }
      state := doc.value;
      err := UpdateUI(store, env);
    }

    /** refresh: asks a reachable monitor to refresh (its answer arrives as a signal); otherwise updates. */
    method Refresh(store: PySettings.Store, env: Env, monitorValid: bool) returns (err: Option<PyError>)
      modifies this
      ensures monitorValid ==>
        err == None && look == old(look) && messages == old(messages) && notifiedAvailable == old(notifiedAvailable)
      ensures !monitorValid ==>
        var r := UpdatedUi(old(state), store, themes, env, old(look), old(notifiedAvailable));
        err == ErrorOf(r) && Applied(r, old(look), old(notifiedAvailable), old(messages))
      ensures state == old(state) && launched == old(launched)
    {
      if monitorValid {
        return None;
      }
      err := UpdateUI(store, env);
    }

    /** poll_state: with the monitor reachable and a reply, the reply is handled as a stateChanged payload. */
    method PollState(c: Codec, store: PySettings.Store, env: Env, monitorValid: bool, reply: Option<String>)
      returns (err: Option<PyError>)
      modifies this
      ensures !(monitorValid && reply.Some? && c.parse(reply.value).Some?) ==>
        err == None && state == old(state) && look == old(look) && messages == old(messages) &&
        notifiedAvailable == old(notifiedAvailable)
      ensures monitorValid && reply.Some? && c.parse(reply.value).Some? ==>
        var r := UpdatedUi(c.parse(reply.value).value, store, themes, env, old(look), old(notifiedAvailable));
        state == c.parse(reply.value).value && err == ErrorOf(r) &&
        Applied(r, old(look), old(notifiedAvailable), old(messages))
      ensures launched == old(launched)
    {
      if !monitorValid || reply.None? {
        return None;
      }
      err := OnStateChanged(c, reply.value, store, env);
    }

    /** _on_activated, open_view and launch_helper. */
    method OnActivated(reason: TrayApp.ActivationReason, store: PySettings.Store, env: Env)
      modifies this
      ensures var e := ActivationEffect(reason, store, env);
        launched == old(launched) + (if e.Started? then [e.program] else []) &&
        messages == old(messages) + (if e.Shown? then [e.message] else [])
      ensures state == old(state) && look == old(look) && notifiedAvailable == old(notifiedAvailable)
    {
      if reason == TrayApp.Trigger {
        var path := BinPath(env.root, VIEW_BIN);
        if env.fileExists(path) {
          launched := launched + [path];
        }
      } else if reason == TrayApp.MiddleClick {
        var helper := PySettings.TextOf(store, SettingsDialog.Helper, DEFAULT_HELPER);
        if helper == "" {
          helper := DEFAULT_HELPER;
        }
        if env.onPath(helper) {
          launched := launched + [helper];
        } else {
          messages := messages + [TrayApp.Message("Helper not found", "Could not locate " + helper)];
        }
      }
    }
  }
}
