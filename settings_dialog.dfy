/**
 * src/settings_dialog.cpp: the preferences window.  `load` fills the form
 * from the settings store (with a default for every key), `save` writes the
 * form back, and `toBool` reads a boolean setting that may have been stored
 * as a bool, a number or text.
 *
 * The store is a map from keys to the values a QVariant can hold here; the
 * icon themes and the upgrade modes the window lists are parameters.
 */
module SettingsDialog {
  import opened Wrappers
  import opened Text
  import Common

  /** A stored setting: QVariant holding a bool, text or an integer. */
  datatype Stored = SBool(b: bool) | SText(s: String) | SNum(n: int)

  /** The keys the window reads and writes, under the "Settings" group. */
  datatype Key = IconTheme | AutoHide | Notify | StartAtLogin | UpgradeMode | Helper

  /** The key as QSettings spells it. */
  function KeyName(k: Key): String {
    match k
    case IconTheme => "Settings/icon_theme"
    case AutoHide => "Settings/auto_hide"
    case Notify => "Settings/notify"
    case StartAtLogin => "Settings/start_at_login"
    case UpgradeMode => "Settings/upgrade_mode"
    case Helper => "Settings/helper"
  }

  /** The store restricted to the window's keys. */
  type Store = map<Key, Stored>

  const DEFAULT_THEME: String := "wireframe-dark"
  const DEFAULT_MODE: String := "basic"
  const DEFAULT_HELPER: String := "paru"

  /** QVariant::toString: "true"/"false" for a bool, the text itself, or the decimal digits. */
  function VariantText(v: Stored): (t: String)
    ensures v.SBool? ==> t == (if v.b then "true" else "false")
    ensures v.SText? ==> t == v.s
  {
    match v
    case SBool(b) => if b then "true" else "false"
    case SText(s) => s
    case SNum(n) => IntToString(n)
  }

  /** QSettings::value(key, default). */
  function Value(store: Store, key: Key, default: Stored): (v: Stored)
    ensures key in store ==> v == store[key]
    ensures key !in store ==> v == default
  {
    if key in store then store[key] else default
  }

  /** toBool: the value, stringified and lower-cased, is "true", "1" or "yes". */
  predicate ToBool(store: Store, key: Key, default: bool) {
    var value := Lower(VariantText(Value(store, key, SBool(default))));
    value == "true" || value == "1" || value == "yes"
  }

  /** toBool as the window calls it. */
  method ReadBool(store: Store, key: Key, default: bool) returns (b: bool)
    ensures b == ToBool(store, key, default)
  {
    var value := Lower(VariantText(Value(store, key, SBool(default))));
    b := value == "true" || value == "1" || value == "yes";
  }

  /** A missing key reads as its default, since the default bool stringifies to "true" or "false". */
  lemma ToBoolDefault(store: Store, key: Key, default: bool)
    requires key !in store
    ensures ToBool(store, key, default) == default
  {
    if !default {
      assert Lower("false")[0] == 'f';
    }
  }

  /** A stored bool reads as itself, whatever the default. */
  lemma ToBoolStored(store: Store, key: Key, b: bool, default: bool)
    requires key in store && store[key] == SBool(b)
    ensures ToBool(store, key, default) == b
  {
    if b {
      assert Lower("true") == "true";
    } else {
      assert Lower("false")[0] == 'f';
    }
  }

  /** Text reads as true exactly when it is "true", "1" or "yes" up to the case of its letters. */
  lemma ToBoolText(store: Store, key: Key, t: String, default: bool)
    requires key in store && store[key] == SText(t)
    ensures ToBool(store, key, default) <==> Lower(t) == "true" || Lower(t) == "1" || Lower(t) == "yes"
  {
  }

  /** The position of the first `x` in `xs`, or -1 (QComboBox::findText, the search in load). */
  function FirstIndex(xs: seq<String>, x: String): (i: int)
    ensures -1 <= i < |xs|
    ensures i >= 0 ==> xs[i] == x && forall j :: 0 <= j < i ==> xs[j] != x
    ensures i == -1 <==> x !in xs
    decreases |xs|
  {
    if xs == [] then -1
    else if xs[0] == x then 0
    else
      var k := FirstIndex(xs[1..], x);
      if k == -1 then -1 else k + 1
  }

  /**
   * The form's state: the current theme item, the three check boxes, the
   * current upgrade mode (-1 when the list is empty) and the helper text.
   */
  datatype Form = Form(theme: Option<nat>, autoHide: bool, notify: bool, startLogin: bool, mode: int, helper: String)

  /** The current item and the current mode point into the lists. */
  predicate ValidForm(f: Form, themes: seq<String>, modes: seq<String>) {
    (f.theme.Some? ==> f.theme.value < |themes|) && -1 <= f.mode < |modes|
  }

  /** QComboBox::currentText: the current mode, or "" when there is none. */
  function CurrentText(modes: seq<String>, mode: int): String {
    if 0 <= mode < |modes| then modes[mode] else ""
  }

  /** QComboBox::setCurrentText on a non-editable box: selects the matching mode, if any. */
  function SelectText(modes: seq<String>, mode: int, text: String): (m: int)
    ensures text in modes ==> 0 <= m < |modes| && modes[m] == text
    ensures text !in modes ==> m == mode
  {
    var k := FirstIndex(modes, text);
    if k >= 0 then k else mode
  }

  /** The form after load, given the form before it. */
  function LoadedForm(store: Store, themes: seq<String>, modes: seq<String>, f: Form): (r: Form)
    ensures ValidForm(f, themes, modes) ==> ValidForm(r, themes, modes)
  {
    var k := FirstIndex(themes, VariantText(Value(store, IconTheme, SText(DEFAULT_THEME))));
    Form(if k >= 0 then Some(k) else f.theme,
         ToBool(store, AutoHide, false), ToBool(store, Notify, true), ToBool(store, StartAtLogin, true),
         SelectText(modes, f.mode, VariantText(Value(store, UpgradeMode, SText(DEFAULT_MODE)))),
         VariantText(Value(store, Helper, SText(DEFAULT_HELPER))))
  }

  /** The store after save. */
  function SavedStore(store: Store, themes: seq<String>, modes: seq<String>, f: Form): Store {
    var withTheme := if f.theme.Some? && f.theme.value < |themes| then store[IconTheme := SText(themes[f.theme.value])]
                     else store;
    withTheme[AutoHide := SBool(f.autoHide)][Notify := SBool(f.notify)][StartAtLogin := SBool(f.startLogin)]
      [UpgradeMode := SText(CurrentText(modes, f.mode))][Helper := SText(Trim(QtSpace, f.helper))]
  }

  /** On an empty store load gives the defaults: no auto-hide, notifications on, start at login, "basic", "paru". */
  lemma LoadDefaults(themes: seq<String>, modes: seq<String>, f: Form)
    ensures var r := LoadedForm(map[], themes, modes, f);
      !r.autoHide && r.notify && r.startLogin && r.helper == DEFAULT_HELPER &&
      (DEFAULT_MODE in modes ==> CurrentText(modes, r.mode) == DEFAULT_MODE) &&
      (DEFAULT_THEME in themes ==> r.theme.Some? && themes[r.theme.value] == DEFAULT_THEME) &&
      (DEFAULT_THEME !in themes ==> r.theme == f.theme)
  {
    ToBoolDefault(map[], AutoHide, false);
    ToBoolDefault(map[], Notify, true);
    ToBoolDefault(map[], StartAtLogin, true);
  }

  /** The saved keys are distinct, so each write survives the later ones. */
  lemma SavedKeys(store: Store, themes: seq<String>, modes: seq<String>, f: Form)
    ensures var s := SavedStore(store, themes, modes, f);
      s[AutoHide] == SBool(f.autoHide) && s[Notify] == SBool(f.notify) && s[StartAtLogin] == SBool(f.startLogin) &&
      s[UpgradeMode] == SText(CurrentText(modes, f.mode)) && s[Helper] == SText(Trim(QtSpace, f.helper)) &&
      (f.theme.Some? && f.theme.value < |themes| ==> s[IconTheme] == SText(themes[f.theme.value])) &&
      (f.theme.None? ==> (IconTheme in s <==> IconTheme in store) && (IconTheme in store ==> s[IconTheme] == store[IconTheme]))
  {
  }

  /** No theme or mode is listed twice. */
  predicate Distinct(xs: seq<String>) {
    forall i, j :: 0 <= i < j < |xs| ==> xs[i] != xs[j]
  }

  lemma FirstIndexOfDistinct(xs: seq<String>, i: nat)
    requires i < |xs| && Distinct(xs)
    ensures FirstIndex(xs, xs[i]) == i
  {
  }

  /**
   * Saving and loading again gives back the form, with the helper trimmed:
   * the check boxes, the selected theme and the mode survive the round trip.
   */
  lemma SaveLoadRoundTrip(store: Store, themes: seq<String>, modes: seq<String>, f: Form)
    requires ValidForm(f, themes, modes) && Distinct(themes) && Distinct(modes)
    ensures var r := LoadedForm(SavedStore(store, themes, modes, f), themes, modes, f);
      r.autoHide == f.autoHide && r.notify == f.notify && r.startLogin == f.startLogin &&
      r.helper == Trim(QtSpace, f.helper) && (f.mode >= 0 ==> r.mode == f.mode) &&
      (f.theme.Some? ==> r.theme == f.theme)
  {
    var s := SavedStore(store, themes, modes, f);
    SavedKeys(store, themes, modes, f);
    ToBoolStored(s, AutoHide, f.autoHide, false);
    ToBoolStored(s, Notify, f.notify, true);
    ToBoolStored(s, StartAtLogin, f.startLogin, true);
    if f.mode >= 0 {
      FirstIndexOfDistinct(modes, f.mode);
    }
    if f.theme.Some? {
      FirstIndexOfDistinct(themes, f.theme.value);
    }
  }

  /** Where icons are looked up: the data root, the known themes and which files exist. */
  datatype IconEnv = IconEnv(root: String, themes: seq<String>, fileExists: String -> bool)

  /** updateIconPreviews: each preview shows its icon when the file iconPath picks exists, else nothing. */
  function Previews(env: IconEnv, theme: String): (p: (Option<String>, Option<String>))
    ensures p.0.Some? <==> env.fileExists(Common.IconPathSpec(env.root, theme, "up-to-date.svg", env.themes, env.fileExists))
    ensures p.1.Some? <==>
      env.fileExists(Common.IconPathSpec(env.root, theme, "updates-available.svg", env.themes, env.fileExists))
  {
    var upToDate := Common.IconPathSpec(env.root, theme, "up-to-date.svg", env.themes, env.fileExists);
    var available := Common.IconPathSpec(env.root, theme, "updates-available.svg", env.themes, env.fileExists);
    (if env.fileExists(upToDate) then Some(upToDate) else None,
     if env.fileExists(available) then Some(available) else None)
  }

  /**
   * The previews follow iconPath's search: the requested theme's own icon is
   * shown when it exists, and with the icon missing from every theme the
   * preview is empty.
   */
  lemma PreviewsChoice(env: IconEnv, theme: String)
    ensures var own := Common.ThemeIconPath(env.root, theme, "up-to-date.svg");
      env.fileExists(own) ==> Previews(env, theme).0 == Some(own)
    ensures var own := Common.ThemeIconPath(env.root, theme, "updates-available.svg");
      env.fileExists(own) ==> Previews(env, theme).1 == Some(own)
    ensures ((forall t :: t in env.themes ==> !env.fileExists(Common.ThemeIconPath(env.root, t, "up-to-date.svg"))) &&
             !env.fileExists(Common.ThemeIconPath(env.root, theme, "up-to-date.svg"))) ==> Previews(env, theme).0 == None
    ensures ((forall t :: t in env.themes ==> !env.fileExists(Common.ThemeIconPath(env.root, t, "updates-available.svg"))) &&
             !env.fileExists(Common.ThemeIconPath(env.root, theme, "updates-available.svg"))) ==> Previews(env, theme).1 == None
  {
    Common.IconPathChoice(env.root, theme, "up-to-date.svg", env.themes, env.fileExists);
    Common.IconPathChoice(env.root, theme, "updates-available.svg", env.themes, env.fileExists);
  }

  /** updateIconPreviews as the window runs it. */
  method PreviewIcons(env: IconEnv, theme: String) returns (upToDate: Option<String>, available: Option<String>)
    ensures (upToDate, available) == Previews(env, theme)
  {
    var upToDatePath := Common.IconPath(env.root, theme, "up-to-date.svg", env.themes, env.fileExists);
    var updatesPath := Common.IconPath(env.root, theme, "updates-available.svg", env.themes, env.fileExists);
    upToDate := if env.fileExists(upToDatePath) then Some(upToDatePath) else None;
    available := if env.fileExists(updatesPath) then Some(updatesPath) else None;
  }

  /** load's search of the theme list: the first item whose theme is `theme`, or -1. */
  method FindTheme(themes: seq<String>, theme: String) returns (k: int)
    ensures k == FirstIndex(themes, theme)
  {
    k := -1;
    for i := 0 to |themes|
      invariant forall j :: 0 <= j < i ==> themes[j] != theme
    {
      if themes[i] == theme {
        k := i;
        break;
      }
    }
  }

  /** load's reads: the form it fills in and the stored theme it looked for. */
  method LoadForm(store: Store, themes: seq<String>, modes: seq<String>, f: Form)
    returns (r: Form, theme: String, found: bool)
    ensures r == LoadedForm(store, themes, modes, f)
    ensures theme == VariantText(Value(store, IconTheme, SText(DEFAULT_THEME)))
    ensures found <==> theme in themes
  {
    theme := VariantText(Value(store, IconTheme, SText(DEFAULT_THEME)));
    var k := FindTheme(themes, theme);
    found := k >= 0;
    var current := f.theme;
    if k >= 0 {
      current := Some(k);
    }
    var mode := SelectText(modes, f.mode, VariantText(Value(store, UpgradeMode, SText(DEFAULT_MODE))));
    var autoHide := ReadBool(store, AutoHide, false);
    var notify := ReadBool(store, Notify, true);
    var startLogin := ReadBool(store, StartAtLogin, true);
    r := Form(current, autoHide, notify, startLogin, mode, VariantText(Value(store, Helper, SText(DEFAULT_HELPER))));
  }

  /** The QSettings object the window reads and writes. */
  class Settings {
    var values: Store

    constructor (v: Store)
      ensures values == v
    {
      values := v;
    }
  }

  /** The settings window. */
  class SettingsWindow {
    const themes: seq<String>
    const modes: seq<String>
    const settings: Settings
    var form: Form
    /** The icons the "no updates" and "updates available" previews show, if any. */
    var previews: (Option<String>, Option<String>)
    /** Whether the dialog was closed with Save. */
    var accepted: bool

    ghost predicate Valid()
      reads this
    {
      ValidForm(form, themes, modes)
    }

    /** buildUi lists the themes and modes (the first mode current) with an empty form; then load. */
    constructor (store: Settings, themes0: seq<String>, modes0: seq<String>, env: IconEnv)
      ensures Valid() && themes == themes0 && modes == modes0 && settings == store && !accepted
      ensures form == LoadedForm(store.values, themes0, modes0, Form(None, false, false, false, if |modes0| > 0 then 0 else -1, ""))
      ensures var theme := VariantText(Value(store.values, IconTheme, SText(DEFAULT_THEME)));
        (theme in themes0 ==> previews == Previews(env, theme)) && (theme !in themes0 ==> previews == (None, None))
    {
      themes, modes := themes0, modes0;
      settings := store;
      form := Form(None, false, false, false, if |modes0| > 0 then 0 else -1, "");
      previews := (None, None);
      accepted := false;
      new;
      Load(env);
    }

    /**
     * load: selects the stored theme's item (and previews it) when the list
     * has it, then sets the check boxes, the mode and the helper text.
     */
    method Load(env: IconEnv)
      requires Valid()
      modifies this
      ensures Valid() && form == LoadedForm(settings.values, themes, modes, old(form))
      ensures var theme := VariantText(Value(settings.values, IconTheme, SText(DEFAULT_THEME)));
        (theme in themes ==> previews == Previews(env, theme)) && (theme !in themes ==> previews == old(previews))
      ensures accepted == old(accepted)
    {
      var loaded, theme, found := LoadForm(settings.values, themes, modes, form);
      if found {
        var upToDate, available := PreviewIcons(env, theme);
        previews := (upToDate, available);
      }
      form := loaded;
    }

    /** The currentItemChanged handler: the chosen theme becomes current and is previewed. */
    method SelectTheme(i: nat, env: IconEnv)
      requires Valid() && i < |themes|
      modifies this
      ensures Valid() && form == old(form).(theme := Some(i)) && accepted == old(accepted)
      ensures previews == Previews(env, themes[i])
    {
      form := form.(theme := Some(i));
      var upToDate, available := PreviewIcons(env, themes[i]);
      previews := (upToDate, available);
    }

    /** save: writes the theme (when one is current) and the other fields, the helper trimmed, then accepts. */
    method Save()
      requires Valid()
      modifies this, settings
      ensures Valid() && settings.values == SavedStore(old(settings.values), themes, modes, form) && accepted
      ensures form == old(form) && previews == old(previews)
    {
      var values := settings.values;
      if form.theme.Some? {
        values := values[IconTheme := SText(themes[form.theme.value])];
      }
      values := values[AutoHide := SBool(form.autoHide)];
      values := values[Notify := SBool(form.notify)];
      values := values[StartAtLogin := SBool(form.startLogin)];
      values := values[UpgradeMode := SText(CurrentText(modes, form.mode))];
      values := values[Helper := SText(Trim(QtSpace, form.helper))];
      settings.values := values;
      accepted := true;
    }
  }
}
