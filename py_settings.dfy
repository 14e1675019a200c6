/**
 * libexec/mx-arch-updater/updater_settings.py: the Python settings dialog.
 * `_load` fills the form from the settings file with a default for every key,
 * `save` writes the form back with the helper stripped, and `_bool` reads a
 * boolean setting.
 *
 * The settings file is QSettings's INI file: every value read back from it is
 * text, and a bool is written as "true" or "false".  The store holds the
 * dialog's keys only; the theme and mode lists are common.py's constants.
 */
module PySettings {
  import opened Text
  import PyCommon
  import SettingsDialog

  /** The text the settings file holds under each key. */
  type Store = map<SettingsDialog.Key, String>

  const DEFAULT_THEME: String := "wireframe-dark"
  const DEFAULT_MODE: String := "basic"
  const DEFAULT_HELPER: String := "paru"

  /** A Python value handed to `str()`: text read from the file, or a bool default. */
  datatype PyValue = PText(s: String) | PBool(b: bool)

  /** str(value): the text itself, or "True" / "False" for a bool. */
  function Str(v: PyValue): (t: String)
    ensures v.PText? ==> t == v.s
    ensures v.PBool? ==> t == (if v.b then "True" else "False")
  {
    match v
    case PText(s) => s
    case PBool(b) => if b then "True" else "False"
  }

  /** settings.value(key, default). */
  function Value(store: Store, key: SettingsDialog.Key, default: PyValue): (v: PyValue)
    ensures key in store ==> v == PText(store[key])
    ensures key !in store ==> v == default
  {
    if key in store then PText(store[key]) else default
  }

  /** settings.value(key, default) with a text default: the stored text or the default. */
  function TextOf(store: Store, key: SettingsDialog.Key, default: String): (t: String)
    ensures key in store ==> t == store[key]
    ensures key !in store ==> t == default
  {
    Str(Value(store, key, PText(default)))
  }

  /** Text that reads as true: lower-cased, it is "true", "1" or "yes". */
  predicate TrueText(t: String) {
    var lowered := Lower(t);
    lowered == "true" || lowered == "1" || lowered == "yes"
  }

  /** _bool: the stored value, or the bool default, stringified reads as true. */
  predicate Bool(store: Store, key: SettingsDialog.Key, default: bool) {
    TrueText(Str(Value(store, key, PBool(default))))
  }

  /** How QSettings writes a bool into the INI file. */
  function BoolText(b: bool): String {
    if b then "true" else "false"
  }

  lemma FalseTexts()
    ensures !TrueText("False") && !TrueText("false")
  {
    assert Lower("False")[0] == 'f';
    assert Lower("false")[0] == 'f';
  }

  /** A missing key reads as its default, because str(True) lower-cases to "true" and str(False) to "false". */
  lemma BoolDefault(store: Store, key: SettingsDialog.Key, default: bool)
    requires key !in store
    ensures Bool(store, key, default) == default
  {
    if default {
      assert Lower("True") == "true";
    } else {
      FalseTexts();
    }
  }

  /** A bool that save wrote reads back as itself, whatever the default. */
  lemma BoolSaved(store: Store, key: SettingsDialog.Key, b: bool, default: bool)
    requires key in store && store[key] == BoolText(b)
    ensures Bool(store, key, default) == b
  {
    if b {
      assert Lower("true") == "true";
    } else {
      FalseTexts();
    }
  }

  /** A stored text reads as true exactly when it lower-cases to "true", "1" or "yes"; the default plays no part. */
  lemma BoolStored(store: Store, key: SettingsDialog.Key, default: bool)
    requires key in store
    ensures Bool(store, key, default) <==>
      Lower(store[key]) == "true" || Lower(store[key]) == "1" || Lower(store[key]) == "yes"
  {
  }

  /**
   * The form: the current theme and mode items, the three check boxes and
   * the helper text.  The combo boxes list common.py's themes and modes, so
   * both always have a current item.
   */
  datatype Form = Form(theme: int, autoHide: bool, notify: bool, startLogin: bool, mode: int, helper: String)

  predicate ValidForm(f: Form, themes: seq<String>, modes: seq<String>) {
    0 <= f.theme < |themes| && 0 <= f.mode < |modes|
  }

  /** The form _build_ui leaves: the first theme and mode current, the boxes unchecked, no helper text. */
  const BUILT_FORM: Form := Form(0, false, false, false, 0, "")

  /** The form after _load, given the form before it. */
  function LoadedForm(store: Store, themes: seq<String>, modes: seq<String>, f: Form): (r: Form)
    ensures ValidForm(f, themes, modes) ==> ValidForm(r, themes, modes)
  {
    Form(SettingsDialog.SelectText(themes, f.theme, TextOf(store, SettingsDialog.IconTheme, DEFAULT_THEME)),
         Bool(store, SettingsDialog.AutoHide, false),
         Bool(store, SettingsDialog.Notify, true),
         Bool(store, SettingsDialog.StartAtLogin, true),
         SettingsDialog.SelectText(modes, f.mode, TextOf(store, SettingsDialog.UpgradeMode, DEFAULT_MODE)),
         TextOf(store, SettingsDialog.Helper, DEFAULT_HELPER))
  }

  /** The file after save: every field written, the helper stripped of surrounding whitespace. */
  function SavedStore(store: Store, themes: seq<String>, modes: seq<String>, f: Form): Store {
    store[SettingsDialog.IconTheme := SettingsDialog.CurrentText(themes, f.theme)]
      [SettingsDialog.AutoHide := BoolText(f.autoHide)]
      [SettingsDialog.Notify := BoolText(f.notify)]
      [SettingsDialog.StartAtLogin := BoolText(f.startLogin)]
      [SettingsDialog.UpgradeMode := SettingsDialog.CurrentText(modes, f.mode)]
      [SettingsDialog.Helper := Trim(PySpace, f.helper)]
  }

  /** Each key save writes holds what was written for it. */
  lemma SavedKeys(store: Store, themes: seq<String>, modes: seq<String>, f: Form)
    ensures var s := SavedStore(store, themes, modes, f);
      s[SettingsDialog.IconTheme] == SettingsDialog.CurrentText(themes, f.theme) &&
      s[SettingsDialog.AutoHide] == BoolText(f.autoHide) && s[SettingsDialog.Notify] == BoolText(f.notify) &&
      s[SettingsDialog.StartAtLogin] == BoolText(f.startLogin) &&
      s[SettingsDialog.UpgradeMode] == SettingsDialog.CurrentText(modes, f.mode) &&
      s[SettingsDialog.Helper] == Trim(PySpace, f.helper)
  {
    Writes(store, SettingsDialog.CurrentText(themes, f.theme), BoolText(f.autoHide), BoolText(f.notify),
           BoolText(f.startLogin), SettingsDialog.CurrentText(modes, f.mode), Trim(PySpace, f.helper));
  }

  /** Six writes, one to each key, read back. */
  lemma Writes(store: Store, theme: String, autoHide: String, notify: String, startLogin: String,
               mode: String, helper: String)
    ensures var s := store[SettingsDialog.IconTheme := theme][SettingsDialog.AutoHide := autoHide]
                          [SettingsDialog.Notify := notify][SettingsDialog.StartAtLogin := startLogin]
                          [SettingsDialog.UpgradeMode := mode][SettingsDialog.Helper := helper];
      s[SettingsDialog.IconTheme] == theme && s[SettingsDialog.AutoHide] == autoHide &&
      s[SettingsDialog.Notify] == notify && s[SettingsDialog.StartAtLogin] == startLogin &&
      s[SettingsDialog.UpgradeMode] == mode && s[SettingsDialog.Helper] == helper
  {
  }

  lemma ListsDistinct()
    ensures SettingsDialog.Distinct(PyCommon.ICON_THEMES) && SettingsDialog.Distinct(PyCommon.UPGRADE_MODES)
  {
    var themes := PyCommon.ICON_THEMES;
    assert themes[0][0] == 'w' && themes[1][0] == 'w' && themes[2][0] == 'c' && themes[3][0] == 'p';
    assert themes[0][10] == 'd' && themes[1][10] == 'l';
    assert PyCommon.UPGRADE_MODES[0][0] == 'b' && PyCommon.UPGRADE_MODES[1][0] == 'f';
  }

  /**
   * On a file without the dialog's keys, _load selects "wireframe-dark" and
   * "basic", leaves auto-hide off, turns notifications and start at login on
   * and shows the helper "paru", whatever the form held before.
   */
  lemma LoadDefaults(f: Form)
    ensures LoadedForm(map[], PyCommon.ICON_THEMES, PyCommon.UPGRADE_MODES, f) == Form(0, false, true, true, 0, DEFAULT_HELPER)
  {
    BoolDefault(map[], SettingsDialog.AutoHide, false);
    BoolDefault(map[], SettingsDialog.Notify, true);
    BoolDefault(map[], SettingsDialog.StartAtLogin, true);
    ListsDistinct();
    SettingsDialog.FirstIndexOfDistinct(PyCommon.ICON_THEMES, 0);
    SettingsDialog.FirstIndexOfDistinct(PyCommon.UPGRADE_MODES, 0);
  }

  /**
   * Saving and loading again gives back the form with the helper stripped,
   * whatever was loaded before, when no theme and no mode is listed twice
   * (as in common.py's lists, by ListsDistinct).
   */
  lemma SaveLoadRoundTrip(store: Store, themes: seq<String>, modes: seq<String>, f: Form, before: Form)
    requires ValidForm(f, themes, modes) && SettingsDialog.Distinct(themes) && SettingsDialog.Distinct(modes)
    ensures LoadedForm(SavedStore(store, themes, modes, f), themes, modes, before) == f.(helper := Trim(PySpace, f.helper))
  {
    var s := SavedStore(store, themes, modes, f);
    SavedKeys(store, themes, modes, f);
    BoolSaved(s, SettingsDialog.AutoHide, f.autoHide, false);
    BoolSaved(s, SettingsDialog.Notify, f.notify, true);
    BoolSaved(s, SettingsDialog.StartAtLogin, f.startLogin, true);
    SettingsDialog.FirstIndexOfDistinct(themes, f.theme);
    SettingsDialog.FirstIndexOfDistinct(modes, f.mode);
    assert TextOf(s, SettingsDialog.IconTheme, DEFAULT_THEME) == themes[f.theme];
    assert TextOf(s, SettingsDialog.UpgradeMode, DEFAULT_MODE) == modes[f.mode];
  }

  /** The QSettings object the dialog reads and writes. */
  class SettingsFile {
    var values: Store

    constructor (v: Store)
      ensures values == v
    {
      values := v;
    }
  }

  /** The settings dialog. */
  class Dialog {
    const themes: seq<String>
    const modes: seq<String>
    const settings: SettingsFile
    var form: Form
    /** Whether the dialog was closed with Save. */
    var accepted: bool

    /** _build_ui lists common.py's themes and modes with an empty form; then _load. */
    constructor (file: SettingsFile)
      ensures themes == PyCommon.ICON_THEMES && modes == PyCommon.UPGRADE_MODES && settings == file && !accepted
      ensures form == LoadedForm(file.values, themes, modes, BUILT_FORM) && ValidForm(form, themes, modes)
    {
      themes, modes := PyCommon.ICON_THEMES, PyCommon.UPGRADE_MODES;
      settings := file;
      form := BUILT_FORM;
      accepted := false;
      new;
      Load();
    }

    /** _load: each widget takes its stored value or its default. */
    method Load()
      modifies this
      ensures form == LoadedForm(settings.values, themes, modes, old(form)) && accepted == old(accepted)
    {
      var store := settings.values;
      var theme := SettingsDialog.SelectText(themes, form.theme,
                                             TextOf(store, SettingsDialog.IconTheme, DEFAULT_THEME));
      var autoHide := Bool(store, SettingsDialog.AutoHide, false);
      var notify := Bool(store, SettingsDialog.Notify, true);
      var startLogin := Bool(store, SettingsDialog.StartAtLogin, true);
      var mode := SettingsDialog.SelectText(modes, form.mode,
                                            TextOf(store, SettingsDialog.UpgradeMode, DEFAULT_MODE));
      form := Form(theme, autoHide, notify, startLogin, mode, TextOf(store, SettingsDialog.Helper, DEFAULT_HELPER));
    }

    /** save: writes the six fields, the helper stripped, then accepts. */
    method Save()
      modifies this, settings
      ensures settings.values == SavedStore(old(settings.values), themes, modes, form) && accepted && form == old(form)
    {
      var values := SavedStore(settings.values, themes, modes, form);
      settings.values := values;
      accepted := true;
    }
  }
}
