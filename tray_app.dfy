/**
 * src/tray_app.cpp: the tray icon.  It keeps the counts of the last state
 * summary, shows the "available" or "up to date" icon of the configured
 * theme, hides itself when asked to and nothing is pending, announces
 * available updates once per stretch of pending updates, and dispatches
 * clicks.
 *
 * Settings are read afresh on every update, so the values the reads return
 * are parameters; so are the results of the D-Bus calls, the file-existence
 * tests and `pacman -Q`.  An icon is identified by the path it was loaded
 * from.
 */
module TrayApp {
  import opened Wrappers
  import opened Text
  import opened Json
  import Common
  import SystemMonitor
  import opened Process

  /** The theme used when the setting names none of the known themes. */
  const FALLBACK_THEME: String := "modern-light"
  const AVAILABLE_ICON: String := "updates-available.svg"
  const UP_TO_DATE_ICON: String := "up-to-date.svg"
  const VIEW_PROGRAM: String := "update-notifier-view-and-upgrade"

  /**
   * What the settings reads return at one moment: auto_hide (default
   * false), notify (default true), icon_theme (default "modern-light") and
   * package_manager (default "mx-packageinstaller").
   */
  datatype TraySettings = TraySettings(autoHide: bool, notify: bool, iconTheme: String, packageManager: String)

  /** Where icons are looked up: the data root, the known themes and which files exist. */
  datatype IconEnv = IconEnv(root: String, themes: seq<String>, fileExists: String -> bool)

  /** What getDesktopFileName looks at. */
  datatype DesktopEnv = DesktopEnv(home: String, dirExists: String -> bool, listing: String -> seq<String>,
                                   contents: String -> Option<String>)

  /** The counts of a state summary (tray_app.cpp keeps them as five ints). */
  datatype Summary = Summary(total: int, repo: int, aur: int, remove: int, held: int)

  /** The icon cache: the theme the icons were loaded for and the two icons. */
  datatype IconCache = IconCache(theme: String, available: String, upToDate: String)

  /** What the tray shows: its icon, its tooltip and whether it is visible. */
  datatype Look = Look(icon: String, tooltip: String, visible: bool)

  /** A desktop notification: title and body. */
  datatype Message = Message(title: String, body: String)

  /** The entries of the tray menu. */
  datatype MenuItem =
    | ViewItem
    | InstallerItem(title: String)
    | RefreshItem
    | HistoryItem
    | PreferencesItem
    | AboutItem
    | SeparatorItem
    | QuitItem

  datatype ActivationReason = Unknown | Context | DoubleClick | Trigger | MiddleClick

  // ---------------------------------------------------------------- the notification latch

  /** An updateUI round as the latch sees it: whether notifications are on and whether updates are available. */
  datatype Round = Round(notify: bool, available: bool)

  /** The message is shown when notifications are on, updates are available and none was shown yet. */
  predicate Announces(notified: bool, r: Round) {
    r.notify && r.available && !notified
  }

  /** The latch after a round: set by a message, cleared as soon as nothing is available. */
  function Latched(notified: bool, r: Round): (n: bool)
    ensures n ==> r.available
    ensures Announces(notified, r) ==> n
    ensures r.available ==> (n <==> notified || Announces(notified, r))
  {
    if !r.available then false else notified || Announces(notified, r)
  }

  /** The latch after a sequence of rounds. */
  function LatchAfter(notified: bool, rounds: seq<Round>): bool
    decreases |rounds|
  {
    if rounds == [] then notified
    else Latched(LatchAfter(notified, rounds[..|rounds| - 1]), rounds[|rounds| - 1])
  }

  /** Round `i` shows the message. */
  predicate AnnouncedAt(notified: bool, rounds: seq<Round>, i: nat)
    requires i < |rounds|
  {
    Announces(LatchAfter(notified, rounds[..i]), rounds[i])
  }

  lemma LatchStep(notified: bool, rounds: seq<Round>, m: nat)
    requires m < |rounds|
    ensures LatchAfter(notified, rounds[..m + 1]) == Latched(LatchAfter(notified, rounds[..m]), rounds[m])
  {
    assert rounds[..m + 1][..m] == rounds[..m];
  }

  /** The latch stays set from a message through every following round with updates available. */
  lemma {:induction false} LatchHolds(notified: bool, rounds: seq<Round>, i: nat, m: nat)
    requires i < m <= |rounds| && AnnouncedAt(notified, rounds, i)
    requires forall k :: i < k < m ==> rounds[k].available
    ensures LatchAfter(notified, rounds[..m])
    decreases m
  {
    LatchStep(notified, rounds, m - 1);
    if m - 1 > i {
      LatchHolds(notified, rounds, i, m - 1);
    }
  }

  /**
   * The message is shown at most once per stretch of rounds with updates
   * available: between two messages some round had none.
   */
  lemma OncePerStretch(notified: bool, rounds: seq<Round>, i: nat, j: nat)
    requires i < j < |rounds|
    requires AnnouncedAt(notified, rounds, i) && AnnouncedAt(notified, rounds, j)
    ensures exists k :: i < k < j && !rounds[k].available
  {
    if forall k :: i < k < j ==> rounds[k].available {
      LatchHolds(notified, rounds, i, j);
    }
  }

  /** After a round with nothing available, the next round with updates and notifications on shows the message. */
  lemma AnnouncedAfterReset(notified: bool, rounds: seq<Round>, k: nat)
    requires k + 1 < |rounds|
    requires !rounds[k].available && rounds[k + 1].available && rounds[k + 1].notify
    ensures AnnouncedAt(notified, rounds, k + 1)
  {
    LatchStep(notified, rounds, k);
  }

  // ---------------------------------------------------------------- themes, the menu and clicks

  /** The theme loadIconsIfNeeded uses: the setting when it is a known theme, else "modern-light". */
  function EffectiveTheme(setting: String, themes: seq<String>): (t: String)
    ensures setting in themes ==> t == setting
    ensures setting !in themes ==> t == FALLBACK_THEME
  {
    if setting in themes then setting else FALLBACK_THEME
  }

  /** The menu setupActions builds; the installer entry is there when the package manager is installed. */
  function InitialMenu(installer: Option<String>): seq<MenuItem> {
    [ViewItem] + (if installer.Some? then [InstallerItem(installer.value)] else []) +
    [RefreshItem, HistoryItem, PreferencesItem, AboutItem, SeparatorItem, QuitItem]
  }

  /** The menu without its installer entry. */
  function WithoutInstaller(menu: seq<MenuItem>): (r: seq<MenuItem>)
    ensures forall i :: 0 <= i < |r| ==> !r[i].InstallerItem?
    ensures |r| <= |menu|
    decreases |menu|
  {
    if menu == [] then []
    else (if menu[0].InstallerItem? then [] else [menu[0]]) + WithoutInstaller(menu[1..])
  }

  /** QList::indexOf: the first position of `item`, or -1. */
  function IndexOf(menu: seq<MenuItem>, item: MenuItem): (i: int)
    ensures -1 <= i < |menu|
    ensures i >= 0 ==> menu[i] == item && forall j :: 0 <= j < i ==> menu[j] != item
    ensures i == -1 ==> item !in menu
    decreases |menu|
  {
    if menu == [] then -1
    else if menu[0] == item then 0
    else
      var k := IndexOf(menu[1..], item);
      if k == -1 then -1 else k + 1
  }

  /** The entry inserted before the one that follows View, or appended when View is last. */
  function InsertAfterView(menu: seq<MenuItem>, item: MenuItem): seq<MenuItem> {
    var k := IndexOf(menu, ViewItem) + 1;
    if k < |menu| then menu[..k] + [item] + menu[k..] else menu + [item]
  }

  /** What updatePackageManagerAction leaves in the menu. */
  function UpdatedMenu(menu: seq<MenuItem>, installer: Option<String>): seq<MenuItem> {
    var base := WithoutInstaller(menu);
    if installer.Some? then InsertAfterView(base, InstallerItem(installer.value)) else base
  }

  lemma {:induction false} WithoutInstallerKeeps(menu: seq<MenuItem>)
    requires forall i :: 0 <= i < |menu| ==> !menu[i].InstallerItem?
    ensures WithoutInstaller(menu) == menu
    decreases |menu|
  {
    if menu != [] {
      WithoutInstallerKeeps(menu[1..]);
    }
  }

  lemma {:induction false} WithoutInstallerHasView(menu: seq<MenuItem>)
    requires ViewItem in menu
    ensures ViewItem in WithoutInstaller(menu)
    decreases |menu|
  {
    if menu[0] != ViewItem {
      assert ViewItem in menu[1..];
      WithoutInstallerHasView(menu[1..]);
    }
  }

  lemma {:induction false} WithoutInstallerOfInsert(a: seq<MenuItem>, b: seq<MenuItem>, title: String)
    requires forall i :: 0 <= i < |a| ==> !a[i].InstallerItem?
    ensures WithoutInstaller(a + [InstallerItem(title)] + b) == a + WithoutInstaller(b)
    decreases |a|
  {
    if a == [] {
      assert ([InstallerItem(title)] + b)[1..] == b;
    } else {
      assert (a + [InstallerItem(title)] + b)[1..] == a[1..] + [InstallerItem(title)] + b;
      WithoutInstallerOfInsert(a[1..], b, title);
    }
  }

  lemma {:induction false} IndexOfPrefix(a: seq<MenuItem>, b: seq<MenuItem>, item: MenuItem)
    requires item in a
    ensures IndexOf(a + b, item) == IndexOf(a, item)
    decreases |a|
  {
    if a[0] != item {
      assert (a + b)[1..] == a[1..] + b;
      IndexOfPrefix(a[1..], b, item);
    }
  }

  /** With View in the menu, the entry goes at position indexOf(View) + 1 and View keeps its position. */
  lemma InsertAfterViewShape(menu: seq<MenuItem>, item: MenuItem)
    requires ViewItem in menu
    ensures var k := IndexOf(menu, ViewItem) + 1;
      InsertAfterView(menu, item) == menu[..k] + [item] + menu[k..] &&
      IndexOf(InsertAfterView(menu, item), ViewItem) == k - 1
  {
    var k := IndexOf(menu, ViewItem) + 1;
    InsertSplit(menu, k, item);
    ViewPrefix(menu);
    IndexOfPrefix(menu[..k], [item] + menu[k..], ViewItem);
  }

  /** Inserting at position k, written both ways InsertAfterView writes it. */
  lemma InsertSplit(menu: seq<MenuItem>, k: int, item: MenuItem)
    requires 0 <= k <= |menu|
    ensures (if k < |menu| then menu[..k] + [item] + menu[k..] else menu + [item]) == menu[..k] + [item] + menu[k..]
    ensures menu[..k] + [item] + menu[k..] == menu[..k] + ([item] + menu[k..])
  {
    assert menu[..|menu|] == menu;
  }

  /** The menu up to and including View has View last, and nowhere before. */
  lemma ViewPrefix(menu: seq<MenuItem>)
    requires ViewItem in menu
    ensures var k := IndexOf(menu, ViewItem) + 1;
      ViewItem in menu[..k] && IndexOf(menu[..k], ViewItem) == k - 1
  {
    var k := IndexOf(menu, ViewItem) + 1;
    assert menu[..k][k - 1] == ViewItem;
    var j := IndexOf(menu[..k], ViewItem);
    assert menu[..k][j] == menu[j];
  }


  /** Without an installed package manager the menu keeps its other entries, in order, and has no installer entry. */
  lemma UpdatedMenuWithout(menu: seq<MenuItem>)
    ensures UpdatedMenu(menu, None) == WithoutInstaller(menu)
    ensures forall i :: 0 <= i < |UpdatedMenu(menu, None)| ==> !UpdatedMenu(menu, None)[i].InstallerItem?
  {
  }

  /** Inserting one entry into a menu without installer entries: the entry is the only installer entry. */
  lemma InsertedOnly(base: seq<MenuItem>, k: nat, item: MenuItem)
    requires k <= |base| && forall i :: 0 <= i < |base| ==> !base[i].InstallerItem?
    ensures var r := base[..k] + [item] + base[k..];
      |r| == |base| + 1 && r[k] == item && forall i :: 0 <= i < |r| && i != k ==> !r[i].InstallerItem?
  {
    var r := base[..k] + [item] + base[k..];
    forall i | 0 <= i < |r| && i != k
      ensures !r[i].InstallerItem?
    {
      if i < k { assert r[i] == base[i]; } else { assert r[i] == base[i - 1]; }
    }
  }

  /** Removing the installer entries again gives back a menu that had none. */
  lemma RemoveInserted(base: seq<MenuItem>, k: nat, title: String)
    requires k <= |base| && forall i :: 0 <= i < |base| ==> !base[i].InstallerItem?
    ensures WithoutInstaller(base[..k] + [InstallerItem(title)] + base[k..]) == base
  {
    WithoutInstallerOfInsert(base[..k], base[k..], title);
    WithoutInstallerKeeps(base[k..]);
    assert base[..k] + base[k..] == base;
  }

  /** The installer entry for `title` is at position k and nowhere else. */
  predicate OnlyInstallerAt(r: seq<MenuItem>, k: int, title: String) {
    0 <= k < |r| && r[k] == InstallerItem(title) && forall i :: 0 <= i < |r| && r[i].InstallerItem? ==> i == k
  }

  /**
   * With an installed package manager there is exactly one installer entry,
   * right after View, and the other entries keep their order.
   */
  lemma UpdatedMenuWith(menu: seq<MenuItem>, title: String)
    requires ViewItem in menu
    ensures var r := UpdatedMenu(menu, Some(title)); var v := IndexOf(r, ViewItem);
      0 <= v && OnlyInstallerAt(r, v + 1, title) && WithoutInstaller(r) == WithoutInstaller(menu)
  {
    WithoutInstallerHasView(menu);
    InsertedAfterView(WithoutInstaller(menu), title);
  }

  /** The installer entry inserted after View into a menu without one. */
  lemma InsertedAfterView(base: seq<MenuItem>, title: String)
    requires ViewItem in base && forall i :: 0 <= i < |base| ==> !base[i].InstallerItem?
    ensures var r := InsertAfterView(base, InstallerItem(title)); var v := IndexOf(r, ViewItem);
      0 <= v && OnlyInstallerAt(r, v + 1, title) && WithoutInstaller(r) == base
  {
    var item := InstallerItem(title);
    InsertAfterViewShape(base, item);
    var k := IndexOf(base, ViewItem) + 1;
    var r := InsertAfterView(base, item);
    assert r == base[..k] + [item] + base[k..];
    assert IndexOf(r, ViewItem) == k - 1;
    InsertedMenu(base, k, title);
  }

  /** An installer entry inserted at k into a menu without one. */
  lemma InsertedMenu(base: seq<MenuItem>, k: nat, title: String)
    requires k <= |base| && forall i :: 0 <= i < |base| ==> !base[i].InstallerItem?
    ensures var r := base[..k] + [InstallerItem(title)] + base[k..];
      OnlyInstallerAt(r, k, title) && WithoutInstaller(r) == base
  {
    InsertedOnly(base, k, InstallerItem(title));
    RemoveInserted(base, k, title);
  }

  /** Rebuilding the entry on a menu setupActions built without one leaves it as it was. */
  lemma UpdatedInitialMenuNone()
    ensures UpdatedMenu(InitialMenu(None), None) == InitialMenu(None)
  {
    var m := InitialMenu(None);
    assert forall i :: 0 <= i < |m| ==> !m[i].InstallerItem?;
    WithoutInstallerKeeps(m);
  }

  /** Rebuilding the entry on a menu setupActions built with the same entry leaves it as it was. */
  lemma UpdatedInitialMenuSome(title: String)
    ensures UpdatedMenu(InitialMenu(Some(title)), Some(title)) == InitialMenu(Some(title))
  {
    var base := InitialMenu(None);
    assert forall i :: 0 <= i < |base| ==> !base[i].InstallerItem?;
    RemoveInserted(base, 1, title);
    assert InitialMenu(Some(title)) == base[..1] + [InstallerItem(title)] + base[1..];
    assert IndexOf(base, ViewItem) == 0;
  }

  /** launchBin: the program next to the running one if it exists there, else the bare name on the PATH. */
  function BinPath(appDir: String, name: String, fileExists: String -> bool): (p: String)
    ensures fileExists(appDir + "/" + name) ==> p == appDir + "/" + name
    ensures !fileExists(appDir + "/" + name) ==> p == name
  {
    if fileExists(appDir + "/" + name) then appDir + "/" + name else name
  }

  /** What a click starts: the view for Trigger or Unknown, the package manager (when set) for a middle click. */
  function ActivationLaunch(reason: ActivationReason, packageManager: String, appDir: String,
                            fileExists: String -> bool): (started: Option<String>)
    ensures reason == Trigger || reason == Unknown ==> started == Some(BinPath(appDir, VIEW_PROGRAM, fileExists))
    ensures reason == MiddleClick ==> started == (if packageManager != "" then Some(packageManager) else None)
    ensures reason == Context || reason == DoubleClick ==> started == None
  {
    if reason == Trigger || reason == Unknown then Some(BinPath(appDir, VIEW_PROGRAM, fileExists))
    else if reason == MiddleClick then (if packageManager != "" then Some(packageManager) else None)
    else None
  }

  /** onSummaryChanged's parse: None when the payload is not JSON, else the counts of the document. */
  function SummaryOf(c: Codec, payload: String): (r: Option<Summary>)
    ensures r.None? <==> c.parse(payload).None?
  {
    match c.parse(payload)
    case None => None
    case Some(doc) => Some(SummaryFromDoc(doc))
  }

  // ---------------------------------------------------------------- summaries, icons and the look

  /**
   * The counts onSummaryChanged takes from a state document: the members of
   * `counts` read with toInt(), so a missing or non-int member is 0.
   */
  function SummaryFromDoc(doc: Json): (sm: Summary)
    ensures INT_MIN <= sm.total <= INT_MAX && INT_MIN <= sm.repo <= INT_MAX && INT_MIN <= sm.aur <= INT_MAX
    ensures INT_MIN <= sm.remove <= INT_MAX && INT_MIN <= sm.held <= INT_MAX
    ensures "counts" !in Common.DocObject(doc) ==> sm == Summary(0, 0, 0, 0, 0)
  {
    var counts := ToObject(Get(Common.DocObject(doc), "counts"));
    Summary(ToInt(Get(counts, "total_upgrade")), ToInt(Get(counts, "upgrade")), ToInt(Get(counts, "aur_upgrade")),
            ToInt(Get(counts, "remove")), ToInt(Get(counts, "held")))
  }

  /**
   * A state written by the C++ system monitor has no total_upgrade and no
   * aur_upgrade member: the tray reads a total of 0, so it shows "up to
   * date" whatever the number of pending upgrades.
   */
  lemma MonitorSummary(lines: seq<String>, now: int)
    requires |lines| <= INT_MAX
    ensures SummaryFromDoc(JObj(SystemMonitor.CheckedState(lines, now))) == Summary(0, |lines|, 0, 0, 0)
  {
    SystemMonitor.CheckedStateShape(lines, now);
  }

  /** The tooltip: the counts, on three lines. */
  function Tooltip(sm: Summary): String {
    "Upgrades: " + IntToString(sm.total) + " total (" + IntToString(sm.repo) + " repo + " +
    IntToString(sm.aur) + " AUR)\nRemove: " + IntToString(sm.remove) + "\nHeld: " + IntToString(sm.held)
  }

  /** The two icons of a theme, looked up with the fallbacks of iconPath. */
  function Icons(env: IconEnv, theme: String): (String, String) {
    (Common.IconPathSpec(env.root, theme, AVAILABLE_ICON, env.themes, env.fileExists),
     Common.IconPathSpec(env.root, theme, UP_TO_DATE_ICON, env.themes, env.fileExists))
  }

  /** The icon cache after loadIconsIfNeeded, given the cache before it. */
  function LoadedIcons(s: TraySettings, env: IconEnv, cache: IconCache): (l: IconCache)
    ensures l.theme == EffectiveTheme(s.iconTheme, env.themes)
    ensures l.theme == cache.theme ==> l == cache
    ensures l.theme != cache.theme ==> (l.available, l.upToDate) == Icons(env, l.theme)
  {
    var t := EffectiveTheme(s.iconTheme, env.themes);
    if t == cache.theme then cache else IconCache(t, Icons(env, t).0, Icons(env, t).1)
  }

  /** With the settings unchanged, a second loadIconsIfNeeded keeps the cache as it is. */
  lemma LoadedIconsStable(s: TraySettings, env: IconEnv, cache: IconCache)
    ensures LoadedIcons(s, env, LoadedIcons(s, env, cache)) == LoadedIcons(s, env, cache)
  {
  }

  /** What updateUI shows for a summary and an icon cache. */
  function LookOf(autoHide: bool, sm: Summary, icons: IconCache): Look {
    var available := sm.total > 0;
    Look(if available then icons.available else icons.upToDate, Tooltip(sm), !(autoHide && !available))
  }

  /**
   * The tray is hidden only when auto-hide is on and no upgrade is
   * pending, and it shows the "available" icon exactly when one is.
   */
  lemma LookVisibility(autoHide: bool, sm: Summary, icons: IconCache)
    requires icons.available != icons.upToDate
    ensures !LookOf(autoHide, sm, icons).visible <==> autoHide && sm.total <= 0
    ensures LookOf(autoHide, sm, icons).icon == icons.available <==> sm.total > 0
  {
  }

  /** The message updateUI shows in a round, if any. */
  function Announcement(notified: bool, r: Round, body: String): (ms: seq<Message>)
    ensures |ms| <= 1
    ensures |ms| == 1 <==> Announces(notified, r)
    ensures |ms| == 1 ==> ms[0] == Message("Updates Available", body)
  {
    if Announces(notified, r) then [Message("Updates Available", body)] else []
  }

  /** The theme check of loadIconsIfNeeded. */
  method ThemeToLoad(setting: String, themes: seq<String>) returns (theme: String)
    ensures theme == EffectiveTheme(setting, themes)
  {
    theme := setting;
    var known := Common.IsKnownIconTheme(theme, themes);
    if !known {
      theme := FALLBACK_THEME;
    }
  }

  /** Loads both icons of a theme. */
  method LoadIcons(env: IconEnv, theme: String) returns (available: String, upToDate: String)
    ensures (available, upToDate) == Icons(env, theme)
  {
    available := Common.IconPath(env.root, theme, AVAILABLE_ICON, env.themes, env.fileExists);
    upToDate := Common.IconPath(env.root, theme, UP_TO_DATE_ICON, env.themes, env.fileExists);
  }

  /**
   * isPackageInstalled, given the outcome of `pacman -Q name`.  The result of
   * the 5-second wait is ignored and only exitCode() is read, which stays 0
   * when pacman did not start or had not finished: both count as installed.
   */
  function IsPackageInstalled(query: ProcessOutcome): (r: bool)
    ensures query.Finished? ==> (r <==> query.exitCode == 0)
    ensures !query.Finished? ==> r
  {
    match query
    case Finished(code, _) => code == 0
    case _ => true
  }

  /** The label of the installer entry, when the package manager is set and installed. */
  method InstallerEntry(s: TraySettings, desktop: DesktopEnv, pacmanQuery: String -> ProcessOutcome) returns (entry: Option<String>)
    ensures entry == InstallerLabel(s, desktop, pacmanQuery)
  {
    entry := None;
    if s.packageManager != "" && IsPackageInstalled(pacmanQuery(s.packageManager)) {
      var name := Common.GetDesktopFileName(desktop.home, desktop.dirExists, desktop.listing, desktop.contents,
                                            s.packageManager);
      entry := Some(name);
    }
  }

  /** The installer entry's label: the package manager's desktop name, when it is set and installed. */
  function InstallerLabel(s: TraySettings, desktop: DesktopEnv, pacmanQuery: String -> ProcessOutcome): (r: Option<String>)
    ensures r.Some? <==> s.packageManager != "" && IsPackageInstalled(pacmanQuery(s.packageManager))
  {
    if s.packageManager != "" && IsPackageInstalled(pacmanQuery(s.packageManager))
    then Some(Common.DesktopName(desktop.home, desktop.dirExists, desktop.listing, desktop.contents, s.packageManager))
    else None
  }

  /**
   * The check fails open: with pacman missing from the path, or slower than
   * the wait, a set package manager always gets its installer entry.
   */
  lemma InstallerFailsOpen(s: TraySettings, desktop: DesktopEnv, pacmanQuery: String -> ProcessOutcome)
    requires s.packageManager != "" && !pacmanQuery(s.packageManager).Finished?
    ensures InstallerLabel(s, desktop, pacmanQuery) ==
      Some(Common.DesktopName(desktop.home, desktop.dirExists, desktop.listing, desktop.contents, s.packageManager))
  {
  }

  /** Only a pacman that finished with a non-zero exit code keeps the entry out. */
  lemma InstallerAbsentOnlyWhenRejected(s: TraySettings, desktop: DesktopEnv, pacmanQuery: String -> ProcessOutcome)
    requires s.packageManager != ""
    ensures InstallerLabel(s, desktop, pacmanQuery).None? <==>
      pacmanQuery(s.packageManager).Finished? && pacmanQuery(s.packageManager).exitCode != 0
  {
  }

  /** updatePackageManagerAction's menu edit: remove the installer entry, insert the new one after View. */
  method RebuildMenu(menu: seq<MenuItem>, entry: Option<String>) returns (r: seq<MenuItem>)
    ensures r == UpdatedMenu(menu, entry)
  {
    r := WithoutInstaller(menu);
    if entry.Some? {
      var k := IndexOf(r, ViewItem) + 1;
      if k < |r| {
        r := r[..k] + [InstallerItem(entry.value)] + r[k..];
      } else {
        r := r + [InstallerItem(entry.value)];
      }
    }
  }

  /** A second update with the same summary and settings shows no further message and keeps the latch. */
  lemma LatchedAgain(notified: bool, r: Round, body: String)
    ensures Latched(Latched(notified, r), r) == Latched(notified, r)
    ensures Announcement(Latched(notified, r), r, body) == []
  {
  }

  /** The summary after the constructor's refresh: the monitor's reply when it is valid, else all zero. */
  function StartSummary(c: Codec, monitorAvailable: bool, reply: Option<String>): (sm: Summary)
    ensures !monitorAvailable || reply.None? ==> sm == Summary(0, 0, 0, 0, 0)
  {
    if monitorAvailable && reply.Some? && SummaryOf(c, reply.value).Some? then SummaryOf(c, reply.value).value
    else Summary(0, 0, 0, 0, 0)
  }

  // ---------------------------------------------------------------- the tray

  class Tray {
    var summary: Summary
    var notifiedAvailable: bool
    var initializationComplete: bool
    /** Whether the activated signal is connected to onActivated. */
    var activationConnected: bool
    var icons: IconCache
    var look: Look
    /** The notifications the tray has shown, oldest first. */
    var messages: seq<Message>
    var menu: seq<MenuItem>

    /**
     * The state updateUI leaves, given the icon cache, the latch and the
     * messages before it.
     */
    ghost predicate UpdatedFrom(s: TraySettings, env: IconEnv, oldIcons: IconCache, notified: bool, shown: seq<Message>)
      reads this
    {
      var r := Round(s.notify, summary.total > 0);
      icons == LoadedIcons(s, env, oldIcons) && look == LookOf(s.autoHide, summary, icons) &&
      notifiedAvailable == Latched(notified, r) && messages == shown + Announcement(notified, r, look.tooltip)
    }

    /**
     * The constructor: the menu, the first refresh, an update, then
     * `show()` (which makes the tray visible whatever auto-hide says, until
     * the next update) and finally the activation handler.
     */
    constructor (c: Codec, s: TraySettings, env: IconEnv, desktop: DesktopEnv, pacmanQuery: String -> ProcessOutcome,
                 monitorAvailable: bool, reply: Option<String>)
      ensures summary == StartSummary(c, monitorAvailable, reply)
      ensures icons == LoadedIcons(s, env, IconCache("", "", ""))
      ensures icons.theme == EffectiveTheme(s.iconTheme, env.themes)
      ensures look == LookOf(s.autoHide, summary, icons).(visible := true)
      ensures notifiedAvailable <==> s.notify && summary.total > 0
      ensures messages == Announcement(false, Round(s.notify, summary.total > 0), look.tooltip)
      ensures menu == InitialMenu(InstallerLabel(s, desktop, pacmanQuery))
      ensures initializationComplete && activationConnected
    {
      summary := Summary(0, 0, 0, 0, 0);
      notifiedAvailable := false;
      initializationComplete := false;
      activationConnected := false;
      icons := IconCache("", "", "");
      look := Look("", "", false);
      messages := [];
      menu := [];
      new;
      var entry := InstallerEntry(s, desktop, pacmanQuery);
      menu := InitialMenu(entry);
      Start(c, s, env, monitorAvailable, reply);
    }

    /**
     * What the constructor does after building the menu: setupDBus's first
     * refresh, an update, `show()` and the activation handler.
     */
    method Start(c: Codec, s: TraySettings, env: IconEnv, monitorAvailable: bool, reply: Option<String>)
      requires summary == Summary(0, 0, 0, 0, 0) && !notifiedAvailable && messages == []
      modifies this
      ensures summary == StartSummary(c, monitorAvailable, reply)
      ensures icons == LoadedIcons(s, env, old(icons))
      ensures icons.theme == EffectiveTheme(s.iconTheme, env.themes)
      ensures look == LookOf(s.autoHide, summary, icons).(visible := true)
      ensures notifiedAvailable <==> s.notify && summary.total > 0
      ensures messages == Announcement(false, Round(s.notify, summary.total > 0), look.tooltip)
      ensures menu == old(menu) && initializationComplete && activationConnected
    {
      ghost var before := icons;
      Refresh(c, s, env, monitorAvailable, reply);
      UpdateAndShow(s, env, before);
    }

    /**
     * The constructor's steps after its first refresh: an update, `show()`
     * and the activation handler. The refresh either left the tray as it
     * was or already made the same update once.
     */
    method UpdateAndShow(s: TraySettings, env: IconEnv, ghost before: IconCache)
      requires icons == before || icons == LoadedIcons(s, env, before)
      requires var r := Round(s.notify, summary.total > 0);
        (!notifiedAvailable && messages == []) ||
        (notifiedAvailable == Latched(false, r) && messages == Announcement(false, r, Tooltip(summary)))
      modifies this
      ensures summary == old(summary) && icons == LoadedIcons(s, env, before)
      ensures look == LookOf(s.autoHide, summary, icons).(visible := true)
      ensures notifiedAvailable == Latched(false, Round(s.notify, summary.total > 0))
      ensures messages == Announcement(false, Round(s.notify, summary.total > 0), look.tooltip)
      ensures menu == old(menu) && initializationComplete && activationConnected
    {
      LoadedIconsStable(s, env, before);
      LatchedAgain(false, Round(s.notify, summary.total > 0), Tooltip(summary));
      UpdateUI(s, env);
      look := look.(visible := true);
      activationConnected := true;
      initializationComplete := true;
    }

    /**
     * onSummaryChanged: an unparsable payload is ignored; otherwise the
     * counts are taken and the tray is updated.
     */
    method OnSummaryChanged(c: Codec, payload: String, s: TraySettings, env: IconEnv)
      modifies this
      ensures SummaryOf(c, payload).None? ==>
        summary == old(summary) && icons == old(icons) && look == old(look) &&
        notifiedAvailable == old(notifiedAvailable) && messages == old(messages)
      ensures SummaryOf(c, payload).Some? ==>
        summary == SummaryOf(c, payload).value && UpdatedFrom(s, env, old(icons), old(notifiedAvailable), old(messages))
      ensures menu == old(menu) && initializationComplete == old(initializationComplete)
      ensures activationConnected == old(activationConnected)
    {
      var doc := c.parse(payload);
      if doc.None? {
        return;
      }
      summary := SummaryFromDoc(doc.value);
      UpdateUI(s, env);
    }

    /**
     * updateUI: reloads the icons if needed, sets the icon, tooltip and
     * visibility, shows the message when the latch allows it and clears the
     * latch when nothing is available.
     */
    method UpdateUI(s: TraySettings, env: IconEnv)
      modifies this
      ensures UpdatedFrom(s, env, old(icons), old(notifiedAvailable), old(messages))
      ensures summary == old(summary) && menu == old(menu)
      ensures initializationComplete == old(initializationComplete) && activationConnected == old(activationConnected)
    {
      var available := summary.total > 0;
      LoadIconsIfNeeded(s, env);
      var tooltip := Tooltip(summary);
      look := Look(if available then icons.available else icons.upToDate, tooltip, !(s.autoHide && !available));
      if s.notify && available && !notifiedAvailable {
        messages := messages + [Message("Updates Available", tooltip)];
        notifiedAvailable := true;
      }
      if !available {
        notifiedAvailable := false;
      }
    }

    /**
     * loadIconsIfNeeded: an unknown theme becomes "modern-light"; the icons
     * are reloaded only when the theme differs from the cached one.
     */
    method LoadIconsIfNeeded(s: TraySettings, env: IconEnv)
      modifies this
      ensures icons == LoadedIcons(s, env, old(icons))
      ensures summary == old(summary) && look == old(look) && menu == old(menu)
      ensures notifiedAvailable == old(notifiedAvailable) && messages == old(messages)
      ensures initializationComplete == old(initializationComplete) && activationConnected == old(activationConnected)
    {
      var theme := ThemeToLoad(s.iconTheme, env.themes);
      if theme != icons.theme {
        var availablePath, upToDatePath := LoadIcons(env, theme);
        icons := IconCache(theme, availablePath, upToDatePath);
      }
    }

    /** pollState: with the monitor reachable and a valid reply, the summary is applied. */
    method PollState(c: Codec, s: TraySettings, env: IconEnv, monitorAvailable: bool, reply: Option<String>)
      modifies this
      ensures !(monitorAvailable && reply.Some? && SummaryOf(c, reply.value).Some?) ==>
        summary == old(summary) && icons == old(icons) && look == old(look) &&
        notifiedAvailable == old(notifiedAvailable) && messages == old(messages)
      ensures monitorAvailable && reply.Some? && SummaryOf(c, reply.value).Some? ==>
        summary == SummaryOf(c, reply.value).value &&
        UpdatedFrom(s, env, old(icons), old(notifiedAvailable), old(messages))
      ensures menu == old(menu) && initializationComplete == old(initializationComplete)
      ensures activationConnected == old(activationConnected)
    {
      if !monitorAvailable {
        return;
      }
      if reply.Some? {
        OnSummaryChanged(c, reply.value, s, env);
      }
    }

    /**
     * refresh: with the monitor reachable, asks it to refresh and polls;
     * without it, just updates.
     */
    method Refresh(c: Codec, s: TraySettings, env: IconEnv, monitorAvailable: bool, reply: Option<String>)
      modifies this
      ensures !monitorAvailable ==>
        summary == old(summary) && UpdatedFrom(s, env, old(icons), old(notifiedAvailable), old(messages))
      ensures monitorAvailable && !(reply.Some? && SummaryOf(c, reply.value).Some?) ==>
        summary == old(summary) && icons == old(icons) && look == old(look) &&
        notifiedAvailable == old(notifiedAvailable) && messages == old(messages)
      ensures monitorAvailable && reply.Some? && SummaryOf(c, reply.value).Some? ==>
        summary == SummaryOf(c, reply.value).value &&
        UpdatedFrom(s, env, old(icons), old(notifiedAvailable), old(messages))
      ensures menu == old(menu) && initializationComplete == old(initializationComplete)
      ensures activationConnected == old(activationConnected)
    {
      if monitorAvailable {
        PollState(c, s, env, monitorAvailable, reply);
      } else {
        UpdateUI(s, env);
      }
    }

    /**
     * onActivated: ignored until initialisation completes; otherwise the
     * handler disconnects itself (until ReconnectActivation) and starts the
     * view or the package manager.
     */
    method OnActivated(reason: ActivationReason, s: TraySettings, appDir: String,
                       fileExists: String -> bool) returns (started: Option<String>)
      modifies this
      ensures !old(initializationComplete) ==> started == None && activationConnected == old(activationConnected)
      ensures old(initializationComplete) ==>
        started == ActivationLaunch(reason, s.packageManager, appDir, fileExists) && !activationConnected
      ensures initializationComplete == old(initializationComplete) && menu == old(menu) && summary == old(summary)
      ensures messages == old(messages) && look == old(look) && icons == old(icons)
      ensures notifiedAvailable == old(notifiedAvailable)
    {
      if !initializationComplete {
        return None;
      }
      activationConnected := false;
      if reason == Trigger || reason == Unknown {
        var path := appDir + "/" + VIEW_PROGRAM;
        if fileExists(path) {
          started := Some(path);
        } else {
          started := Some(VIEW_PROGRAM);
        }
      } else if reason == MiddleClick {
        if s.packageManager != "" {
          started := Some(s.packageManager);
        } else {
          started := None;
        }
      } else {
        started := None;
      }
    }

    /** A click delivered through the activated signal: dropped while the handler is disconnected. */
    method Activate(reason: ActivationReason, s: TraySettings, appDir: String,
                    fileExists: String -> bool) returns (started: Option<String>)
      modifies this
      ensures !old(activationConnected) ==> started == None && activationConnected == old(activationConnected)
      ensures old(activationConnected) && !old(initializationComplete) ==> started == None && activationConnected
      ensures old(activationConnected) && old(initializationComplete) ==>
        started == ActivationLaunch(reason, s.packageManager, appDir, fileExists) && !activationConnected
      ensures initializationComplete == old(initializationComplete) && menu == old(menu) && summary == old(summary)
      ensures messages == old(messages) && look == old(look)
      ensures icons == old(icons) && notifiedAvailable == old(notifiedAvailable)
    {
      if !activationConnected {
        return None;
      }
      started := OnActivated(reason, s, appDir, fileExists);
    }

    /** The 100 ms timer after an activation: the handler is connected again. */
    method ReconnectActivation()
      modifies this
      ensures activationConnected && initializationComplete == old(initializationComplete) && menu == old(menu)
      ensures summary == old(summary) && messages == old(messages) && look == old(look)
      ensures icons == old(icons) && notifiedAvailable == old(notifiedAvailable)
    {
      activationConnected := true;
    }

    /**
     * updatePackageManagerAction: the old installer entry is removed; when
     * the package manager is set and installed, a new entry named by its
     * desktop file goes right after View.
     */
    method UpdatePackageManagerAction(s: TraySettings, desktop: DesktopEnv, pacmanQuery: String -> ProcessOutcome)
      modifies this
      ensures menu == UpdatedMenu(old(menu), InstallerLabel(s, desktop, pacmanQuery))
      ensures summary == old(summary) && messages == old(messages) && look == old(look) && icons == old(icons)
      ensures notifiedAvailable == old(notifiedAvailable)
      ensures initializationComplete == old(initializationComplete) && activationConnected == old(activationConnected)
    {
      var entry := InstallerEntry(s, desktop, pacmanQuery);
      menu := RebuildMenu(menu, entry);
    }

    /** The menu's aboutToShow handler: an update, then the installer entry is rebuilt. */
    method MenuAboutToShow(s: TraySettings, env: IconEnv, desktop: DesktopEnv, pacmanQuery: String -> ProcessOutcome)
      modifies this
      ensures UpdatedFrom(s, env, old(icons), old(notifiedAvailable), old(messages))
      ensures menu == UpdatedMenu(old(menu), InstallerLabel(s, desktop, pacmanQuery))
      ensures summary == old(summary)
      ensures initializationComplete == old(initializationComplete) && activationConnected == old(activationConnected)
    {
      UpdateUI(s, env);
      UpdatePackageManagerAction(s, desktop, pacmanQuery);
    }
  }
}
