# update-notifier (MX Arch Updater): a Dafny model of its core

The MX Arch Updater tells a desktop user of an Arch-based system that package
updates are waiting, and lets them install those updates. It has three parts:

- A root-side **monitor** runs `pacman -Qu` and the pacman database queries
  and turns their output into a **state document**. That document holds the
  pending packages, their counts, a status and the time of the check. The
  monitor writes it to disk with a SHA-256 checksum, announces it over D-Bus,
  and quits after a period with no callers.
- A **tray icon** shows "updates available" or "up to date" in the configured
  icon theme. It hides itself when asked to and nothing is pending, shows a
  notification once for each stretch of pending updates, and opens the other
  windows when clicked.
- The windows: **View and Upgrade** lists the pending packages in a tree of
  check boxes and runs the upgrade command in a terminal. **Settings** edits
  the preferences. **History** shows the transactions in the pacman log.

The repository has two implementations: a C++/Qt tree (`src/`) and an older
Python/PySide tree (`libexec/mx-arch-updater/`). Each source file has its own
module here:

- `Common`: `src/common.cpp`
- `SystemMonitor`: `src/system_monitor.cpp`
- `UpdateLine`: the update-line regular expression of both monitors
- `ViewAndUpgrade`: `src/view_and_upgrade.cpp`
- `TrayApp`: `src/tray_app.cpp`
- `HistoryDialog`: `src/history_dialog.cpp`
- `SettingsDialog`: `src/settings_dialog.cpp`
- `PyCommon`: `libexec/mx-arch-updater/common.py`
- `PySystemMonitor`: `libexec/mx-arch-updater/updater_system_monitor.py`
- `PySystray`: `libexec/mx-arch-updater/updater_systray.py`
- `PySettings`: `libexec/mx-arch-updater/updater_settings.py`

Shared definitions live in four more modules:

- `Wrappers` has `Option` and `Py`, the outcome of a Python call that returns
  or raises.
- `Text` has the QString and str operations with their three white-space
  classes.
- `Json` has JSON values and the Qt accessors with their defaults.
- `Process` has the outcomes of child processes.

The model takes its own form from each source file:

- Code that computes values is written as functions and lemmas.
- Objects whose methods update fields are classes. These are the monitors,
  the trays, the dialog windows and the file store, and their methods are
  proved against functions of the old state.
- Loops in the source are methods with loop invariants. Each loop method is
  proved equal to a specification function, and the properties are proved as
  lemmas about that function.

The model takes the outside world as inputs:

- The file system is a map from path to contents. Which directories exist and
  which files cannot be opened are predicates.
- Process runs, D-Bus replies, the clock (`now`), the settings store, the
  environment and `$PATH` lookups are parameters.
- JSON serialisation, parsing and SHA-256 are functions. They are bundled as
  a `Codec`, and the model assumes one thing about them (`Codec.Sound`):
  parsing what was serialised gives the value back.

Where the two trees differ, each is modelled as its own code has it. Both
trees are modelled as their code behaves, including where that differs from
what the authors evidently meant. The one place where the code is evidently
wrong, the Python update pattern, is modelled as written and, beside it,
corrected (see "## Findings"):

- **The C++ tray always reads 0 updates from the C++ monitor.** The tray
  takes its count from `total_upgrade` and `aur_upgrade`, but no monitor
  shown here writes those keys. `TrayApp.MonitorSummary` proves that the
  total it reads from the C++ monitor's document is 0.
- **The C++ monitor's remove and held counts are always 0.** The Python
  monitor computes both.
- **The C++ monitor always requires a checksum.** Its constructor reads the
  state file with `requireChecksum` left at true, even when it was
  constructed with false (`src/system_monitor.cpp:15`).
- **The two readers treat an empty state differently.** Python's `read_state`
  accepts an empty stored state; the C++ reader falls back to the default
  (`PyCommon.EmptyStateReaders`). Python's default state also has a `new`
  count.
- **Python keeps commas in `IgnorePkg` and `IgnoreGroup` values.** It strips
  commas only from `Replaces` names. The C++ monitor removes every comma.
- **The C++ tray is always shown at startup.** The constructor ends with
  `show()`, which makes the tray visible even when auto-hide would have
  hidden it. The same holds for the Python `__init__`.
- **`shellQuoteArgument` quotes only some words.** It leaves a word as it is
  unless it holds a blank or a `'`, so `;`, `$` or `\` can pass unquoted. Its
  round trip is therefore an if-and-only-if: the shell reads a word back
  exactly when its plain form is safe (`ViewAndUpgrade.ShellQuoteRoundTrip`
  and `ViewAndUpgrade.UnsafeNotRoundTrip`).
- **The `.bin` alternative of `getDesktopFileName` can never match.**
  `QFileInfo::baseName` has already removed every suffix
  (`Common.BinAlternativeDead`).
- **The C++ installer check fails open.** `isPackageInstalled` ignores the
  result of its 5-second wait and reads only `exitCode()`, which is 0 when
  pacman did not start or had not finished. So with pacman missing from the
  path, or slow, the package manager counts as installed and gets its menu
  entry (`TrayApp.InstallerFailsOpen`).
- **The Python `icon_path` has no fallback.** Unlike the C++ `iconPath`, it
  does not search the other themes.

## Model

| member | source | states |
|---|---|---|
| Common.DefaultCounts | src/common.cpp:23-27 | the default counts object has exactly the keys upgrade, remove and held, each 0 |
| Common.DefaultState | src/common.cpp:21-33 | the default state has exactly checked_at 0, the default counts, no packages, no errors and status "idle" |
| Common.Envelope | src/common.cpp:42-49 | the stored payload has exactly two members: the state and the SHA-256 of its compact form; the Python write_state stores the same envelope |
| Common.DocObject | src/common.cpp:69-75 | a document's top-level object is its members, or empty when the document is not an object |
| Common.ReadState | src/common.cpp:59-90 | a missing, unreadable, unparsable, empty or (when required) badly checksummed file reads as the default state; otherwise the result is the non-empty "state" member of the parsed document |
| Common.ReadStateChecksumGuard | src/common.cpp:77-87 | with the checksum not required a non-empty stored state is returned as is; with it required, it is returned exactly when the checksum matches (or the state happens to be the default) |
| Common.FileSystem.constructor | src/common.cpp:42-57 | the file system starts with the given files and directories |
| Common.FileSystem.WriteState | src/common.cpp:42-57 | the parent directory is created; when the file can be opened it holds the indented envelope afterwards, otherwise no file changes |
| Common.WriteReadRoundTrip | src/common.cpp:42-90 | what writeState stores, readState reads back unchanged for every non-empty state, with or without the checksum requirement |
| Common.WriteReadEmpty | src/common.cpp:81-83 | an empty state written reads back as the default state |
| Common.EnvRoot | src/common.cpp:92-119 | the environment override wins; otherwise the project root when run from a build directory next to icons/; otherwise the installed data root if it exists, else "" |
| Common.IsKnownIconTheme | src/common.cpp:150-157 | a theme is known exactly when it is one of the listed themes |
| Common.OtherThemes | src/common.cpp:127-131 | the listed themes other than the requested one, and all of them |
| Common.ThemeCandidates | src/common.cpp:124-131 | the requested theme comes first, followed by exactly the other listed themes |
| Common.FirstExisting | src/common.cpp:135-142 | the first candidate whose icon file exists: every earlier candidate's file is missing |
| Common.IconPath | src/common.cpp:121-148 | the search loop returns the path of the first existing candidate, or the requested theme's path when none exists |
| Common.FirstExistingIs | src/common.cpp:135-142 | the first existing candidate is unique: any index with all earlier files missing and its own present is it |
| Common.IconPathChoice | src/common.cpp:121-148 | the requested theme's icon is used when it exists; the result is always the icon path of the requested theme or a listed one; and with no listed icon present it falls back to the requested theme |
| Common.FileName | src/common.cpp:207 | the file name of a path has no '/' |
| Common.BaseName | src/common.cpp:207 | QFileInfo::baseName has neither '/' nor '.' |
| Common.BinAlternativeDead | src/common.cpp:207-210 | the ".bin" alternative of the Exec test can never match, so an Exec line matches exactly when its base name equals the executable |
| Common.TrimmedLines | src/common.cpp:196-197 | one trimmed line per line of the desktop file |
| Common.Capitalised | src/common.cpp:229-233 | the fallback name keeps the executable's length and upper-cases its first character only |
| Common.Paths | src/common.cpp:186-189 | each listed desktop file's absolute path in its directory, in listing order |
| Common.GetDesktopFileName | src/common.cpp:168-234 | the search returns the Name= of the first desktop file (in directory and listing order) that has a matching Exec= line and a Name= line, otherwise the capitalised executable |
| Common.SearchDesktopFiles | src/common.cpp:174-226 | the loops over the directories and their desktop files stop at the first file that yields a name, in directory and listing order, and yield nothing when none does |
| Common.ScanDesktopFile | src/common.cpp:194-223 | one desktop file yields its first Name= value exactly when some Exec= line matches the executable |
| Common.FindNameLine | src/common.cpp:212-220 | the rescan from the start yields the first Name= line's value, trimmed |
| Common.FirstDesktopNameAppend | src/common.cpp:174-226 | the search over two path lists stops at the first list when a name is found there |
| Common.DesktopPathsAppend | src/common.cpp:174-189 | the paths of two directory lists are those of the first followed by those of the second |
| Common.DesktopPathsSnoc | src/common.cpp:174-189 | one more directory adds its listing when it exists and nothing when it is missing |
| Common.DesktopPathsSplit | src/common.cpp:174-189 | the paths split at any desktop file of an existing directory into what comes before, up to and after it |
| Common.DesktopNameFallback | src/common.cpp:228-233 | with no desktop file naming the executable the result is the capitalised executable |
| Common.NoneFound | src/common.cpp:188-225 | when no readable file has a matching Exec line, no desktop file yields a name |
| SystemMonitor.ParseLine | src/system_monitor.cpp:114-136 | every parsed update keeps its raw line; a line of the form `name old -> new` yields those three words; any other line yields its text before the first space as the name, with empty versions |
| SystemMonitor.ParseUpdateLines | src/system_monitor.cpp:114-136 | one update per line, in order, each the line's parse |
| SystemMonitor.TrimAll | src/system_monitor.cpp:85-88 | one trimmed line per part, in order |
| SystemMonitor.QueryLines | src/system_monitor.cpp:59-90 | no lines unless pacman -Qu finished with exit code 0 or 1; then one trimmed line per non-empty output line, in order |
| SystemMonitor.QueryLinesTrimmed | src/system_monitor.cpp:84-89 | every query line is already trimmed and holds no newline |
| SystemMonitor.RunPacmanQuery | src/system_monitor.cpp:59-90 | runPacmanQuery returns the query lines of the process outcome, failures and timeouts giving none |
| SystemMonitor.TrimLines | src/system_monitor.cpp:85-88 | the loop appends each split part trimmed, in order |
| SystemMonitor.FieldInFirst | src/system_monitor.cpp:193-200 | the field's value comes from the first line that starts with the field (after trimming) and holds a ':' |
| SystemMonitor.FieldInNone | src/system_monitor.cpp:193-201 | with no such line the field's value is empty |
| SystemMonitor.PacmanFieldOutput | src/system_monitor.cpp:181-202 | empty unless pacman finished with exit code 0; otherwise the text after the first ':' of the first matching line, trimmed |
| SystemMonitor.FirstFieldLine | src/system_monitor.cpp:193-201 | the scanning loop returns the same value as the first matching line gives |
| SystemMonitor.IsUpdateAvailable | src/system_monitor.cpp:204-228 | an update is available exactly when both versions are non-empty and vercmp finished with exit code 0 printing "-1" |
| SystemMonitor.RemoveCommas | src/system_monitor.cpp:237-241 | each item with every ',' removed, in order |
| SystemMonitor.ReplacedNames | src/system_monitor.cpp:230-243 | an empty or "none" (any case) Replaces field gives no names; otherwise one name per space-separated item, in order, each the item with every comma removed, so no name holds ',' or ' ' |
| SystemMonitor.ReplacedNamesPlain | src/system_monitor.cpp:236-242 | a Replaces field without commas gives exactly its space-separated words |
| SystemMonitor.GetReplacedPackages | src/system_monitor.cpp:230-243 | the method returns the replaced names of the Replaces field of `pacman -Si` |
| SystemMonitor.AppendNames | src/system_monitor.cpp:162-165 | the loop appends each name with its commas removed, in order |
| SystemMonitor.GroupLines | src/system_monitor.cpp:245-262 | no packages unless pacman -Sqg finished with exit code 0; then the output split at newlines with empty parts skipped, each part trimmed (a part of blanks only stays, as an empty name) |
| SystemMonitor.GetGroupPackages | src/system_monitor.cpp:245-262 | the method returns the group's package lines |
| SystemMonitor.CleanLine | src/system_monitor.cpp:152-153 | the cleaned line holds no '#', so the startsWith("#") test at line 155 never holds |
| SystemMonitor.ConfValues | src/system_monitor.cpp:160-165 | the names of a conf line hold no ',', ' ' or '=', and no '#' when the line has none |
| SystemMonitor.ConfValuesChars | src/system_monitor.cpp:160-164 | the value after the last '=', split on spaces with commas removed, gives names without ',', ' ' or '=' |
| SystemMonitor.ConfOfNames | src/system_monitor.cpp:150-178 | no name in either ignore list holds ',', ' ' or '#' |
| SystemMonitor.ConfOfStep | src/system_monitor.cpp:151-174 | the lists after one more line are the lists so far updated by that line |
| SystemMonitor.SkippedLine | src/system_monitor.cpp:155-157 | a line that is empty after cutting the comment changes neither list |
| SystemMonitor.PkgLine | src/system_monitor.cpp:159-165 | an IgnorePkg line adds its names to the package list only |
| SystemMonitor.GroupLine | src/system_monitor.cpp:166-172 | an IgnoreGroup line that is not an IgnorePkg line adds its names to the group list only |
| SystemMonitor.OtherLine | src/system_monitor.cpp:159-173 | any other line changes neither list |
| SystemMonitor.ConfStepNothing | src/system_monitor.cpp:151-174 | a line contributing to neither list leaves the lists unchanged |
| SystemMonitor.ConfStepPackages | src/system_monitor.cpp:159-165 | a line contributing no groups extends the package list only |
| SystemMonitor.ConfStepGroups | src/system_monitor.cpp:166-172 | a line contributing no packages extends the group list only |
| SystemMonitor.ParsePacmanConf | src/system_monitor.cpp:138-179 | an unopenable file gives two empty lists; otherwise the lists gathered line by line in file order |
| SystemMonitor.CheckedStateShape | src/system_monitor.cpp:92-112 | the built state has the default state's keys, the time, the lines as packages, no errors, status "ok", one upgrade per line and no removals or held packages |
| SystemMonitor.BuildState | src/system_monitor.cpp:92-112 | buildState returns the checked state of the lines at that time |
| SystemMonitor.CheckedStateReadBack | src/system_monitor.cpp:47-48 | the state refresh writes reads back unchanged from the state file, with the checksum required |
| SystemMonitor.Monitor.constructor | src/system_monitor.cpp:12-27 | the constructor reads the state file with the checksum required, whatever `requireChecksum` says, takes both intervals from the settings or their defaults and records the current time as the last activity |
| SystemMonitor.Monitor.Touch | src/system_monitor.cpp:264-266 | touch records the time and changes nothing else |
| SystemMonitor.Monitor.GetState | src/system_monitor.cpp:29-33 | GetState returns the compact JSON of the state and counts as activity |
| SystemMonitor.Monitor.SetIdleTimeout | src/system_monitor.cpp:39-42 | the idle timeout becomes the larger of 30 and the request, so never below 30 and the request itself from 30 on |
| SystemMonitor.Monitor.CheckIdle | src/system_monitor.cpp:53-57 | the monitor quits exactly when more than the idle timeout has passed since the last activity |
| SystemMonitor.Monitor.Refresh | src/system_monitor.cpp:44-51 | refresh records activity at the touch's clock reading, replaces the state with the checked state of the query lines stamped at the later reading, writes it to the state file and emits its compact JSON, in that order |
| UpdateLine.WordThenBlanksWords | src/system_monitor.cpp:10 | the regex piece `(\S+)\s+` captures the first word and leaves the remaining words; when it fails the text has at most one word |
| UpdateLine.ArrowWords | src/system_monitor.cpp:10 | the tail `->\s+(\S+)` matches exactly when the first remaining word is "->" and another word follows, and captures that word |
| UpdateLine.MatchUpdateWords | src/system_monitor.cpp:10 | UPDATE_RE matches a line exactly when the line starts with a non-blank and has four words or more with the third "->"; the captures are then words one, two and four |
| UpdateLine.MatchUpdateFull | src/system_monitor.cpp:10 | the same equivalence once the two leading words are matched |
| UpdateLine.WordsSpaced | src/system_monitor.cpp:10 | a word followed by one space and a text starting with a non-blank splits into that word and the text's own words |
| UpdateLine.UpdateLineOf | src/system_monitor.cpp:10 | a pacman line `name old -> new` built from blank-free words splits into exactly those four words and is an update line |
| UpdateLine.UpdateLineOfWords | src/system_monitor.cpp:10 | a line whose words are `name old -> new` and that starts with the name is an update line |
| PyCommon.DefaultState | libexec/mx-arch-updater/common.py:37-44 | the Python default state has exactly checked_at 0, counts upgrade, new, remove and held all 0, no packages, no errors and status "idle" |
| PyCommon.ReadState | libexec/mx-arch-updater/common.py:61-74 | a missing file or undecodable JSON gives the default; an unreadable file raises; a document that is not an object raises AttributeError; any other returned state is the document's object "state" member, with its checksum matching when required |
| PyCommon.ReadStateIgnoresChecksum | libexec/mx-arch-updater/common.py:68-74 | without the checksum requirement any object "state" member is returned as is |
| PyCommon.WriteState | libexec/mx-arch-updater/common.py:52-58 | the parent directory is created and the file then holds the indented envelope; a failing mkdir or write raises and leaves what it did not reach unchanged |
| PyCommon.WriteReadRoundTrip | libexec/mx-arch-updater/common.py:52-74 | what write_state stores, read_state reads back unchanged for every state, the empty one included |
| PyCommon.EmptyStateReaders | libexec/mx-arch-updater/common.py:70-74 | an empty state written reads back as {} in Python, whereas the C++ reader turns it into the default state (src/common.cpp:81-83) |
| PyCommon.EnvRoot | libexec/mx-arch-updater/common.py:77-83 | a non-empty environment override wins; otherwise the installed data root if it exists; otherwise SystemExit |
| PyCommon.IconPath | libexec/mx-arch-updater/common.py:86-88 | the icon lies under root/icons/theme, joined to the data root as pathlib joins it, with no fallback search; env_root's SystemExit propagates |
| PyCommon.HelperPath | libexec/mx-arch-updater/common.py:91-96 | the helper under root/lib/mx-arch-updater, joined as pathlib joins it, when it exists, otherwise under /usr/lib/mx-arch-updater; env_root's SystemExit propagates |
| PyCommon.PathJoin | libexec/mx-arch-updater/common.py:86-96 | an empty root or "." adds nothing; otherwise the part follows the root after exactly one separator, the root's own trailing '/' serving as it |
| PyCommon.PathJoinTrailingSlash | libexec/mx-arch-updater/common.py:86-96 | a trailing '/' on the root gives the same joined path |
| PySystemMonitor.EscapedRun | libexec/mx-arch-updater/updater_system_monitor.py:37 | the doubled-backslash token `\\S+` only matches a literal backslash followed by one or more of the letter |
| PySystemMonitor.Fallback | libexec/mx-arch-updater/updater_system_monitor.py:71-73 | `line.split()[0]` raises IndexError exactly on a line without words; otherwise the first word is the name, with empty versions |
| PySystemMonitor.ParseLineAsWritten | libexec/mx-arch-updater/updater_system_monitor.py:37-73 | with the regex as written: IndexError exactly on a line without words; the raw line is kept; any line not starting with a backslash takes the fallback |
| PySystemMonitor.ParseLine | libexec/mx-arch-updater/updater_system_monitor.py:58-74 | with the regex corrected: IndexError exactly on a line without words; the raw line and its first word are always kept; an update line yields its words one, two and four; any other line takes the fallback |
| PySystemMonitor.VersionsLost | libexec/mx-arch-updater/updater_system_monitor.py:37 | for every update line not starting with a backslash, the regex as written loses both versions that the corrected one captures |
| PySystemMonitor.PacmanLineLosesVersions | libexec/mx-arch-updater/updater_system_monitor.py:37 | a pacman line `name old -> new` parses without its versions as written and with them when corrected |
| PySystemMonitor.LineLosesVersions | libexec/mx-arch-updater/updater_system_monitor.py:37 | the same for any line whose words are `name old -> new` |
| PySystemMonitor.NamesAgree | libexec/mx-arch-updater/updater_system_monitor.py:58-74 | both regexes raise on the same lines and give the same name, so the upgrade count and the replaced packages do not depend on the bug |
| PySystemMonitor.ParseUpdateLines | libexec/mx-arch-updater/updater_system_monitor.py:58-74 | the loop raises IndexError exactly when some line has no words; otherwise one update per line, in order, each the line's parse with the pattern as written |
| PySystemMonitor.UpdateNames | libexec/mx-arch-updater/updater_system_monitor.py:58-74 | one name per line, in order: the first capture when the pattern as written matches, the first word otherwise |
| PySystemMonitor.UpdateNamesPlain | libexec/mx-arch-updater/updater_system_monitor.py:37-74 | on lines not starting with a backslash the names parsed as written are the first words, and equal the names of the corrected parse |
| PySystemMonitor.FirstWords | libexec/mx-arch-updater/updater_system_monitor.py:72 | the first word of each line, in order |
| PySystemMonitor.StrippedLinesClean | libexec/mx-arch-updater/updater_system_monitor.py:54 | every kept line is non-empty, stripped and has a word |
| PySystemMonitor.StrippedLinesIdempotent | libexec/mx-arch-updater/updater_system_monitor.py:54 | stripping the kept lines again keeps them all unchanged |
| PySystemMonitor.StrippedLinesOne | libexec/mx-arch-updater/updater_system_monitor.py:54 | one line is kept, stripped, exactly when it is not blank |
| PySystemMonitor.StrippedLinesCons | libexec/mx-arch-updater/updater_system_monitor.py:54 | the first line contributes to the result what it would alone |
| PySystemMonitor.StrippedLinesAppend | libexec/mx-arch-updater/updater_system_monitor.py:54 | the comprehension distributes over concatenation, so the order of the lines is kept |
| PySystemMonitor.StrippedLinesMembers | libexec/mx-arch-updater/updater_system_monitor.py:54 | a text is kept exactly when it is non-empty and is the stripped form of some line |
| PySystemMonitor.RunPacmanQuery | libexec/mx-arch-updater/updater_system_monitor.py:40-55 | no lines when pacman is not on the path, the run raises OSError or exits with a code other than 0 or 1; after exit code 0 or 1, exactly the non-blank output lines, stripped, in order |
| PySystemMonitor.QueryLinesWorded | libexec/mx-arch-updater/updater_system_monitor.py:54 | every query line has a word, so parse_update_lines never raises on run_pacman_query's lines |
| PySystemMonitor.FieldFrom | libexec/mx-arch-updater/updater_system_monitor.py:103-107 | scanning the lines raises nothing but ValueError |
| PySystemMonitor.FieldOfLine | libexec/mx-arch-updater/updater_system_monitor.py:105-106 | the unpacking of `split(":", 1)` raises ValueError exactly on a line without ':'; the value is stripped |
| PySystemMonitor.FieldFromFirst | libexec/mx-arch-updater/updater_system_monitor.py:103-106 | the first line whose stripped form starts with the field decides the result, even when it holds no ':' |
| PySystemMonitor.FieldFromNone | libexec/mx-arch-updater/updater_system_monitor.py:103-107 | with no such line the value is "" |
| PySystemMonitor.FieldFromStripped | libexec/mx-arch-updater/updater_system_monitor.py:106 | a value that comes back is stripped |
| PySystemMonitor.PacmanFieldOutput | libexec/mx-arch-updater/updater_system_monitor.py:96-107 | "" on OSError or a non-zero exit code; otherwise the value of the first line that starts with the field |
| PySystemMonitor.UpdateAvailable | libexec/mx-arch-updater/updater_system_monitor.py:118-126 | false without vercmp; raises only ValueError or the process error of the vercmp run; true exactly when both versions are non-empty and vercmp exits 0 printing "-1" |
| PySystemMonitor.StripCommas | libexec/mx-arch-updater/updater_system_monitor.py:133 | each item kept is non-empty and neither starts nor ends with ',' |
| PySystemMonitor.StripCommasPlain | libexec/mx-arch-updater/updater_system_monitor.py:133 | items without surrounding commas are kept unchanged |
| PySystemMonitor.StripCommasOne | libexec/mx-arch-updater/updater_system_monitor.py:133 | one item is kept, stripped of its commas, exactly when something is left of it |
| PySystemMonitor.StripCommasAppend | libexec/mx-arch-updater/updater_system_monitor.py:133 | the comprehension distributes over concatenation, so the order of the items is kept |
| PySystemMonitor.StripCommasMembers | libexec/mx-arch-updater/updater_system_monitor.py:133 | a text is kept exactly when it is non-empty and is some item with its commas stripped |
| PySystemMonitor.ReplacedPackages | libexec/mx-arch-updater/updater_system_monitor.py:129-134 | raises exactly when reading the Replaces field raises; an empty field gives no names; a field other than "none" (any case) gives its words with the commas stripped off each, the empty results dropped; every name is non-empty without surrounding commas |
| PySystemMonitor.GroupPackages | libexec/mx-arch-updater/updater_system_monitor.py:137-149 | no packages unless pacman -Sqg exits 0; then exactly the non-blank output lines, stripped, in order; every package is non-empty and stripped |
| PySystemMonitor.ConfLine | libexec/mx-arch-updater/updater_system_monitor.py:84 | the cut line holds no '#', so the startswith("#") test never holds |
| PySystemMonitor.ConfValues | libexec/mx-arch-updater/updater_system_monitor.py:88-89 | the unpacking of `split("=", 1)` raises ValueError exactly on a line without '=' |
| PySystemMonitor.KeysExclusive | libexec/mx-arch-updater/updater_system_monitor.py:87-90 | no line starts with both IgnorePkg and IgnoreGroup, so the two independent ifs act as an if/elif |
| PySystemMonitor.StepRaises | libexec/mx-arch-updater/updater_system_monitor.py:85-92 | one line raises exactly when it is an IgnorePkg or IgnoreGroup line without '=', and then with ValueError |
| PySystemMonitor.ConfFromRaises | libexec/mx-arch-updater/updater_system_monitor.py:82-92 | reading the file raises exactly when some line is such a line, and then with ValueError |
| PySystemMonitor.ValuesGood | libexec/mx-arch-updater/updater_system_monitor.py:88-89 | the names of a line without '#' are non-empty, blank-free and without '#' |
| PySystemMonitor.StepGood | libexec/mx-arch-updater/updater_system_monitor.py:83-92 | each line keeps every gathered name non-empty, blank-free and without '#' |
| PySystemMonitor.ConfFromGood | libexec/mx-arch-updater/updater_system_monitor.py:82-93 | every name the file gives is non-empty, blank-free and without '#' |
| PySystemMonitor.ConfFromUnfold | libexec/mx-arch-updater/updater_system_monitor.py:83-92 | the lists after the lines from i are those after line i followed by the rest, a raise stopping the reading |
| PySystemMonitor.SkippedLine | libexec/mx-arch-updater/updater_system_monitor.py:85-86 | a line empty after cutting its comment changes nothing |
| PySystemMonitor.PkgLine | libexec/mx-arch-updater/updater_system_monitor.py:87-89 | an IgnorePkg line with '=' adds the words after the first '=' to the package list |
| PySystemMonitor.GroupLine | libexec/mx-arch-updater/updater_system_monitor.py:90-92 | an IgnoreGroup line with '=' adds the words after the first '=' to the group list |
| PySystemMonitor.BadLine | libexec/mx-arch-updater/updater_system_monitor.py:88-91 | a key line without '=' raises ValueError |
| PySystemMonitor.OtherLine | libexec/mx-arch-updater/updater_system_monitor.py:87-92 | any other line changes nothing |
| PySystemMonitor.ParsePacmanConf | libexec/mx-arch-updater/updater_system_monitor.py:77-93 | a missing file gives two empty lists, an unreadable one raises, otherwise the lists gathered line by line in file order |
| PySystemMonitor.HeldFrom | libexec/mx-arch-updater/updater_system_monitor.py:161-167 | the availability loop raises nothing but ValueError or a process error |
| PySystemMonitor.UpdatableMembers | libexec/mx-arch-updater/updater_system_monitor.py:161-167 | a package is counted exactly when it is listed and has an update |
| PySystemMonitor.HeldFromContents | libexec/mx-arch-updater/updater_system_monitor.py:161-167 | the loop raises exactly when some availability check raises, and otherwise adds exactly the listed packages that have an update |
| PySystemMonitor.HeldFromRaises | libexec/mx-arch-updater/updater_system_monitor.py:161-167 | the loop raises exactly when some availability check raises |
| PySystemMonitor.HeldFromValue | libexec/mx-arch-updater/updater_system_monitor.py:161-167 | a loop that returns adds exactly the listed packages that have an update |
| PySystemMonitor.HeldFromAppend | libexec/mx-arch-updater/updater_system_monitor.py:161-167 | running the loop over two lists is running it over the first, then over the second from where it stopped, a raise stopping it |
| PySystemMonitor.HeldGroupsFlat | libexec/mx-arch-updater/updater_system_monitor.py:164-167 | running it group by group is running it over all the groups' packages in order |
| PySystemMonitor.HeldSpecContents | libexec/mx-arch-updater/updater_system_monitor.py:159-167 | the held packages are exactly the ignored packages, named directly or through a group, that have an update; the count raises exactly when one availability check raises |
| PySystemMonitor.AddAvailable | libexec/mx-arch-updater/updater_system_monitor.py:161-163 | the loop method computes the same set as the specification |
| PySystemMonitor.HeldPackages | libexec/mx-arch-updater/updater_system_monitor.py:160-167 | both loops together compute the held set of the specification |
| PySystemMonitor.RemovedFrom | libexec/mx-arch-updater/updater_system_monitor.py:168-171 | the replaced-package loop raises nothing but ValueError |
| PySystemMonitor.ReplacedSetMembers | libexec/mx-arch-updater/updater_system_monitor.py:168-171 | a package is removed exactly when some update's sync info lists it as replaced |
| PySystemMonitor.RemovedFromContents | libexec/mx-arch-updater/updater_system_monitor.py:168-171 | the loop raises exactly when some update's Replaces field raises, and otherwise adds exactly the replaced packages |
| PySystemMonitor.RemovedFromRaises | libexec/mx-arch-updater/updater_system_monitor.py:168-171 | the loop raises exactly when some update's Replaces field raises |
| PySystemMonitor.RemovedFromValue | libexec/mx-arch-updater/updater_system_monitor.py:168-171 | a loop that returns adds exactly the replaced packages |
| PySystemMonitor.NamesOf | libexec/mx-arch-updater/updater_system_monitor.py:169-170 | the name of each update, in order |
| PySystemMonitor.AddItems | libexec/mx-arch-updater/updater_system_monitor.py:170-171 | adding the items to the set gives the set plus exactly the items |
| PySystemMonitor.RemovedPackages | libexec/mx-arch-updater/updater_system_monitor.py:168-171 | the nested loops compute the removed set of the specification |
| PySystemMonitor.PyCheckedStateShape | libexec/mx-arch-updater/updater_system_monitor.py:152-175 | the built state has the default state's keys, the time, the lines as packages, no errors, status "ok", and counts upgrade, new 0, remove and held |
| PySystemMonitor.BuildSpecCounts | libexec/mx-arch-updater/updater_system_monitor.py:152-175 | a state that gets built counts one upgrade per line, as removals the distinct packages replaced by the names the pattern as written gives, and the distinct held packages |
| PySystemMonitor.QueryBuildErrors | libexec/mx-arch-updater/updater_system_monitor.py:152-175 | building on the query's lines raises only a read error, ValueError or a process error, never IndexError |
| PySystemMonitor.ParsedNames | libexec/mx-arch-updater/updater_system_monitor.py:169-170 | the names of the updates parsed as written are the capture before the first blank for a line the pattern matches, and the first word otherwise |
| PySystemMonitor.BuildState | libexec/mx-arch-updater/updater_system_monitor.py:152-175 | build_state computes the specification's state, or its error |
| PySystemMonitor.SettingInt | libexec/mx-arch-updater/updater_system_monitor.py:186-187 | a missing setting gives the default; a stored one raises ValueError exactly when int() rejects it, and otherwise gives its value |
| PySystemMonitor.PyMonitor.constructor | libexec/mx-arch-updater/updater_system_monitor.py:181-187 | the monitor's fields once __init__'s reads have succeeded: the state, the time and the two intervals |
| PySystemMonitor.PyMonitor.Touch | libexec/mx-arch-updater/updater_system_monitor.py:209-210 | _touch records the time and changes nothing else |
| PySystemMonitor.PyMonitor.GetState | libexec/mx-arch-updater/updater_system_monitor.py:195-198 | GetState returns json.dumps of the state, spaced, and counts as activity |
| PySystemMonitor.PyMonitor.SetIdleTimeout | libexec/mx-arch-updater/updater_system_monitor.py:204-207 | the idle timeout becomes the larger of 30 and the request |
| PySystemMonitor.PyMonitor.CheckIdle | libexec/mx-arch-updater/updater_system_monitor.py:219-221 | the monitor quits exactly when more than the idle timeout has passed since the last activity |
| PySystemMonitor.PyMonitor.Refresh | libexec/mx-arch-updater/updater_system_monitor.py:209-217 | refresh records activity at the touch's clock reading; a build error propagates and changes nothing else; otherwise the state built at the later reading replaces the old one, is written, and is emitted only when writing succeeded |
| PySystemMonitor.PyMonitor.Store | libexec/mx-arch-updater/updater_system_monitor.py:215-217 | the new state is kept even when writing it raises; it is emitted only after a successful write |
| PySystemMonitor.StartMonitor | libexec/mx-arch-updater/updater_system_monitor.py:181-187 | __init__ raises the first error of reading the state and the two interval settings; otherwise a new monitor holds the state read with the requested checksum rule, the time and both intervals |
| PySystemMonitor.RefreshReadBack | libexec/mx-arch-updater/updater_system_monitor.py:215-216 | the state refresh writes reads back unchanged, with or without the checksum requirement |
| ViewAndUpgrade.QuoteBodyAppend | src/view_and_upgrade.cpp:29-35 | quoting one more character appends that character's escape: `'` becomes `'\''`, anything else stays |
| ViewAndUpgrade.ShellQuoteArgument | src/view_and_upgrade.cpp:19-38 | the loop builds `''` for the empty argument, the argument itself when it has no space, tab, newline or `'`, and otherwise the argument in single quotes with each `'` written as `'\''` |
| ViewAndUpgrade.QuotedLex | src/view_and_upgrade.cpp:27-37 | the shell reads a quoted body back as the original characters, whatever follows the closing quote |
| ViewAndUpgrade.PlainLex | src/view_and_upgrade.cpp:23-26 | an argument without shell-special characters is read back unchanged without quotes |
| ViewAndUpgrade.QuoteLex | src/view_and_upgrade.cpp:19-38 | a quoted argument that is never left bare with a shell-special character reads back as itself, continuing the word in progress |
| ViewAndUpgrade.ShellQuoteRoundTrip | src/view_and_upgrade.cpp:19-38 | for such an argument the shell reads the quoted text as exactly one word, the argument |
| ViewAndUpgrade.UnsafeLex | src/view_and_upgrade.cpp:23-26 | an argument left unquoted that holds a shell-special character (such as `;`, `$` or a pipe) is not read back as itself |
| ViewAndUpgrade.UnsafeNotRoundTrip | src/view_and_upgrade.cpp:19-38 | so the round trip holds exactly for those arguments: any other argument is not read back as one word equal to it |
| ViewAndUpgrade.QuoteAll | src/view_and_upgrade.cpp:40-47 | one quoted argument per argument, in order |
| ViewAndUpgrade.ShellQuoteArguments | src/view_and_upgrade.cpp:40-47 | the loop quotes each argument, keeping length and order |
| ViewAndUpgrade.QuotedWordLex | src/view_and_upgrade.cpp:329-337 | a quoted argument followed by a space is one whole word |
| ViewAndUpgrade.JoinLex | src/view_and_upgrade.cpp:329-337 | quoted arguments joined by single spaces and ended by `;` or the end read back as exactly the arguments |
| ViewAndUpgrade.TerminalArgs | src/view_and_upgrade.cpp:343-366 | gnome-terminal gets `-- bash -c <command>` and every other terminal `-e bash -c <command>` |
| ViewAndUpgrade.FirstTerminalIsFirst | src/view_and_upgrade.cpp:339-400 | no terminal launches exactly when no listed terminal is found and starts; otherwise the one used is the earliest listed one that does |
| ViewAndUpgrade.LaunchInTerminal | src/view_and_upgrade.cpp:308-401 | the loop returns the first terminal, in the fixed order, that is found and starts with the full command, or none |
| ViewAndUpgrade.FullCommandWords | src/view_and_upgrade.cpp:329-337 | the full command the terminal runs starts with exactly the command and its arguments as words, before the completion message |
| ViewAndUpgrade.AurHelper | src/view_and_upgrade.cpp:445-453 | the setting when it is not empty, else the detected helper; none exactly when both are empty |
| ViewAndUpgrade.UpgradePlan | src/view_and_upgrade.cpp:432-507 | nothing selected exactly when both lists are empty; no helper exactly when AUR packages are selected without a helper; repository-only, AUR-only and mixed exactly on their list conditions, carrying the selected lists and the helper |
| ViewAndUpgrade.RepoScriptSafe | src/view_and_upgrade.cpp:484-490 | the repository script holds a space, so quoting it for `bash -c` round-trips |
| ViewAndUpgrade.MixedScriptSafe | src/view_and_upgrade.cpp:456-477 | the mixed script holds a space, so quoting it for `bash -c` round-trips |
| ViewAndUpgrade.PlanCommandWords | src/view_and_upgrade.cpp:479-514 | whatever the plan, the terminal's full command reads back as the plan's program and arguments, provided an AUR-only helper and names need no quoting |
| ViewAndUpgrade.PacmanCommandWords | src/view_and_upgrade.cpp:485 | `sudo pacman -S` with the quoted packages reads back as those three words followed by exactly the packages |
| ViewAndUpgrade.AurCommandWords | src/view_and_upgrade.cpp:459 | the quoted helper with the quoted AUR packages reads back as the helper followed by exactly the packages |
| ViewAndUpgrade.MixedScriptWords | src/view_and_upgrade.cpp:461-477 | in the mixed script the pacman command and the AUR command each read back as their words |
| ViewAndUpgrade.MixedPiecesStart | src/view_and_upgrade.cpp:464-470 | the mixed script's text after each command starts with `;`, which ends that command |
| ViewAndUpgrade.PackageName | src/view_and_upgrade.cpp:416-421 | the package name is the item text before its first space, and the whole text when it has none |
| ViewAndUpgrade.PickedMembers | src/view_and_upgrade.cpp:409-430 | a name is collected exactly when some checked package item has it as its package name |
| ViewAndUpgrade.PickedUniform | src/view_and_upgrade.cpp:409-430 | with every item checked all package names are collected in order; with none checked, none |
| ViewAndUpgrade.MarkedChecks | src/view_and_upgrade.cpp:671-684 | Select All changes check marks only; every branch takes the new state, and afterwards every package is checked exactly when the box was checked or there is no package |
| ViewAndUpgrade.MarkedSelectsAll | src/view_and_upgrade.cpp:671-684 | after Select All checked, upgrade collects every package of each source, in tree order |
| ViewAndUpgrade.MarkedSelectsNone | src/view_and_upgrade.cpp:671-684 | after Select All unchecked, upgrade collects nothing |
| ViewAndUpgrade.ItemChangedBranch | src/view_and_upgrade.cpp:693-706 | toggling a branch gives all its packages the branch's state and changes no other branch |
| ViewAndUpgrade.ItemChangedPackage | src/view_and_upgrade.cpp:707-720 | toggling a package checks its branch exactly when all the branch's packages are checked, and changes nothing else |
| ViewAndUpgrade.ClickBranch | src/view_and_upgrade.cpp:693-706 | a click on a branch leaves the branch and all its packages in the clicked state |
| ViewAndUpgrade.ClickPackage | src/view_and_upgrade.cpp:707-720 | a click on a package sets that package only, and the branch becomes checked exactly when the clicked state and all its other packages are checked |
| ViewAndUpgrade.ScanAllChecked | src/view_and_upgrade.cpp:723-735 | the scan reports exactly whether every package item is checked |
| ViewAndUpgrade.PackageLeaves | src/view_and_upgrade.cpp:260-267 | one checked item per element of the array, its text the element's string |
| ViewAndUpgrade.StateTreeShape | src/view_and_upgrade.cpp:249-291 | a repository branch exactly when counts.upgrade > 0 and an AUR branch exactly when counts.aur_upgrade > 0, in that order, with one package per element of packages / aur_packages, everything checked |
| ViewAndUpgrade.NamesOfLeaves | src/view_and_upgrade.cpp:260-267 | the items built from an array are all checked and their package names are the elements' |
| ViewAndUpgrade.StateTreeSelection | src/view_and_upgrade.cpp:249-291 | upgrade on the fresh tree collects the package names of packages and aur_packages, each only when its count is positive |
| ViewAndUpgrade.MonitorStateTree | src/view_and_upgrade.cpp:249-268 | the state the C++ monitor builds from a non-empty query shows one repository branch, its count in its title and one checked item per line |
| ViewAndUpgrade.PickLeaves | src/view_and_upgrade.cpp:409-430 | the loop over one branch collects the checked items' package names |
| ViewAndUpgrade.BuildTree | src/view_and_upgrade.cpp:249-291 | the building loop gives the tree of the state |
| ViewAndUpgrade.LaunchPlan | src/view_and_upgrade.cpp:432-520 | the outcome is "no packages selected", "no AUR helper", "terminal not found" or the launching terminal, following the plan |
| ViewAndUpgrade.Dialog.constructor | src/view_and_upgrade.cpp:50-83 | the tree is empty, Select All is checked and the counts label reads "Loading updates..." |
| ViewAndUpgrade.Dialog.ApplyState | src/view_and_upgrade.cpp:224-295 | an unparsable payload only sets the error label; otherwise the counts text and the tree come from the state's object and Select All is checked |
| ViewAndUpgrade.Dialog.LoadState | src/view_and_upgrade.cpp:202-222 | no monitor, no reply and an invalid payload each set their own message and keep the tree; a valid reply is applied |
| ViewAndUpgrade.Dialog.OnSelectAllToggled | src/view_and_upgrade.cpp:671-684 | every branch and package takes the toggled state, with item-change handling suppressed only during the loop |
| ViewAndUpgrade.Dialog.OnTreeItemChanged | src/view_and_upgrade.cpp:686-739 | a change outside column 0 or while suppressed does nothing; otherwise the branch rule is applied and Select All then tells whether every package is checked |
| ViewAndUpgrade.Dialog.ToggleItem | src/view_and_upgrade.cpp:686-739 | a user click flips one item and then runs the item-change handling on it |
| ViewAndUpgrade.Dialog.CollectSelection | src/view_and_upgrade.cpp:409-430 | the iterator collects the selection of each source, in tree order |
| ViewAndUpgrade.Dialog.Upgrade | src/view_and_upgrade.cpp:403-525 | the outcome follows the plan of the tree's selection; the label changes to "Upgrade in progress in terminal..." only once a terminal launched; the tree is unchanged |
| TrayApp.Latched | src/tray_app.cpp:270-278 | after a round the latch is set only while updates are available; an announcing round sets it; while updates are available it is set exactly when it was already set or the round announces |
| TrayApp.LatchStep | src/tray_app.cpp:270-278 | the latch after one more round is that round applied to the latch so far |
| TrayApp.LatchHolds | src/tray_app.cpp:270-278 | once an announcement is made the latch stays set for as long as updates stay available |
| TrayApp.OncePerStretch | src/tray_app.cpp:270-278 | between two announcements there is always a round without available updates: at most one message per stretch of pending updates |
| TrayApp.AnnouncedAfterReset | src/tray_app.cpp:270-278 | a round with updates and notifications on, after a round without updates, always announces |
| TrayApp.EffectiveTheme | src/tray_app.cpp:281-287 | a known theme setting is used as is; any other falls back to "modern-light" |
| TrayApp.WithoutInstaller | src/tray_app.cpp:388-394 | removing the installer action leaves no installer entry and no extra entry |
| TrayApp.IndexOf | src/tray_app.cpp:409 | QList::indexOf: the first position of the entry, or -1 exactly when it is absent |
| TrayApp.WithoutInstallerKeeps | src/tray_app.cpp:388-394 | a menu without an installer entry is left unchanged by the removal |
| TrayApp.WithoutInstallerHasView | src/tray_app.cpp:388-394 | the removal keeps the View entry |
| TrayApp.WithoutInstallerOfInsert | src/tray_app.cpp:388-394 | removing an inserted installer entry drops exactly it and any later ones |
| TrayApp.IndexOfPrefix | src/tray_app.cpp:409 | an entry found in the front part is found at the same position in the whole |
| TrayApp.InsertAfterViewShape | src/tray_app.cpp:407-414 | insertion puts the entry right after View (appending when View is last) and keeps View's position |
| TrayApp.UpdatedMenuWithout | src/tray_app.cpp:388-416 | without an installed package manager the menu keeps its other entries in order and has no installer entry |
| TrayApp.InsertedOnly | src/tray_app.cpp:407-414 | the inserted entry is then the only installer entry |
| TrayApp.RemoveInserted | src/tray_app.cpp:388-394 | removing it again gives back the menu it was inserted into |
| TrayApp.UpdatedMenuWith | src/tray_app.cpp:388-416 | with an installed package manager there is exactly one installer entry, right after View, and the other entries keep their order |
| TrayApp.UpdatedInitialMenuNone | src/tray_app.cpp:56-107 | rebuilding without an entry leaves setupActions' menu without one as it was |
| TrayApp.UpdatedInitialMenuSome | src/tray_app.cpp:56-107 | rebuilding with the same entry leaves setupActions' menu with it as it was |
| TrayApp.BinPath | src/tray_app.cpp:428-438 | the program next to the running one when that file exists, otherwise the bare name for the PATH |
| TrayApp.ActivationLaunch | src/tray_app.cpp:321-330 | a trigger or unknown click starts the view program, a middle click the package manager when it is set, other reasons nothing |
| TrayApp.SummaryOf | src/tray_app.cpp:230-236 | a payload gives a summary exactly when it parses as JSON |
| TrayApp.SummaryFromDoc | src/tray_app.cpp:238-244 | every count is read with toInt, so it lies in the 32-bit range, and a document without counts gives all zeros |
| TrayApp.MonitorSummary | src/tray_app.cpp:238-244 | the state the C++ monitor builds gives a total of 0, because it writes no total_upgrade, with its line count as the repository count |
| TrayApp.LoadedIcons | src/tray_app.cpp:281-298 | the icons are for the effective theme; they are reloaded only when that theme differs from the cached one |
| TrayApp.LoadedIconsStable | src/tray_app.cpp:289-297 | a second load with the same settings changes nothing |
| TrayApp.LookVisibility | src/tray_app.cpp:251-268 | the tray is hidden exactly when auto-hide is on and the total is not positive, and shows the available icon exactly when the total is positive |
| TrayApp.Announcement | src/tray_app.cpp:270-275 | at most one message, given exactly when the round announces, titled "Updates Available" with the tooltip as its body |
| TrayApp.ThemeToLoad | src/tray_app.cpp:282-287 | the theme loadIconsIfNeeded picks is the effective theme |
| TrayApp.LoadIcons | src/tray_app.cpp:291-296 | both icons are loaded from the theme's icon paths |
| TrayApp.InstallerEntry | src/tray_app.cpp:397-402 | the method builds the entry exactly when InstallerLabel gives one: the package manager is set and isPackageInstalled answers true |
| TrayApp.InstallerLabel | src/tray_app.cpp:61-66 | there is an installer entry exactly when the package manager is set and isPackageInstalled answers true for the outcome of `pacman -Q`; the entry is then its desktop name |
| TrayApp.IsPackageInstalled | src/tray_app.cpp:442-448 | a finished `pacman -Q` counts as installed exactly when it exits 0; one that did not start or did not finish in time counts as installed too |
| TrayApp.InstallerFailsOpen | src/tray_app.cpp:442-448 | with a set package manager and a `pacman -Q` that did not start or timed out, the installer entry is always added |
| TrayApp.InstallerAbsentOnlyWhenRejected | src/tray_app.cpp:397-402 | with a set package manager, the entry is missing exactly when `pacman -Q` finished with a non-zero exit code |
| TrayApp.RebuildMenu | src/tray_app.cpp:388-416 | the method removes the old entry and inserts the new one as the specification says |
| TrayApp.LatchedAgain | src/tray_app.cpp:270-278 | a second update in the same situation keeps the latch and shows no further message |
| TrayApp.StartSummary | src/tray_app.cpp:209-228 | without the monitor or a reply the summary stays all zero |
| TrayApp.Tray.constructor | src/tray_app.cpp:16-44 | after construction the summary comes from the first refresh, the icons are those loadIconsIfNeeded loads into the empty cache for the effective theme, the tray is visible whatever auto-hide says, the first message is shown when notifications are on and updates are available, the menu has its installer entry exactly as setupActions decides, and activation is connected |
| TrayApp.Tray.Start | src/tray_app.cpp:31-43 | setupDBus's refresh, updateUI and show: the icons are loaded once from the cache it started with, then the initialisation flag and the activation connection are set |
| TrayApp.Tray.OnSummaryChanged | src/tray_app.cpp:230-246 | an unparsable payload changes nothing; otherwise the counts are replaced and the tray is updated |
| TrayApp.Tray.UpdateUI | src/tray_app.cpp:248-279 | the icons are reloaded if needed, the look follows the counts and the settings, and the latch and messages move one round on |
| TrayApp.Tray.LoadIconsIfNeeded | src/tray_app.cpp:281-298 | only the icon cache changes |
| TrayApp.Tray.PollState | src/tray_app.cpp:219-228 | without the monitor or a valid reply nothing changes; otherwise the reply's summary is applied |
| TrayApp.Tray.Refresh | src/tray_app.cpp:209-217 | with the monitor it polls; without it, it only updates from the counts it has |
| TrayApp.Tray.OnActivated | src/tray_app.cpp:307-336 | clicks before initialisation are ignored; otherwise the handler disconnects itself and starts what the reason asks for, changing nothing else |
| TrayApp.Tray.Activate | src/tray_app.cpp:317-335 | a click while the handler is disconnected is dropped, so a burst of clicks starts one program; a connected click before initialisation starts nothing and keeps the handler connected; icons, latch, look and messages never change |
| TrayApp.Tray.ReconnectActivation | src/tray_app.cpp:333-335 | the delayed reconnection only reconnects the handler: every other field keeps its value |
| TrayApp.Tray.UpdatePackageManagerAction | src/tray_app.cpp:388-416 | the menu's installer entry is rebuilt from the current setting; nothing else changes |
| TrayApp.Tray.MenuAboutToShow | src/tray_app.cpp:103-106 | opening the menu updates the tray and then rebuilds the installer entry |
| HistoryDialog.Transactions | src/history_dialog.cpp:46-54 | the kept lines are at most as many as the log's |
| HistoryDialog.TransactionsMembers | src/history_dialog.cpp:46-54 | a line is kept exactly when it is a log line that mentions " installed ", " upgraded " or " removed " |
| HistoryDialog.TransactionsAppend | src/history_dialog.cpp:46-54 | filtering keeps the file order: the lines kept from a longer log follow those kept from its beginning |
| HistoryDialog.LastAtMost | src/history_dialog.cpp:57-59 | a list within the limit is kept whole; a longer one keeps exactly its last entries up to the limit |
| HistoryDialog.EntriesBounded | src/history_dialog.cpp:46-61 | at most 500 entries are shown, each a transaction line of the log; when the log has more, they are exactly its last 500 transaction lines |
| HistoryDialog.ShortLogShownWhole | src/history_dialog.cpp:57-59 | a log with at most 500 transaction lines is shown whole |
| HistoryDialog.FilterTransactions | src/history_dialog.cpp:43-54 | the reading loop keeps the transaction lines, in order |
| HistoryDialog.LoadHistory | src/history_dialog.cpp:35-67 | an unopenable log shows the error message; otherwise the entries joined by newlines |
| HistoryDialog.HistoryWindow.constructor | src/history_dialog.cpp:8-33 | the window shows the loaded history |
| SettingsDialog.VariantText | src/settings_dialog.cpp:124 | QVariant::toString gives "true" or "false" for a bool and the text itself for text |
| SettingsDialog.Value | src/settings_dialog.cpp:85 | QSettings::value gives the stored value, or the default when the key is missing |
| SettingsDialog.ReadBool | src/settings_dialog.cpp:123-126 | the method answers the boolean reading of the setting |
| SettingsDialog.ToBoolDefault | src/settings_dialog.cpp:123-126 | a missing key reads as its default |
| SettingsDialog.ToBoolStored | src/settings_dialog.cpp:123-126 | a stored bool reads back as itself, whatever the default |
| SettingsDialog.ToBoolText | src/settings_dialog.cpp:123-126 | a stored text reads as true exactly when it lower-cases to "true", "1" or "yes" |
| SettingsDialog.FirstIndex | src/settings_dialog.cpp:88-95 | the first position holding the text, or -1 exactly when no item holds it |
| SettingsDialog.SelectText | src/settings_dialog.cpp:100 | setCurrentText selects an item holding the text when there is one, and otherwise keeps the current item |
| SettingsDialog.LoadedForm | src/settings_dialog.cpp:84-102 | load keeps the current items within the lists |
| SettingsDialog.LoadDefaults | src/settings_dialog.cpp:84-102 | on an empty store load leaves auto-hide off, turns notifications and start at login on, shows the helper "paru", selects "basic" and "wireframe-dark" when listed, and otherwise keeps the current theme |
| SettingsDialog.SavedKeys | src/settings_dialog.cpp:128-139 | each key save writes holds what was written for it; without a current theme item the stored theme is left as it was |
| SettingsDialog.FirstIndexOfDistinct | src/settings_dialog.cpp:88-95 | in a list without repeats, the first position of an item's text is that item's own position |
| SettingsDialog.SaveLoadRoundTrip | src/settings_dialog.cpp:84-139 | saving and loading again gives back the check boxes, the selected theme and mode and the helper trimmed, when no theme or mode is listed twice |
| SettingsDialog.Previews | src/settings_dialog.cpp:104-121 | each preview shows its icon exactly when the file iconPath picks for it exists |
| SettingsDialog.PreviewsChoice | src/settings_dialog.cpp:104-121 | a preview shows the requested theme's own icon whenever that file exists, and is empty when no theme has the icon |
| SettingsDialog.PreviewIcons | src/settings_dialog.cpp:104-121 | the method computes both previews |
| SettingsDialog.FindTheme | src/settings_dialog.cpp:88-95 | the loop finds the first item holding the stored theme, or none |
| SettingsDialog.LoadForm | src/settings_dialog.cpp:84-102 | the form load fills, the stored theme text, and whether the list has that theme |
| SettingsDialog.Settings.constructor | src/settings_dialog.cpp:6 | the store starts with the given values |
| SettingsDialog.SettingsWindow.constructor | src/settings_dialog.cpp:4-12 | buildUi lists the themes and modes with the first mode current and nothing checked, then load fills the form and previews the stored theme when the list has it, leaving both previews empty otherwise |
| SettingsDialog.SettingsWindow.Load | src/settings_dialog.cpp:84-102 | the form becomes the loaded form; the stored theme is previewed only when the list has it |
| SettingsDialog.SettingsWindow.SelectTheme | src/settings_dialog.cpp:47-52 | choosing a theme item makes it current and previews it |
| SettingsDialog.SettingsWindow.Save | src/settings_dialog.cpp:128-139 | the store becomes the saved store of the form and the dialog is accepted; the form is unchanged |
| PySettings.Str | libexec/mx-arch-updater/updater_settings.py:97 | str() gives the text itself, or "True" / "False" for a bool |
| PySettings.Value | libexec/mx-arch-updater/updater_settings.py:89-97 | settings.value gives the stored text, or the default when the key is missing |
| PySettings.TextOf | libexec/mx-arch-updater/updater_settings.py:93-94 | a text setting gives the stored text, or its default |
| PySettings.FalseTexts | libexec/mx-arch-updater/updater_settings.py:97 | neither "False" nor "false" reads as true |
| PySettings.BoolDefault | libexec/mx-arch-updater/updater_settings.py:96-97 | a missing key reads as its default, because str(True) lower-cases to "true" and str(False) to "false" |
| PySettings.BoolSaved | libexec/mx-arch-updater/updater_settings.py:96-105 | a bool that save wrote reads back as itself, whatever the default |
| PySettings.BoolStored | libexec/mx-arch-updater/updater_settings.py:96-97 | a stored text reads as true exactly when it lower-cases to "true", "1" or "yes" |
| PySettings.LoadedForm | libexec/mx-arch-updater/updater_settings.py:88-94 | _load keeps the current items within the lists |
| PySettings.SavedKeys | libexec/mx-arch-updater/updater_settings.py:99-106 | each key save writes holds what was written for it, the helper stripped |
| PySettings.ListsDistinct | libexec/mx-arch-updater/common.py:24-25 | no theme and no upgrade mode is listed twice |
| PySettings.LoadDefaults | libexec/mx-arch-updater/updater_settings.py:88-94 | on a file without the dialog's keys _load selects "wireframe-dark" and "basic", leaves auto-hide off, turns notifications and start at login on and shows "paru", whatever the form held before |
| PySettings.SaveLoadRoundTrip | libexec/mx-arch-updater/updater_settings.py:88-107 | saving and loading again gives back the form with the helper stripped, whatever was loaded before |
| PySettings.SettingsFile.constructor | libexec/mx-arch-updater/updater_settings.py:39 | the settings file starts with the given values |
| PySettings.Dialog.constructor | libexec/mx-arch-updater/updater_settings.py:35-42 | the combo boxes list common.py's themes and modes, and _load fills the form from the file |
| PySettings.Dialog.Load | libexec/mx-arch-updater/updater_settings.py:88-94 | the form becomes the loaded form of the file |
| PySettings.Dialog.Save | libexec/mx-arch-updater/updater_settings.py:99-107 | the file becomes the saved store of the form and the dialog is accepted |
| PySystray.SignedDigits | libexec/mx-arch-updater/updater_systray.py:153 | int() of unpadded text raises only ValueError |
| PySystray.IntText | libexec/mx-arch-updater/updater_systray.py:153 | int() of text raises only ValueError; surrounding white space is ignored |
| PySystray.SignedDigitsOfNat | libexec/mx-arch-updater/updater_systray.py:153 | a natural number's digits, with or without a minus sign, are read as its value |
| PySystray.IntTextRoundTrip | libexec/mx-arch-updater/updater_systray.py:153 | int() gives back every integer from its decimal text |
| PySystray.PyInt | libexec/mx-arch-updater/updater_systray.py:153 | int() of a decoded value: a number is itself, True and False are 1 and 0, text is parsed, null, lists and objects raise TypeError |
| PySystray.Format | libexec/mx-arch-updater/updater_systray.py:159-164 | the f-string shows a number in decimal, text as itself and a bool as "True" or "False" |
| PySystray.CountsOf | libexec/mx-arch-updater/updater_systray.py:152 | state.get succeeds exactly when the state is an object, and gives its "counts" member or an empty object |
| PySystray.UpgradesErrors | libexec/mx-arch-updater/updater_systray.py:152-153 | reading the upgrade count raises only AttributeError, ValueError or TypeError, and AttributeError whenever the state is not an object |
| PySystray.UpgradesMissing | libexec/mx-arch-updater/updater_systray.py:152-153 | a missing "counts" or "upgrade" member reads as 0, and a number as itself |
| PySystray.InitialStateIdle | libexec/mx-arch-updater/updater_systray.py:58-62 | the initial state has no upgrades and its tooltip shows 0 for each count |
| PySystray.MonitorStateAvailable | libexec/mx-arch-updater/updater_systray.py:136-154 | the document the Python monitor emits decodes to itself and its upgrade count is the number of upgrade lines, so updates show exactly when there are some |
| PySystray.Theme | libexec/mx-arch-updater/updater_systray.py:143-146 | the theme is the setting when it is a known theme, and "wireframe-dark" otherwise |
| PySystray.IconFor | libexec/mx-arch-updater/updater_systray.py:143-148 | the icon is common.py's icon_path for that theme, "updates-available.svg" exactly when updates are available |
| PySystray.UpdatedUiShape | libexec/mx-arch-updater/updater_systray.py:150-175 | an update succeeds exactly when the upgrade count and the icon path can be read; then the tray is hidden only under auto-hide with nothing available, takes the icon when its file exists, and the notification is shown once per availability |
| PySystray.UpdatedUiAgain | libexec/mx-arch-updater/updater_systray.py:150-175 | a second update of the same state changes nothing and shows no second message |
| PySystray.HelperName | libexec/mx-arch-updater/updater_systray.py:190-191 | the helper is never empty: the setting, or "paru" when it is missing or empty |
| PySystray.BinPath | libexec/mx-arch-updater/updater_systray.py:198-199 | the program path ends in "bin/" and the name, starts with MX_ARCH_UPDATER_PATH when that is set to a directory other than ".", and is relative otherwise |
| PySystray.ActivationEffect | libexec/mx-arch-updater/updater_systray.py:177-201 | a click opens the viewer when its program exists; a middle click runs the helper when it is on the PATH and otherwise reports it missing; other clicks do nothing |
| PySystray.ErrorOf | libexec/mx-arch-updater/updater_systray.py:150-175 | an error is reported exactly when the update raised |
| PySystray.ComputeUi | libexec/mx-arch-updater/updater_systray.py:150-175 | the handler's steps compute the update's outcome |
| PySystray.Tray.constructor | libexec/mx-arch-updater/updater_systray.py:49-68 | the tray starts from the idle state; when the first updates succeed it is shown with their look and notification, and when one raises nothing is shown |
| PySystray.Tray.Start | libexec/mx-arch-updater/updater_systray.py:64-68 | the refresh of the monitor connection, one update and show() leave the look of a single update, made visible |
| PySystray.Tray.UpdateUI | libexec/mx-arch-updater/updater_systray.py:150-175 | an update that raises changes nothing and reports the error; otherwise the look, the latch and the shown messages follow the update |
| PySystray.Tray.OnStateChanged | libexec/mx-arch-updater/updater_systray.py:135-141 | an undecodable payload is ignored; a decodable one replaces the state and the tray updates |
| PySystray.Tray.Refresh | libexec/mx-arch-updater/updater_systray.py:120-124 | a reachable monitor is only asked to refresh; otherwise the tray updates |
| PySystray.Tray.PollState | libexec/mx-arch-updater/updater_systray.py:126-133 | without a reachable monitor or a reply nothing changes; a reply is handled as a stateChanged payload |
| PySystray.Tray.OnActivated | libexec/mx-arch-updater/updater_systray.py:177-201 | the click starts the program or shows the message its effect names, and changes nothing else |

## Left out

- D-Bus plumbing is not modelled, because it is inter-process transport. That covers service and object registration, the `iface` calls, `TrayService`, `SettingsService`, `registerTrayService`, `registerSettingsService`, `_register_tray_service`, `_register_settings_service` and `autoEnableTrayService`. A call's reply and whether the monitor is reachable are inputs.
- The monitor's `GetStateSummary`, `SetRefreshPaused` and `DelayRefresh` are called by the clients but implemented nowhere in the code shown, so no behaviour is invented for them.
- Processes are given as their outcomes, not run. `QProcess`, `subprocess.run`, `subprocess.Popen`, terminal start-up and `systemctl` become parameters. A `Popen` that raises `OSError` in the Python tray is not modelled.
- `detectAurHelper` and `readBoolSetting` are not defined in the files modelled, so their results are inputs. `src/common.h` is not part of this model: its `ICON_THEMES` and the C++ upgrade modes are parameters.
- Timers and the event loop are not modelled. Each reading of the clock is an input (`now`; a refresh, which reads it once to record activity and once to stamp the state, takes `touchTime` and `checkTime`), and "quit" is a returned flag.
- Widgets and layout are reduced to the state they hold: check marks, current items, look, messages and started programs. Not modelled: pixmap scaling, window icons, fonts, cursor scrolling, the About dialog, and the upgrade progress handlers `onUpgradeFinished`, `onUpgradeError`, `onUpgradeOutput` and `onUpgradeCancel`. Also not modelled: `closeEvent`, plus `openSettings` and `openHistory`, which only open a window.
- QSettings persistence and `sync` are not modelled. The store is a map restricted to the dialogs' keys, and a value read back from the Python INI file is text.
- `ensureNotRoot`, the `*_main.cpp` entry points and the Python `main()` functions are bootstrap code and are left out. An exception escaping the Python tray's `__init__` ends the program; the model only says that nothing was shown.
- The Python view-and-upgrade window is a GUI wrapper around one `pkexec` call, so it is left out.
- JSON floats are not modelled: every number in the state document is an integer. Python's float time stamps are modelled as integers.
- Text.Lower: lower-cases ASCII letters only, because every text that is compared after lower-casing is ASCII.
- Common.Capitalised: upper-cases an ASCII first letter only, where `QString::toUpper` also maps other Unicode letters; executable names are ASCII.
- PyCommon.IconPath: the root is joined as `pathlib` joins it (an empty root or `.` adds nothing and a trailing `/` is not doubled), but the theme and the name are appended as given; `pathlib`'s collapsing of empty, `.` or repeated-slash components inside them and of an absolute theme is not modelled.
- PyCommon.HelperPath: the root is joined as `pathlib` joins it, and the name is appended as given, with the same limits as PyCommon.IconPath.
- PySystray.IntText: does not accept underscores between digits or non-ASCII digits, which `int()` would; no value the monitor writes contains either.
- PySystray.Format: Python's `repr` of lists and dicts is a parameter, not a definition.
- PySystray.BinPath: does not model `pathlib`'s normalisation of repeated slashes and of `.` components inside MX_ARCH_UPDATER_PATH; only an empty value, `.` and a trailing slash are handled (PyCommon.PathJoin).
- ViewAndUpgrade.ShellQuoteRoundTrip: the lexer `Lex` reads blanks, single quotes, backslash escapes and a `;` that ends the command. Any other character that section 2.2 of the POSIX Shell Command Language says must be quoted, such as a double quote, `$` or `|`, makes it give no reading. Characters that are special only in some positions (`#`, `~`, `*`) are read as plain characters.

## Findings

| source | as written | input that shows it | evidently intended | confidence | as-written member | corrected member |
|---|---|---|---|---|---|---|
| libexec/mx-arch-updater/updater_system_monitor.py:37 | the update pattern is a raw string with doubled backslashes, so `\\S` and `\\s` stand for a literal backslash followed by the letter, and the pattern never matches a line that does not begin with a backslash | the line `name 1.0 -> 2.0` matches nothing and is parsed with name `name` and empty old and new versions | single backslashes, so the captures hold the package name and both versions | not executed | PySystemMonitor.ParseLineAsWritten | PySystemMonitor.ParseLine |

`PySystemMonitor.VersionsLost` and `PySystemMonitor.PacmanLineLosesVersions` exhibit the loss of both versions on every ordinary `pacman -Qu` line. `PySystemMonitor.NamesAgree` shows that the package names are the same either way. The monitor's pipeline (`ParseUpdateLines`, `BuildState`, `BuildSpec`) follows the code as written, through `ParseLineAsWritten` and `UpdateNames`; `PySystemMonitor.UpdateNamesPlain` proves that on lines that do not begin with a backslash those names are the first words, the names the corrected `ParseLine` gives, so the counts do not depend on the bug there. `PySystemMonitor.ParseLine` is the evidently intended parse, with its properties proved.
