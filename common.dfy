/**
 * src/common.cpp: the persisted state document, the data-root lookup, icon
 * paths and desktop-file names.  The file system is a map from path to
 * contents; which paths exist as directories, which files cannot be opened and
 * what the environment holds are inputs.
 */
module Common {
  import opened Wrappers
  import opened Text
  import opened Json

  const DEFAULT_CHECK_INTERVAL: int := 60 * 30
  const DEFAULT_IDLE_TIMEOUT: int := 4 * 60
  const ICON_THEMES: seq<String> := ["wireframe-dark", "wireframe-light", "classic", "pulse"]
  const STATE_FILE_PATH: String := "/var/lib/mx-arch-updater/state.json"
  const DEFAULT_DATA_ROOT_PATH: String := "/usr/share/mx-arch-updater"

  // ---------------------------------------------------------------- state document

  /** The counts object of a fresh state. */
  function DefaultCounts(): (c: Object)
    ensures c.Keys == {"upgrade", "remove", "held"}
    ensures forall k :: k in c ==> c[k] == JNum(0)
  {
    map["upgrade" := JNum(0), "remove" := JNum(0), "held" := JNum(0)]
  }

  /** The state before any check: nothing counted, nothing listed, status "idle". */
  function DefaultState(): (s: Object)
    ensures s.Keys == {"checked_at", "counts", "packages", "errors", "status"}
    ensures s["checked_at"] == JNum(0) && s["status"] == JStr("idle")
    ensures s["counts"] == JObj(DefaultCounts())
    ensures s["packages"] == JArr([]) && s["errors"] == JArr([])
  {
    map["checked_at" := JNum(0), "counts" := JObj(DefaultCounts()),
        "packages" := JArr([]), "errors" := JArr([]), "status" := JStr("idle")]
  }

  /** Hex SHA-256 of the compact serialisation of the state. */
  function StateChecksum(c: Codec, state: Object): String {
    c.sha256Hex(c.compact(JObj(state)))
  }

  /** The payload writeState stores: the state beside its checksum. */
  function Envelope(c: Codec, state: Object): (p: Object)
    ensures p.Keys == {"state", "checksum"}
    ensures p["state"] == JObj(state) && p["checksum"] == JStr(StateChecksum(c, state))
  {
    map["state" := JObj(state), "checksum" := JStr(StateChecksum(c, state))]
  }

  /** The file text writeState produces: the payload, indented. */
  function EncodeDocument(c: Codec, state: Object): String {
    c.indented(JObj(Envelope(c, state)))
  }

  /** QJsonDocument::object(): the top-level object, or empty when the document is an array. */
  function DocObject(j: Json): (o: Object)
    ensures j.JObj? ==> o == j.fields
    ensures !j.JObj? ==> o == map[]
  {
    if j.JObj? then j.fields else map[]
  }

  /** Why readState fell back to the default, or that it did not. */
  datatype ReadOutcome = Missing | Unreadable | Unparsable | EmptyState | BadChecksum | Stored

  /** The step of readState's ladder that decides the result. */
  function ReadStep(c: Codec, files: map<String, String>, unreadable: set<String>,
                    path: String, requireChecksum: bool): ReadOutcome
  {
    if path !in files then Missing
    else if path in unreadable then Unreadable
    else match c.parse(files[path])
      case None => Unparsable
      case Some(doc) =>
        var payload := DocObject(doc);
        var state := ToObject(Get(payload, "state"));
        if |state| == 0 then EmptyState
        else if requireChecksum && ToStr(Get(payload, "checksum")) != StateChecksum(c, state) then BadChecksum
        else Stored
  }

  /** readState: the stored state, or the default state at every failing step. */
  function ReadState(c: Codec, files: map<String, String>, unreadable: set<String>,
                     path: String, requireChecksum: bool): (s: Object)
    ensures ReadStep(c, files, unreadable, path, requireChecksum) != Stored ==> s == DefaultState()
    ensures ReadStep(c, files, unreadable, path, requireChecksum) == Stored ==>
      exists doc :: c.parse(files[path]) == Some(doc) &&
        s == ToObject(Get(DocObject(doc), "state")) && |s| > 0
  {
    if ReadStep(c, files, unreadable, path, requireChecksum) != Stored then DefaultState()
    else
      var doc := c.parse(files[path]).value;
      ToObject(Get(DocObject(doc), "state"))
  }

  /** A stored state comes back only when its checksum matches or none is required. */
  lemma ReadStateChecksumGuard(c: Codec, files: map<String, String>, unreadable: set<String>,
                               path: String, doc: Json)
    requires path in files && path !in unreadable && c.parse(files[path]) == Some(doc)
    requires |ToObject(Get(DocObject(doc), "state"))| > 0
    ensures var state := ToObject(Get(DocObject(doc), "state"));
      ReadState(c, files, unreadable, path, false) == state &&
      (ReadState(c, files, unreadable, path, true) == state <==>
        ToStr(Get(DocObject(doc), "checksum")) == StateChecksum(c, state) || state == DefaultState())
  {
  }

  /** The parent directory of a path (QFileInfo::absolutePath for an absolute path). */
  function ParentDir(path: String): (r: String)
    ensures r != []
  {
    if '/' !in path then "."
    else
      var parent := Join(Split(path, '/')[..|Split(path, '/')| - 1], "/");
      if parent == [] then "/" else parent
  }

  /** The files and directories writeState sees. */
  class FileSystem {
    var files: map<String, String>
    var dirs: set<String>

    constructor (files0: map<String, String>, dirs0: set<String>)
      ensures files == files0 && dirs == dirs0
    {
      files := files0;
      dirs := dirs0;
    }

    /**
     * writeState: makes sure the parent directory exists, then, when the file
     * can be opened for writing, replaces its contents by the indented
     * envelope; a failed open writes nothing.
     */
    method WriteState(c: Codec, state: Object, path: String, canOpen: bool)
      modifies this
      ensures dirs == old(dirs) + {ParentDir(path)}
      ensures canOpen ==> files == old(files)[path := EncodeDocument(c, state)]
      ensures !canOpen ==> files == old(files)
    {
      if ParentDir(path) !in dirs {
        dirs := dirs + {ParentDir(path)};
      }
      var payload := Envelope(c, state);
      if canOpen {
        files := files[path := c.indented(JObj(payload))];
      }
    }
  }

  /** Writing a non-empty state and reading it back gives the state, checksum or not. */
  lemma WriteReadRoundTrip(c: Codec, files: map<String, String>, unreadable: set<String>,
                           path: String, state: Object, requireChecksum: bool)
    requires c.Sound() && |state| > 0 && path !in unreadable
    ensures ReadState(c, files[path := EncodeDocument(c, state)], unreadable, path, requireChecksum) == state
  {
    var files' := files[path := EncodeDocument(c, state)];
    assert c.parse(files'[path]) == Some(JObj(Envelope(c, state)));
    assert ReadStep(c, files', unreadable, path, requireChecksum) == Stored;
  }

  /** A written empty state reads back as the default state. */
  lemma WriteReadEmpty(c: Codec, files: map<String, String>, unreadable: set<String>,
                       path: String, requireChecksum: bool)
    requires c.Sound()
    ensures ReadState(c, files[path := EncodeDocument(c, map[])], unreadable, path, requireChecksum) == DefaultState()
  {
    var files' := files[path := EncodeDocument(c, map[])];
    assert path !in unreadable ==> c.parse(files'[path]) == Some(JObj(Envelope(c, map[])));
  }

  // ---------------------------------------------------------------- data root

  /**
   * envRoot: a non-empty override from the environment, then the source tree
   * when the program runs from a directory named "build" whose parent has
   * "icons", then the installed data root, else "".
   */
  function EnvRoot(envValue: String, appDirName: String, appDirParent: String,
                   dirExists: String -> bool): (root: String)
    ensures envValue != "" ==> root == envValue
    ensures envValue == "" && appDirName == "build" && dirExists(appDirParent + "/icons") ==> root == appDirParent
    ensures envValue == "" && !(appDirName == "build" && dirExists(appDirParent + "/icons")) ==>
      root == (if dirExists(DEFAULT_DATA_ROOT_PATH) then DEFAULT_DATA_ROOT_PATH else "")
  {
    if envValue != "" then envValue
    else if appDirName == "build" && dirExists(appDirParent + "/icons") then appDirParent
    else if dirExists(DEFAULT_DATA_ROOT_PATH) then DEFAULT_DATA_ROOT_PATH
    else ""
  }

  // ---------------------------------------------------------------- icon themes

  /** isKnownIconTheme: whether `theme` is one of `themes`. */
  method IsKnownIconTheme(theme: String, themes: seq<String>) returns (known: bool)
    ensures known <==> theme in themes
  {
    for i := 0 to |themes|
      invariant theme !in themes[..i]
    {
      if themes[i] == theme {
        return true;
      }
    }
    return false;
  }

  /** The themes other than `theme`, in list order. */
  function OtherThemes(theme: String, themes: seq<String>): (os: seq<String>)
    ensures forall t :: t in os <==> t in themes && t != theme
    decreases |themes|
  {
    if themes == [] then []
    else
      var last := themes[|themes| - 1];
      assert themes == themes[..|themes| - 1] + [last];
      OtherThemes(theme, themes[..|themes| - 1]) + (if last != theme then [last] else [])
  }

  /** The requested theme first, then every other theme in list order. */
  function ThemeCandidates(theme: String, themes: seq<String>): (cs: seq<String>)
    ensures |cs| >= 1 && cs[0] == theme
    ensures forall t :: t in cs[1..] <==> t in themes && t != theme
  {
    [theme] + OtherThemes(theme, themes)
  }

  function ThemeIconPath(root: String, theme: String, name: String): String {
    root + "/icons/" + theme + "/" + name
  }

  /** Index of the first candidate whose icon exists, or |cs|. */
  function FirstExisting(root: String, cs: seq<String>, name: String, exists_: String -> bool): (i: nat)
    ensures i <= |cs|
    ensures i < |cs| ==> exists_(ThemeIconPath(root, cs[i], name))
    ensures forall j :: 0 <= j < i ==> !exists_(ThemeIconPath(root, cs[j], name))
    decreases |cs|
  {
    if cs == [] then 0
    else if exists_(ThemeIconPath(root, cs[0], name)) then 0
    else 1 + FirstExisting(root, cs[1..], name, exists_)
  }

  /** What iconPath returns. */
  function IconPathSpec(root: String, theme: String, name: String, themes: seq<String>,
                        exists_: String -> bool): String
  {
    var cs := ThemeCandidates(theme, themes);
    var i := FirstExisting(root, cs, name, exists_);
    if i < |cs| then ThemeIconPath(root, cs[i], name) else ThemeIconPath(root, theme, name)
  }

  /**
   * iconPath: builds the candidate list, then returns the first candidate's
   * path that exists, or the requested theme's path when none does.
   */
  method IconPath(root: String, theme: String, name: String, themes: seq<String>,
                  exists_: String -> bool) returns (path: String)
    ensures path == IconPathSpec(root, theme, name, themes, exists_)
  {
    var candidates := [theme];
    for i := 0 to |themes|
      invariant candidates == [theme] + OtherThemes(theme, themes[..i])
    {
      assert themes[..i + 1][..i] == themes[..i];
      if themes[i] != theme {
        candidates := candidates + [themes[i]];
      }
    }
    assert themes[..|themes|] == themes;
    for k := 0 to |candidates|
      invariant forall j :: 0 <= j < k ==> !exists_(ThemeIconPath(root, candidates[j], name))
    {
      var candidatePath := root + "/icons/" + candidates[k] + "/" + name;
      if exists_(candidatePath) {
        FirstExistingIs(root, candidates, name, exists_, k);
        return candidatePath;
      }
    }
    FirstExistingIs(root, candidates, name, exists_, |candidates|);
    return root + "/icons/" + theme + "/" + name;
  }

  lemma FirstExistingIs(root: String, cs: seq<String>, name: String, exists_: String -> bool, k: nat)
    requires k <= |cs|
    requires k < |cs| ==> exists_(ThemeIconPath(root, cs[k], name))
    requires forall j :: 0 <= j < k ==> !exists_(ThemeIconPath(root, cs[j], name))
    ensures FirstExisting(root, cs, name, exists_) == k
    decreases k
  {
    if k > 0 {
      FirstExistingIs(root, cs[1..], name, exists_, k - 1);
    }
  }

  /** The result of iconPath is an existing candidate's path, preferring the requested theme, or the requested path. */
  lemma IconPathChoice(root: String, theme: String, name: String, themes: seq<String>, exists_: String -> bool)
    ensures var p := IconPathSpec(root, theme, name, themes, exists_);
      (exists_(ThemeIconPath(root, theme, name)) ==> p == ThemeIconPath(root, theme, name)) &&
      (exists t :: (t == theme || t in themes) && p == ThemeIconPath(root, t, name)) &&
      ((forall t :: t in themes ==> !exists_(ThemeIconPath(root, t, name))) ==> p == ThemeIconPath(root, theme, name))
  {
    var cs := ThemeCandidates(theme, themes);
    var i := FirstExisting(root, cs, name, exists_);
    if i < |cs| {
      assert cs[i] == theme || cs[i] in themes by {
        if i > 0 { assert cs[i] in cs[1..]; }
      }
      if i > 0 {
        assert cs[i] in cs[1..];
      }
    }
  }

  // ---------------------------------------------------------------- desktop files

  /** QFileInfo::fileName: the part after the last '/'. */
  function FileName(path: String): (r: String)
    ensures '/' !in r
  {
    Last(Split(path, '/'))
  }

  /** QFileInfo::baseName: the file name up to its first '.'. */
  function BaseName(path: String): (r: String)
    ensures '.' !in r && '/' !in r
  {
    Before(FileName(path), '.')
  }

  /** The executable an `Exec=` line names: its first space-separated part, reduced to its base name. */
  function ExecName(line: String): String
    requires |line| >= 5
  {
    BaseName(Before(Trim(QtSpace, line[5..]), ' '))
  }

  /** The Exec test: the named executable, or the same with ".bin" appended. */
  predicate ExecMatches(execName: String, executable: String) {
    execName == executable || execName == executable + ".bin"
  }

  predicate IsExecFor(line: String, executable: String) {
    "Exec=" <= line && ExecMatches(ExecName(line), executable)
  }

  /** The `.bin` alternative of the Exec test never holds: a base name has no '.'. */
  lemma BinAlternativeDead(line: String, executable: String)
    requires "Exec=" <= line
    ensures IsExecFor(line, executable) <==> ExecName(line) == executable
  {
    var b := executable + ".bin";
    assert b[|executable|] == '.';
    assert ExecName(line) != b;
  }

  /** The value of the first `Name=` line. */
  function FirstName(lines: seq<String>): Option<String> {
    if lines == [] then None
    else if "Name=" <= lines[0] then Some(Trim(QtSpace, lines[0][5..]))
    else FirstName(lines[1..])
  }

  predicate HasExecFor(lines: seq<String>, executable: String) {
    exists i :: 0 <= i < |lines| && IsExecFor(lines[i], executable)
  }

  function TrimmedLines(text: String): (ls: seq<String>)
    ensures |ls| == |Lines(QtReadLine, text)|
    ensures forall i :: 0 <= i < |ls| ==> ls[i] == Trim(QtSpace, Lines(QtReadLine, text)[i])
  {
    var raw := Lines(QtReadLine, text);
    seq(|raw|, i requires 0 <= i < |raw| => Trim(QtSpace, raw[i]))
  }

  /** What one desktop file contributes: the Name= of a file with a matching Exec= line. */
  function DesktopFileName(text: String, executable: String): Option<String> {
    LinesName(TrimmedLines(text), executable)
  }

  function LinesName(lines: seq<String>, executable: String): Option<String> {
    if HasExecFor(lines, executable) then FirstName(lines) else None
  }

  /** The search directories with "~" replaced by the home directory. */
  function SearchDirs(home: String): seq<String> {
    ["/usr/share/applications", "/usr/local/share/applications", home + "/.local/share/applications"]
  }

  /** The executable with its first character upper-cased. */
  function Capitalised(executable: String): (r: String)
    ensures |r| == |executable|
    ensures executable != [] ==> r[0] == UpperChar(executable[0]) && r[1..] == executable[1..]
  {
    if executable == [] then [] else [UpperChar(executable[0])] + executable[1..]
  }

  /** The desktop files to visit: every file of every existing search directory, in order. */
  function DesktopPaths(dirs: seq<String>, dirExists: String -> bool,
                        listing: String -> seq<String>): seq<String>
  {
    if dirs == [] then []
    else (if dirExists(dirs[0]) then Paths(dirs[0], listing(dirs[0])) else []) +
         DesktopPaths(dirs[1..], dirExists, listing)
  }

  function Paths(dir: String, names: seq<String>): (ps: seq<String>)
    ensures |ps| == |names|
    ensures forall i :: 0 <= i < |names| ==> ps[i] == dir + "/" + names[i]
  {
    seq(|names|, i requires 0 <= i < |names| => dir + "/" + names[i])
  }

  /** The first desktop file that names the executable, in visiting order. */
  function FirstDesktopName(paths: seq<String>, contents: String -> Option<String>,
                            executable: String): Option<String>
  {
    if paths == [] then None
    else
      var here := if contents(paths[0]).Some? then DesktopFileName(contents(paths[0]).value, executable) else None;
      if here.Some? then here else FirstDesktopName(paths[1..], contents, executable)
  }

  /** What getDesktopFileName returns. */
  function DesktopName(home: String, dirExists: String -> bool, listing: String -> seq<String>,
                       contents: String -> Option<String>, executable: String): String
  {
    var found := FirstDesktopName(DesktopPaths(SearchDirs(home), dirExists, listing), contents, executable);
    if found.Some? then found.value else Capitalised(executable)
  }

  /**
   * getDesktopFileName: scans the trimmed lines of every `*.desktop` file
   * (`listing` gives a directory's desktop files, `contents` a file's text or
   * None when it cannot be opened); at the first `Exec=` line naming the
   * executable it rescans the file from the top for `Name=`.
   */
  method GetDesktopFileName(home: String, dirExists: String -> bool, listing: String -> seq<String>,
                            contents: String -> Option<String>, executable: String)
    returns (name: String)
    ensures name == DesktopName(home, dirExists, listing, contents, executable)
  {
    var found := SearchDesktopFiles(SearchDirs(home), dirExists, listing, contents, executable);
    if found.Some? {
      return found.value;
    }
    var fallback := executable;
    if fallback != [] {
      fallback := [UpperChar(fallback[0])] + fallback[1..];
    }
    return fallback;
  }

  /** The loops over the search directories and their desktop files, stopping at the first name found. */
  method SearchDesktopFiles(searchPaths: seq<String>, dirExists: String -> bool, listing: String -> seq<String>,
                            contents: String -> Option<String>, executable: String)
    returns (found: Option<String>)
    ensures found == FirstDesktopName(DesktopPaths(searchPaths, dirExists, listing), contents, executable)
  {
    ghost var visited: seq<String> := [];
    for d := 0 to |searchPaths|
      invariant visited == DesktopPaths(searchPaths[..d], dirExists, listing)
      invariant FirstDesktopName(visited, contents, executable) == None
    {
      DesktopPathsSnoc(searchPaths, d, dirExists, listing);
      var dir := searchPaths[d];
      if !dirExists(dir) {
        continue;
      }
      var desktopFiles := listing(dir);
      assert visited + Paths(dir, desktopFiles[..0]) == visited;
      for f := 0 to |desktopFiles|
        invariant FirstDesktopName(visited + Paths(dir, desktopFiles[..f]), contents, executable) == None
      {
        var path := dir + "/" + desktopFiles[f];
        PathsSnoc(visited, dir, desktopFiles, f);
        var text := contents(path);
        if text.None? {
          FirstDesktopNameAppend(visited + Paths(dir, desktopFiles[..f]), [path], contents, executable);
          continue;
        }
        var name := ScanDesktopFile(TrimmedLines(text.value), executable);
        FirstDesktopNameAppend(visited + Paths(dir, desktopFiles[..f]), [path], contents, executable);
        if name.Some? {
          FirstDesktopNameAppend(visited + Paths(dir, desktopFiles[..f + 1]),
                                 Paths(dir, desktopFiles[f + 1..]) + DesktopPaths(searchPaths[d + 1..], dirExists, listing),
                                 contents, executable);
          DesktopPathsSplit(searchPaths, d, dirExists, listing, f);
          return name;
        }
      }
      assert desktopFiles[..|desktopFiles|] == desktopFiles;
      visited := visited + Paths(dir, desktopFiles);
    }
    assert searchPaths[..|searchPaths|] == searchPaths;
    return None;
  }

  /** One more desktop file visited. */
  lemma PathsSnoc(visited: seq<String>, dir: String, names: seq<String>, f: nat)
    requires f < |names|
    ensures visited + Paths(dir, names[..f + 1]) == (visited + Paths(dir, names[..f])) + [dir + "/" + names[f]]
  {
    assert Paths(dir, names[..f + 1]) == Paths(dir, names[..f]) + [dir + "/" + names[f]];
  }

  /** One desktop file: the inner loops over its trimmed lines. */
  method ScanDesktopFile(lines: seq<String>, executable: String) returns (name: Option<String>)
    ensures name == LinesName(lines, executable)
  {
    var i := 0;
    while i < |lines|
      invariant 0 <= i <= |lines|
      invariant forall j :: 0 <= j < i ==> !IsExecFor(lines[j], executable)
    {
      var line := lines[i];
      i := i + 1;
      if "Exec=" <= line {
        var execName := ExecName(line);
        if ExecMatches(execName, executable) {
          assert IsExecFor(lines[i - 1], executable);
          name := FindNameLine(lines);
          return;
        }
      }
    }
    return None;
  }

  /** The rescan from the top of the file for the first `Name=` line. */
  method FindNameLine(lines: seq<String>) returns (name: Option<String>)
    ensures name == FirstName(lines)
  {
    var k := 0;
    while k < |lines|
      invariant 0 <= k <= |lines|
      invariant FirstName(lines) == FirstName(lines[k..])
    {
      if "Name=" <= lines[k] {
        return Some(Trim(QtSpace, lines[k][5..]));
      }
      k := k + 1;
    }
    return None;
  }

  lemma {:induction false} FirstDesktopNameAppend(ps: seq<String>, qs: seq<String>,
                                                  contents: String -> Option<String>, executable: String)
    ensures FirstDesktopName(ps + qs, contents, executable) ==
      if FirstDesktopName(ps, contents, executable).Some? then FirstDesktopName(ps, contents, executable)
      else FirstDesktopName(qs, contents, executable)
    decreases |ps|
  {
    if ps == [] {
      assert ps + qs == qs;
    } else {
      assert (ps + qs)[0] == ps[0] && (ps + qs)[1..] == ps[1..] + qs;
      FirstDesktopNameAppend(ps[1..], qs, contents, executable);
    }
  }

  lemma {:induction false} DesktopPathsAppend(a: seq<String>, b: seq<String>, dirExists: String -> bool,
                                              listing: String -> seq<String>)
    ensures DesktopPaths(a + b, dirExists, listing) == DesktopPaths(a, dirExists, listing) + DesktopPaths(b, dirExists, listing)
    decreases |a|
  {
    if a == [] {
      assert a + b == b;
    } else {
      var h := if dirExists(a[0]) then Paths(a[0], listing(a[0])) else [];
      assert (a + b)[0] == a[0] && (a + b)[1..] == a[1..] + b;
      assert DesktopPaths(a + b, dirExists, listing) == h + DesktopPaths(a[1..] + b, dirExists, listing);
      DesktopPathsAppend(a[1..], b, dirExists, listing);
      Regroup([], h, DesktopPaths(a[1..], dirExists, listing), DesktopPaths(b, dirExists, listing));
    }
  }

  lemma DesktopPathsSnoc(dirs: seq<String>, d: nat, dirExists: String -> bool, listing: String -> seq<String>)
    requires d < |dirs|
    ensures DesktopPaths(dirs[..d + 1], dirExists, listing) ==
      DesktopPaths(dirs[..d], dirExists, listing) + (if dirExists(dirs[d]) then Paths(dirs[d], listing(dirs[d])) else [])
  {
    assert dirs[..d + 1] == dirs[..d] + [dirs[d]];
    DesktopPathsAppend(dirs[..d], [dirs[d]], dirExists, listing);
  }

  lemma DesktopPathsSplit(dirs: seq<String>, d: nat, dirExists: String -> bool, listing: String -> seq<String>,
                          f: nat)
    requires d < |dirs| && dirExists(dirs[d]) && f < |listing(dirs[d])|
    ensures DesktopPaths(dirs, dirExists, listing) ==
      DesktopPaths(dirs[..d], dirExists, listing) + Paths(dirs[d], listing(dirs[d])[..f + 1]) +
      (Paths(dirs[d], listing(dirs[d])[f + 1..]) + DesktopPaths(dirs[d + 1..], dirExists, listing))
  {
    assert dirs == dirs[..d + 1] + dirs[d + 1..];
    DesktopPathsAppend(dirs[..d + 1], dirs[d + 1..], dirExists, listing);
    DesktopPathsSnoc(dirs, d, dirExists, listing);
    var names := listing(dirs[d]);
    PathsSplit(dirs[d], names, f + 1);
    Regroup(DesktopPaths(dirs[..d], dirExists, listing), Paths(dirs[d], names[..f + 1]),
            Paths(dirs[d], names[f + 1..]), DesktopPaths(dirs[d + 1..], dirExists, listing));
  }

  lemma PathsSplit(dir: String, names: seq<String>, j: nat)
    requires j <= |names|
    ensures Paths(dir, names) == Paths(dir, names[..j]) + Paths(dir, names[j..])
  {
    var a := Paths(dir, names[..j]);
    var b := Paths(dir, names[j..]);
    forall i | 0 <= i < |names|
      ensures Paths(dir, names)[i] == (a + b)[i]
    {
      if i < j { assert names[..j][i] == names[i]; } else { assert names[j..][i - j] == names[i]; }
    }
  }

  lemma Regroup(a: seq<String>, b: seq<String>, c: seq<String>, e: seq<String>)
    ensures a + (b + c) + e == a + b + (c + e)
  {
  }

  /** With no desktop file naming the executable, the result is the executable capitalised. */
  lemma DesktopNameFallback(home: String, dirExists: String -> bool, listing: String -> seq<String>,
                            contents: String -> Option<String>, executable: String)
    requires forall p :: contents(p).Some? ==> !HasExecFor(TrimmedLines(contents(p).value), executable)
    ensures DesktopName(home, dirExists, listing, contents, executable) == Capitalised(executable)
  {
    NoneFound(DesktopPaths(SearchDirs(home), dirExists, listing), contents, executable);
  }

  lemma {:induction false} NoneFound(ps: seq<String>, contents: String -> Option<String>, executable: String)
    requires forall p :: contents(p).Some? ==> !HasExecFor(TrimmedLines(contents(p).value), executable)
    ensures FirstDesktopName(ps, contents, executable) == None
    decreases |ps|
  {
    if ps != [] {
      NoneFound(ps[1..], contents, executable);
    }
  }
}
