/**
 * libexec/mx-arch-updater/common.py: the Python tree's state document and
 * paths.  It shares the file-system and JSON model with the C++ tree, but its
 * reader differs: an empty stored state is accepted, a missing checksum only
 * matters when one is required, and a few malformed inputs raise instead of
 * falling back.
 */
module PyCommon {
  import opened Wrappers
  import opened Text
  import opened Json
  import Common

  const DEFAULT_CHECK_INTERVAL: int := 60 * 30
  const DEFAULT_IDLE_TIMEOUT: int := 4 * 60
  const ICON_THEMES: seq<String> := ["wireframe-dark", "wireframe-light", "classic", "pulse"]
  const UPGRADE_MODES: seq<String> := ["basic", "full"]
  const DEFAULT_DATA_ROOT: String := "/usr/share/mx-arch-updater"
  const DEFAULT_HELPER_ROOT: String := "/usr/lib/mx-arch-updater"
  const STATE_FILE: String := "/var/lib/mx-arch-updater/state.json"

  /** default_state: like the C++ default, with a "new" count as well. */
  function DefaultState(): (s: Object)
    ensures s.Keys == {"checked_at", "counts", "packages", "errors", "status"}
    ensures s["checked_at"] == JNum(0) && s["status"] == JStr("idle")
    ensures s["counts"].JObj? && s["counts"].fields.Keys == {"upgrade", "new", "remove", "held"}
    ensures forall k :: k in s["counts"].fields ==> s["counts"].fields[k] == JNum(0)
    ensures s["packages"] == JArr([]) && s["errors"] == JArr([])
  {
    map["checked_at" := JNum(0),
        "counts" := JObj(map["upgrade" := JNum(0), "new" := JNum(0), "remove" := JNum(0), "held" := JNum(0)]),
        "packages" := JArr([]), "errors" := JArr([]), "status" := JStr("idle")]
  }

  /*
   * _state_checksum and the envelope write_state stores are those of the C++
   * side (Common.StateChecksum, Common.Envelope, Common.EncodeDocument): the
   * state is a map, so the key-sorted dump is a function of its members alone,
   * and the codec passed in stands for json.dumps.
   */

  /**
   * read_state.  A missing file, undecodable JSON, a `state` member that is not
   * an object, or (when required) a checksum member other than the state's
   * checksum give the default; a file that cannot be read raises, and so does a
   * document that is not an object, whose `.get` does not exist.
   */
  function ReadState(c: Codec, files: map<String, String>, unreadable: set<String>,
                     path: String, requireChecksum: bool): (r: Py<Object>)
    ensures path !in files ==> r == Returned(DefaultState())
    ensures path in files && path in unreadable ==> r == Raised(ReadError)
    ensures path in files && path !in unreadable && c.parse(files[path]).None? ==> r == Returned(DefaultState())
    ensures path in files && path !in unreadable && c.parse(files[path]).Some? && !c.parse(files[path]).value.JObj? ==>
      r == Raised(AttributeError)
    ensures r.Returned? && r.value != DefaultState() ==>
      path in files && c.parse(files[path]).Some? && c.parse(files[path]).value.JObj? &&
      Get(c.parse(files[path]).value.fields, "state") == Some(JObj(r.value)) &&
      (requireChecksum ==> Get(c.parse(files[path]).value.fields, "checksum") == Some(JStr(Common.StateChecksum(c, r.value))))
  {
    if path !in files then Returned(DefaultState())
    else if path in unreadable then Raised(ReadError)
    else match c.parse(files[path])
      case None => Returned(DefaultState())
      case Some(payload) =>
        if !payload.JObj? then Raised(AttributeError)
        else
          var state := Get(payload.fields, "state");
          var checksum := Get(payload.fields, "checksum");
          if !(state.Some? && state.value.JObj?) then Returned(DefaultState())
          else if requireChecksum && checksum != Some(JStr(Common.StateChecksum(c, state.value.fields))) then Returned(DefaultState())
          else Returned(state.value.fields)
  }

  /** Without a required checksum a stored object state comes back whatever its checksum member says. */
  lemma ReadStateIgnoresChecksum(c: Codec, files: map<String, String>, unreadable: set<String>,
                                 path: String, state: Object)
    requires path in files && path !in unreadable
    requires c.parse(files[path]).Some? && c.parse(files[path]).value.JObj?
    requires Get(c.parse(files[path]).value.fields, "state") == Some(JObj(state))
    ensures ReadState(c, files, unreadable, path, false) == Returned(state)
  {
  }

  /**
   * write_state: creates the parent directories, then writes the indented
   * envelope; either step can fail with an OSError, which propagates.
   */
  method WriteState(fs: Common.FileSystem, c: Codec, state: Object, path: String,
                    mkdirOk: bool, writeOk: bool) returns (r: Py<()>)
    modifies fs
    ensures r == (if mkdirOk && writeOk then Returned(()) else Raised(WriteError))
    ensures fs.dirs == if mkdirOk then old(fs.dirs) + {Common.ParentDir(path)} else old(fs.dirs)
    ensures fs.files == if mkdirOk && writeOk then old(fs.files)[path := Common.EncodeDocument(c, state)] else old(fs.files)
  {
    if !mkdirOk {
      return Raised(WriteError);
    }
    fs.dirs := fs.dirs + {Common.ParentDir(path)};
    var payload := Common.Envelope(c, state);
    if !writeOk {
      return Raised(WriteError);
    }
    fs.files := fs.files[path := c.indented(JObj(payload))];
    return Returned(());
  }

  /** Reading back a written state gives it back, the empty state included. */
  lemma WriteReadRoundTrip(c: Codec, files: map<String, String>, unreadable: set<String>,
                           path: String, state: Object, requireChecksum: bool)
    requires c.Sound() && path !in unreadable
    ensures ReadState(c, files[path := Common.EncodeDocument(c, state)], unreadable, path, requireChecksum) == Returned(state)
  {
    var files' := files[path := Common.EncodeDocument(c, state)];
    assert c.parse(files'[path]) == Some(JObj(Common.Envelope(c, state)));
  }

  /**
   * The two readers part ways on an empty state: the Python reader returns it,
   * the C++ reader replaces it by its default.
   */
  lemma EmptyStateReaders(c: Codec, files: map<String, String>, unreadable: set<String>, path: String)
    requires c.Sound() && path !in unreadable
    ensures ReadState(c, files[path := Common.EncodeDocument(c, map[])], unreadable, path, true) == Returned(map[])
    ensures Common.ReadState(c, files[path := Common.EncodeDocument(c, map[])], unreadable, path, true) == Common.DefaultState()
  {
    WriteReadRoundTrip(c, files, unreadable, path, map[], true);
    Common.WriteReadEmpty(c, files, unreadable, path, true);
  }

  /** env_root: a non-empty override, else the installed data root if it exists, else SystemExit. */
  function EnvRoot(env: Option<String>, dirExists: String -> bool): (r: Py<String>)
    ensures env.Some? && env.value != "" ==> r == Returned(env.value)
    ensures !(env.Some? && env.value != "") && dirExists(DEFAULT_DATA_ROOT) ==> r == Returned(DEFAULT_DATA_ROOT)
    ensures !(env.Some? && env.value != "") && !dirExists(DEFAULT_DATA_ROOT) ==> r == Raised(SystemExit)
  {
    if env.Some? && env.value != "" then Returned(env.value)
    else if dirExists(DEFAULT_DATA_ROOT) then Returned(DEFAULT_DATA_ROOT)
    else Raised(SystemExit)
  }

  /**
   * pathlib's `/` on a relative part: an empty root or "." is the current
   * directory and adds nothing, and a root that already ends in '/' gets no
   * second separator.
   */
  function PathJoin(root: String, part: String): (p: String)
    ensures root == "" || root == "." ==> p == part
    ensures root != "" && root != "." ==>
      |p| > |part| && p[|p| - |part| - 1] == '/' && p[|p| - |part|..] == part &&
      root <= p && |p| - |part| - 1 <= |root| <= |p| - |part|
  {
    if root == "" || root == "." then part
    else if root[|root| - 1] == '/' then root + part
    else root + "/" + part
  }

  /** A trailing '/' on the root makes no difference to the joined path. */
  lemma PathJoinTrailingSlash(root: String, part: String)
    requires root != "" && root != "." && root[|root| - 1] != '/'
    ensures PathJoin(root + "/", part) == PathJoin(root, part)
  {
  }

  /** icon_path: root/icons/theme/name under the data root; no existence check, no fallback. */
  function IconPath(env: Option<String>, dirExists: String -> bool, theme: String, name: String): (r: Py<String>)
    ensures EnvRoot(env, dirExists).Raised? ==> r == EnvRoot(env, dirExists)
    ensures EnvRoot(env, dirExists).Returned? ==> r == Returned(PathJoin(EnvRoot(env, dirExists).value, "icons/" + theme + "/" + name))
  {
    match EnvRoot(env, dirExists)
    case Raised(e) => Raised(e)
    case Returned(root) => Returned(PathJoin(root, "icons/" + theme + "/" + name))
  }

  /** helper_path: the helper under the data root if it exists there, else under the default helper root. */
  function HelperPath(env: Option<String>, dirExists: String -> bool, fileExists: String -> bool,
                      name: String): (r: Py<String>)
    ensures EnvRoot(env, dirExists).Raised? ==> r == EnvRoot(env, dirExists)
    ensures EnvRoot(env, dirExists).Returned? ==>
      var candidate := PathJoin(EnvRoot(env, dirExists).value, "lib/mx-arch-updater/" + name);
      r == Returned(if fileExists(candidate) then candidate else DEFAULT_HELPER_ROOT + "/" + name)
  {
    match EnvRoot(env, dirExists)
    case Raised(e) => Raised(e)
    case Returned(root) =>
      var candidate := PathJoin(root, "lib/mx-arch-updater/" + name);
      if fileExists(candidate) then Returned(candidate) else Returned(DEFAULT_HELPER_ROOT + "/" + name)
  }
}
