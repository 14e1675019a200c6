/**
 * src/system_monitor.cpp: the root-side monitor.  It runs `pacman -Qu`, turns
 * the output into the state document, persists it and announces it; between
 * checks it quits after a period without callers.  Process runs are given as
 * their outcomes, and each reading of the clock is an input (`now`, or
 * `touchTime` and `checkTime` for the two readings of a refresh).
 */
module SystemMonitor {
  import opened Wrappers
  import opened Text
  import opened Json
  import opened Process
  import opened UpdateLine
  import Common

  // ---------------------------------------------------------------- update lines

  /** One parsed line of `pacman -Qu`. */
  datatype Update = Update(name: String, oldVersion: String, newVersion: String, raw: String)

  /** parseUpdateLines on one line: the captures when it matches, else the text before the first space. */
  function ParseLine(line: String): (u: Update)
    ensures u.raw == line
    ensures IsUpdateLine(RegexSpace, line) ==>
      var w := Words(RegexSpace, line);
      u.name == w[0] && u.oldVersion == w[1] && u.newVersion == w[3]
    ensures !IsUpdateLine(RegexSpace, line) ==>
      u.name == Before(line, ' ') && u.oldVersion == "" && u.newVersion == ""
  {
    MatchUpdateWords(RegexSpace, line);
    match MatchUpdate(RegexSpace, line)
    case Some((name, oldVersion, newVersion)) => Update(name, oldVersion, newVersion, line)
    case None => Update(Split(line, ' ')[0], "", "", line)
  }

  /** parseUpdateLines: one record per line, in order. */
  method ParseUpdateLines(lines: seq<String>) returns (updates: seq<Update>)
    ensures |updates| == |lines|
    ensures forall i :: 0 <= i < |lines| ==> updates[i] == ParseLine(lines[i])
  {
    updates := [];
    for i := 0 to |lines|
      invariant |updates| == i
      invariant forall j :: 0 <= j < i ==> updates[j] == ParseLine(lines[j])
    {
      updates := updates + [ParseLine(lines[i])];
    }
  }

  // ---------------------------------------------------------------- pacman output

  /** Each part trimmed. */
  function TrimAll(parts: seq<String>): (r: seq<String>)
    ensures |r| == |parts|
    ensures forall i :: 0 <= i < |parts| ==> r[i] == Trim(QtSpace, parts[i])
  {
    seq(|parts|, i requires 0 <= i < |parts| => Trim(QtSpace, parts[i]))
  }

  /** The lines runPacmanQuery returns. */
  function QueryLines(outcome: ProcessOutcome): (lines: seq<String>)
    ensures !(outcome.Finished? && (outcome.exitCode == 0 || outcome.exitCode == 1)) ==> lines == []
    ensures outcome.Finished? && (outcome.exitCode == 0 || outcome.exitCode == 1) ==>
      var parts := SplitSkipEmpty(outcome.stdout, '\n');
      |lines| == |parts| && forall i :: 0 <= i < |parts| ==> lines[i] == Trim(QtSpace, parts[i])
  {
    if outcome.Finished? && (outcome.exitCode == 0 || outcome.exitCode == 1)
    then TrimAll(SplitSkipEmpty(outcome.stdout, '\n'))
    else []
  }

  /** Every returned line is trimmed and holds no line break. */
  lemma QueryLinesTrimmed(outcome: ProcessOutcome)
    ensures forall l :: l in QueryLines(outcome) ==> Trim(QtSpace, l) == l && '\n' !in l
  {
    var lines := QueryLines(outcome);
    forall l | l in lines ensures Trim(QtSpace, l) == l && '\n' !in l {
      var i :| 0 <= i < |lines| && lines[i] == l;
      var parts := SplitSkipEmpty(outcome.stdout, '\n');
      assert parts[i] in Split(outcome.stdout, '\n');
      TrimIdempotent(QtSpace, parts[i]);
      if '\n' in l {
        TrimChars(QtSpace, parts[i], '\n');
      }
    }
  }

  /**
   * runPacmanQuery: nothing when pacman did not start, timed out or exited
   * with a code other than 0 or 1; otherwise the non-empty lines of its
   * output, trimmed.
   */
  method RunPacmanQuery(outcome: ProcessOutcome) returns (lines: seq<String>)
    ensures lines == QueryLines(outcome)
  {
    if !outcome.Finished? {
      return [];
    }
    var exitCode := outcome.exitCode;
    if exitCode != 0 && exitCode != 1 {
      return [];
    }
    lines := TrimLines(SplitSkipEmpty(outcome.stdout, '\n'));
  }

  /** The loop that trims each non-empty part of the output. */
  method TrimLines(parts: seq<String>) returns (lines: seq<String>)
    ensures lines == TrimAll(parts)
  {
    lines := [];
    for i := 0 to |parts|
      invariant lines == TrimAll(parts[..i])
    {
      lines := lines + [Trim(QtSpace, parts[i])];
    }
    assert parts[..|parts|] == parts;
  }

  /** The trimmed text after the first ':' of the first line that starts with `field` and holds a ':'. */
  function FieldIn(lines: seq<String>, field: String): String
    decreases |lines|
  {
    if lines == [] then ""
    else if FieldLine(lines[0], field) then AfterColon(lines[0])
    else FieldIn(lines[1..], field)
  }

  predicate FieldLine(line: String, field: String) {
    field <= Trim(QtSpace, line) && ':' in line
  }

  /** The trimmed text after the first ':'. */
  function AfterColon(line: String): String
    requires ':' in line
  {
    Trim(QtSpace, line[Find(line, ':') + 1..])
  }

  /** `FieldIn` picks the first qualifying line. */
  lemma {:induction false} FieldInFirst(lines: seq<String>, field: String, i: nat)
    requires i < |lines| && FieldLine(lines[i], field)
    requires forall j :: 0 <= j < i ==> !FieldLine(lines[j], field)
    ensures FieldIn(lines, field) == AfterColon(lines[i])
    decreases i
  {
    if i > 0 {
      FieldInFirst(lines[1..], field, i - 1);
    }
  }

  /** Without a qualifying line the value is empty. */
  lemma {:induction false} FieldInNone(lines: seq<String>, field: String)
    requires forall j :: 0 <= j < |lines| ==> !FieldLine(lines[j], field)
    ensures FieldIn(lines, field) == ""
    decreases |lines|
  {
    if lines != [] {
      FieldInNone(lines[1..], field);
    }
  }

  /** What pacmanFieldOutput returns. */
  function FieldValue(outcome: ProcessOutcome, field: String): String {
    if outcome.Finished? && outcome.exitCode == 0 then FieldIn(Split(outcome.stdout, '\n'), field) else ""
  }

  /**
   * pacmanFieldOutput: "" unless pacman finished with exit code 0; otherwise,
   * for the first line whose trimmed form starts with `field` and that splits
   * on ':' into two parts or more, the parts after the first joined with ':'
   * again, trimmed; lines without ':' are passed over.
   */
  method PacmanFieldOutput(outcome: ProcessOutcome, field: String) returns (value: String)
    ensures value == FieldValue(outcome, field)
  {
    if !outcome.Finished? || outcome.exitCode != 0 {
      return "";
    }
    value := FirstFieldLine(Split(outcome.stdout, '\n'), field);
  }

  /** The loop over the output lines, stopping at the first line that gives a value. */
  method FirstFieldLine(lines: seq<String>, field: String) returns (value: String)
    ensures value == FieldIn(lines, field)
  {
    for i := 0 to |lines|
      invariant FieldIn(lines[i..], field) == FieldIn(lines, field)
    {
      var line := lines[i];
      if field <= Trim(QtSpace, line) {
        var parts := Split(line, ':');
        if |parts| >= 2 {
          SplitTail(line, ':');
          return Trim(QtSpace, Join(parts[1..], ":"));
        }
      }
      assert lines[i..][1..] == lines[i + 1..];
    }
    return "";
  }

  /**
   * isUpdateAvailable: false when either version is empty or vercmp does not
   * finish; otherwise true iff vercmp exits 0 and prints "-1" (trimmed).
   */
  method IsUpdateAvailable(local: ProcessOutcome, sync: ProcessOutcome, vercmp: ProcessOutcome)
    returns (available: bool)
    ensures available <==>
      FieldValue(local, "Version") != "" && FieldValue(sync, "Version") != "" &&
      vercmp.Finished? && vercmp.exitCode == 0 && Trim(QtSpace, vercmp.stdout) == "-1"
  {
    var localVer := PacmanFieldOutput(local, "Version");
    var syncVer := PacmanFieldOutput(sync, "Version");
    if localVer == "" || syncVer == "" {
      return false;
    }
    if !vercmp.Finished? {
      return false;
    }
    var output := Trim(QtSpace, vercmp.stdout);
    return vercmp.exitCode == 0 && output == "-1";
  }

  /** Every comma removed from each item. */
  function RemoveCommas(items: seq<String>): (r: seq<String>)
    ensures |r| == |items|
    ensures forall i :: 0 <= i < |items| ==> r[i] == RemoveChar(items[i], ',')
  {
    seq(|items|, i requires 0 <= i < |items| => RemoveChar(items[i], ','))
  }

  /** The package names of a Replaces field. */
  function ReplacedNames(replacesField: String): (names: seq<String>)
    ensures replacesField == "" || Lower(replacesField) == "none" ==> names == []
    ensures forall n :: n in names ==> ',' !in n && ' ' !in n
    ensures replacesField != "" && Lower(replacesField) != "none" ==>
      var items := SplitSkipEmpty(replacesField, ' ');
      |names| == |items| && forall i :: 0 <= i < |items| ==> names[i] == RemoveChar(items[i], ',')
  {
    if replacesField == "" || Lower(replacesField) == "none" then []
    else
      var names := RemoveCommas(SplitSkipEmpty(replacesField, ' '));
      assert forall i :: 0 <= i < |names| ==> ' ' !in SplitSkipEmpty(replacesField, ' ')[i];
      names
  }

  /** Items without commas come through unchanged and in order. */
  lemma ReplacedNamesPlain(replacesField: String)
    requires replacesField != "" && Lower(replacesField) != "none" && ',' !in replacesField
    ensures ReplacedNames(replacesField) == SplitSkipEmpty(replacesField, ' ')
  {
    var items := SplitSkipEmpty(replacesField, ' ');
    forall i | 0 <= i < |items| ensures RemoveChar(items[i], ',') == items[i] {
      assert items[i] in Split(replacesField, ' ');
      SplitPartsAbsent(replacesField, ' ', ',');
      RemoveAbsent(items[i], ',');
    }
  }

  /** A character missing from the text is missing from every part. */
  lemma {:induction false} SplitPartsAbsent(s: String, sep: char, c: char)
    requires c !in s
    ensures forall p :: p in Split(s, sep) ==> c !in p
    decreases |s|
  {
    var i := Find(s, sep);
    if i < |s| {
      SplitPartsAbsent(s[i + 1..], sep, c);
      assert forall x :: x in s[..i] ==> x in s;
    }
  }

  /**
   * getReplacedPackages: nothing for an empty or "none" Replaces field,
   * otherwise its space-separated items with every comma removed.
   */
  method GetReplacedPackages(outcome: ProcessOutcome) returns (items: seq<String>)
    ensures items == ReplacedNames(FieldValue(outcome, "Replaces"))
  {
    var replacesField := PacmanFieldOutput(outcome, "Replaces");
    if replacesField == "" || Lower(replacesField) == "none" {
      return [];
    }
    items := AppendNames([], SplitSkipEmpty(replacesField, ' '));
  }

  /** The loop that appends each item with its commas removed. */
  method AppendNames(list: seq<String>, items: seq<String>) returns (list': seq<String>)
    ensures list' == list + RemoveCommas(items)
  {
    list' := list;
    for j := 0 to |items|
      invariant list' == list + RemoveCommas(items[..j])
    {
      list' := list' + [RemoveChar(items[j], ',')];
    }
    assert items[..|items|] == items;
  }

  /** What getGroupPackages returns. */
  function GroupLines(outcome: ProcessOutcome): (packages: seq<String>)
    ensures !(outcome.Finished? && outcome.exitCode == 0) ==> packages == []
    ensures outcome.Finished? && outcome.exitCode == 0 ==> packages == QueryLines(outcome)
  {
    if outcome.Finished? && outcome.exitCode == 0 then TrimAll(SplitSkipEmpty(outcome.stdout, '\n')) else []
  }

  /** getGroupPackages: like runPacmanQuery, but only exit code 0 counts. */
  method GetGroupPackages(outcome: ProcessOutcome) returns (packages: seq<String>)
    ensures packages == GroupLines(outcome)
  {
    if !outcome.Finished? || outcome.exitCode != 0 {
      return [];
    }
    packages := TrimLines(SplitSkipEmpty(outcome.stdout, '\n'));
  }

  // ---------------------------------------------------------------- pacman.conf

  datatype PacmanConf = PacmanConf(ignorePkg: seq<String>, ignoreGroup: seq<String>)

  /** A configuration line trimmed, cut at its first '#' and trimmed again. */
  function CleanLine(raw: String): (line: String)
    ensures '#' !in line
    ensures !("#" <= line)
  {
    var cut := Before(Trim(QtSpace, raw), '#');
    assert '#' !in Trim(QtSpace, cut) by {
      if '#' in Trim(QtSpace, cut) {
        TrimChars(QtSpace, cut, '#');
      }
    }
    Trim(QtSpace, cut)
  }

  /** The names on an Ignore line: after the last '=', split on spaces, commas removed. */
  function ConfValues(line: String): (names: seq<String>)
    ensures forall n :: n in names ==> ',' !in n && ' ' !in n && '=' !in n
    ensures '#' !in line ==> forall n :: n in names ==> '#' !in n
  {
    ConfValuesChars(line);
    RemoveCommas(SplitSkipEmpty(Trim(QtSpace, Last(Split(line, '='))), ' '))
  }

  lemma ConfValuesChars(line: String)
    ensures var names := RemoveCommas(SplitSkipEmpty(Trim(QtSpace, Last(Split(line, '='))), ' '));
      (forall n :: n in names ==> ',' !in n && ' ' !in n && '=' !in n) &&
      ('#' !in line ==> forall n :: n in names ==> '#' !in n)
  {
    var last := Last(Split(line, '='));
    var value := Trim(QtSpace, last);
    var parts := SplitSkipEmpty(value, ' ');
    assert forall i :: 0 <= i < |parts| ==> parts[i] in Split(value, ' ');
    assert last in Split(line, '=');
    if '=' in value {
      TrimChars(QtSpace, last, '=');
    }
    PartsWithout(value, '=');
    if '#' !in line {
      SplitPartsAbsent(line, '=', '#');
      if '#' in value {
        TrimChars(QtSpace, last, '#');
      }
      PartsWithout(value, '#');
    }
  }

  lemma PartsWithout(value: String, c: char)
    requires c !in value
    ensures forall n :: n in RemoveCommas(SplitSkipEmpty(value, ' ')) ==> c !in n
  {
    SplitPartsAbsent(value, ' ', c);
    var parts := SplitSkipEmpty(value, ' ');
    assert forall i :: 0 <= i < |parts| ==> parts[i] in Split(value, ' ');
  }

  /** What one line adds to each list (IgnoreGroup only when the line is not an IgnorePkg line). */
  function PkgContribution(raw: String): seq<String> {
    var line := CleanLine(raw);
    if line != [] && "IgnorePkg" <= line then ConfValues(line) else []
  }

  function GroupContribution(raw: String): seq<String> {
    var line := CleanLine(raw);
    if line != [] && !("IgnorePkg" <= line) && "IgnoreGroup" <= line then ConfValues(line) else []
  }

  /** The lists after one more line. */
  function ConfStep(conf: PacmanConf, raw: String): PacmanConf {
    PacmanConf(conf.ignorePkg + PkgContribution(raw), conf.ignoreGroup + GroupContribution(raw))
  }

  /** The lists after the given lines, in file order. */
  function ConfOf(lines: seq<String>): PacmanConf
    decreases |lines|
  {
    if lines == [] then PacmanConf([], [])
    else ConfStep(ConfOf(lines[..|lines| - 1]), lines[|lines| - 1])
  }

  /** Every listed name is free of commas, spaces and comment marks. */
  lemma {:induction false} ConfOfNames(lines: seq<String>)
    ensures var conf := ConfOf(lines);
      forall n :: n in conf.ignorePkg + conf.ignoreGroup ==> ',' !in n && ' ' !in n && '#' !in n
    decreases |lines|
  {
    if lines != [] {
      ConfOfNames(lines[..|lines| - 1]);
    }
  }

  /** One more line extends both lists by what it contributes. */
  lemma ConfOfStep(lines: seq<String>, i: nat)
    requires i < |lines|
    ensures ConfOf(lines[..i + 1]) == ConfStep(ConfOf(lines[..i]), lines[i])
  {
    assert lines[..i + 1][..i] == lines[..i];
  }

  /** An empty line leaves both lists as they are. */
  lemma SkippedLine(conf: PacmanConf, raw: String)
    requires CleanLine(raw) == []
    ensures ConfStep(conf, raw) == conf
  {
    assert PkgContribution(raw) == [] && GroupContribution(raw) == [];
    ConfStepNothing(conf, raw);
  }

  /** An IgnorePkg line adds its names to the packages only. */
  lemma PkgLine(conf: PacmanConf, raw: String)
    requires CleanLine(raw) != [] && "IgnorePkg" <= CleanLine(raw)
    ensures ConfStep(conf, raw) == PacmanConf(conf.ignorePkg + ConfValues(CleanLine(raw)), conf.ignoreGroup)
  {
    assert PkgContribution(raw) == ConfValues(CleanLine(raw)) && GroupContribution(raw) == [];
    ConfStepPackages(conf, raw);
  }

  /** An IgnoreGroup line that is not an IgnorePkg line adds its names to the groups only. */
  lemma GroupLine(conf: PacmanConf, raw: String)
    requires CleanLine(raw) != [] && !("IgnorePkg" <= CleanLine(raw)) && "IgnoreGroup" <= CleanLine(raw)
    ensures ConfStep(conf, raw) == PacmanConf(conf.ignorePkg, conf.ignoreGroup + ConfValues(CleanLine(raw)))
  {
    assert PkgContribution(raw) == [] && GroupContribution(raw) == ConfValues(CleanLine(raw));
    ConfStepGroups(conf, raw);
  }

  /** Any other line leaves both lists as they are. */
  lemma OtherLine(conf: PacmanConf, raw: String)
    requires !("IgnorePkg" <= CleanLine(raw)) && !("IgnoreGroup" <= CleanLine(raw))
    ensures ConfStep(conf, raw) == conf
  {
    assert PkgContribution(raw) == [] && GroupContribution(raw) == [];
    ConfStepNothing(conf, raw);
  }

  lemma ConfStepNothing(conf: PacmanConf, raw: String)
    requires PkgContribution(raw) == [] && GroupContribution(raw) == []
    ensures ConfStep(conf, raw) == conf
  {
    assert conf.ignorePkg + [] == conf.ignorePkg;
    assert conf.ignoreGroup + [] == conf.ignoreGroup;
  }

  lemma ConfStepPackages(conf: PacmanConf, raw: String)
    requires GroupContribution(raw) == []
    ensures ConfStep(conf, raw) == PacmanConf(conf.ignorePkg + PkgContribution(raw), conf.ignoreGroup)
  {
    assert conf.ignoreGroup + [] == conf.ignoreGroup;
  }

  lemma ConfStepGroups(conf: PacmanConf, raw: String)
    requires PkgContribution(raw) == []
    ensures ConfStep(conf, raw) == PacmanConf(conf.ignorePkg, conf.ignoreGroup + GroupContribution(raw))
  {
    assert conf.ignorePkg + [] == conf.ignorePkg;
  }

  /** What parsePacmanConf returns; an unopenable file gives two empty lists. */
  function ConfSpec(file: Option<String>): PacmanConf {
    if file.None? then PacmanConf([], []) else ConfOf(Lines(QtReadLine, file.value))
  }

  /**
   * parsePacmanConf: for each line, cut at '#' and trimmed, an `IgnorePkg`
   * line (or else an `IgnoreGroup` line) adds its names to its list.
   */
  method ParsePacmanConf(file: Option<String>) returns (conf: PacmanConf)
    ensures conf == ConfSpec(file)
  {
    if file.None? {
      return PacmanConf([], []);
    }
    var lines := Lines(QtReadLine, file.value);
    var ignorePkg: seq<String> := [];
    var ignoreGroup: seq<String> := [];
    for i := 0 to |lines|
      invariant PacmanConf(ignorePkg, ignoreGroup) == ConfOf(lines[..i])
    {
      ConfOfStep(lines, i);
      var line := CleanLine(lines[i]);
      if line == [] || "#" <= line {
        SkippedLine(PacmanConf(ignorePkg, ignoreGroup), lines[i]);
        continue;
      }
      if "IgnorePkg" <= line {
        PkgLine(PacmanConf(ignorePkg, ignoreGroup), lines[i]);
        var packages := SplitSkipEmpty(Trim(QtSpace, Last(Split(line, '='))), ' ');
        ignorePkg := AppendNames(ignorePkg, packages);
      } else if "IgnoreGroup" <= line {
        GroupLine(PacmanConf(ignorePkg, ignoreGroup), lines[i]);
        var groups := SplitSkipEmpty(Trim(QtSpace, Last(Split(line, '='))), ' ');
        ignoreGroup := AppendNames(ignoreGroup, groups);
      } else {
        OtherLine(PacmanConf(ignorePkg, ignoreGroup), lines[i]);
      }
    }
    assert lines[..|lines|] == lines;
    return PacmanConf(ignorePkg, ignoreGroup);
  }

  // ---------------------------------------------------------------- state building

  /** The state after a check that listed `lines` at time `now`. */
  function CheckedState(lines: seq<String>, now: int): Object {
    var counts := map["upgrade" := JNum(|lines|), "remove" := JNum(0), "held" := JNum(0)];
    Common.DefaultState()["checked_at" := JNum(now)]["packages" := JArr(StringArray(lines))]
      ["counts" := JObj(counts)]["status" := JStr("ok")]
  }

  /**
   * The checked state has the default's members: the time, the lines as
   * packages, one upgrade per line with no removals or held packages, no
   * errors, and status "ok".
   */
  lemma CheckedStateShape(lines: seq<String>, now: int)
    ensures var state := CheckedState(lines, now);
      state.Keys == Common.DefaultState().Keys &&
      state["checked_at"] == JNum(now) && state["status"] == JStr("ok") &&
      state["packages"] == JArr(StringArray(lines)) && state["errors"] == JArr([]) &&
      state["counts"] == JObj(map["upgrade" := JNum(|lines|), "remove" := JNum(0), "held" := JNum(0)])
  {
  }

  /**
   * buildState: the default state with the time, the raw lines, one
   * upgrade per line, no removals or held packages, and status "ok".
   */
  method BuildState(lines: seq<String>, now: int) returns (state: Object)
    ensures state == CheckedState(lines, now)
  {
    var updates := ParseUpdateLines(lines);
    var newState := Common.DefaultState();
    newState := newState["checked_at" := JNum(now)];
    newState := newState["packages" := JArr(StringArray(lines))];
    var counts := ToObject(Get(newState, "counts"));
    assert counts == Common.DefaultCounts();
    counts := counts["upgrade" := JNum(|updates|)];
    counts := counts["remove" := JNum(0)];
    counts := counts["held" := JNum(0)];
    assert counts == map["upgrade" := JNum(|lines|), "remove" := JNum(0), "held" := JNum(0)];
    newState := newState["counts" := JObj(counts)];
    newState := newState["status" := JStr("ok")];
    return newState;
  }

  /** A checked state written to the state file reads back as itself. */
  lemma CheckedStateReadBack(c: Codec, files: map<String, String>, unreadable: set<String>,
                             lines: seq<String>, now: int)
    requires c.Sound() && Common.STATE_FILE_PATH !in unreadable
    ensures var s := CheckedState(lines, now);
      Common.ReadState(c, files[Common.STATE_FILE_PATH := Common.EncodeDocument(c, s)], unreadable,
                       Common.STATE_FILE_PATH, true) == s
  {
    var s := CheckedState(lines, now);
    assert "status" in s;
    Common.WriteReadRoundTrip(c, files, unreadable, Common.STATE_FILE_PATH, s, true);
  }

  // ---------------------------------------------------------------- the monitor

  /** What the monitor did that others can observe, in order. */
  datatype Effect = Persisted(path: String) | Emitted(payload: String)

  function Max(a: int, b: int): int {
    if a >= b then a else b
  }

  class Monitor {
    const codec: Codec
    const fs: Common.FileSystem
    const requireChecksum: bool
    const statePath: String
    var state: Object
    var lastActivity: int
    var checkInterval: int
    var idleTimeout: int
    var effects: seq<Effect>

    /**
     * The constructor reads the state file with the reader's default, a
     * required checksum, whatever `requireChecksum` says; the two intervals
     * come from the settings, unclamped.
     */
    constructor (c: Codec, fs: Common.FileSystem, unreadable: set<String>, requireChecksum: bool,
                 now: int, checkSetting: Option<int>, idleSetting: Option<int>)
      ensures codec == c && this.fs == fs && this.requireChecksum == requireChecksum
      ensures statePath == Common.STATE_FILE_PATH
      ensures state == Common.ReadState(c, fs.files, unreadable, statePath, true)
      ensures lastActivity == now && effects == []
      ensures checkInterval == checkSetting.GetOr(Common.DEFAULT_CHECK_INTERVAL)
      ensures idleTimeout == idleSetting.GetOr(Common.DEFAULT_IDLE_TIMEOUT)
    {
      codec := c;
      this.fs := fs;
      this.requireChecksum := requireChecksum;
      statePath := Common.STATE_FILE_PATH;
      state := Common.ReadState(c, fs.files, unreadable, Common.STATE_FILE_PATH, true);
      lastActivity := now;
      checkInterval := checkSetting.GetOr(Common.DEFAULT_CHECK_INTERVAL);
      idleTimeout := idleSetting.GetOr(Common.DEFAULT_IDLE_TIMEOUT);
      effects := [];
    }

    /** touch: the last activity is now. */
    method Touch(now: int)
      modifies this
      ensures lastActivity == now
      ensures state == old(state) && idleTimeout == old(idleTimeout) && effects == old(effects)
      ensures checkInterval == old(checkInterval)
    {
      lastActivity := now;
    }

    /** GetState: touches, then returns the state serialised compactly. */
    method GetState(now: int) returns (payload: String)
      modifies this
      ensures payload == codec.compact(JObj(state))
      ensures lastActivity == now
      ensures state == old(state) && idleTimeout == old(idleTimeout) && effects == old(effects)
      ensures checkInterval == old(checkInterval)
    {
      Touch(now);
      payload := codec.compact(JObj(state));
    }

    /** SetIdleTimeout: stores at least 30 seconds, then touches. */
    method SetIdleTimeout(seconds: int, now: int)
      modifies this
      ensures idleTimeout == Max(30, seconds) && idleTimeout >= 30
      ensures seconds >= 30 ==> idleTimeout == seconds
      ensures lastActivity == now
      ensures state == old(state) && effects == old(effects) && checkInterval == old(checkInterval)
    {
      idleTimeout := Max(30, seconds);
      Touch(now);
    }

    /** checkIdle: quit once strictly more than the timeout has passed since the last activity. */
    method CheckIdle(now: int) returns (quit: bool)
      ensures quit <==> now - lastActivity > idleTimeout
    {
      quit := now - lastActivity > idleTimeout;
    }

    /**
     * refresh (and the Refresh slot that calls it): touches, queries pacman,
     * rebuilds the state, writes it to the state file, and only then emits
     * it compactly. The clock is read twice: once by the touch and once
     * when the state is stamped.
     */
    method Refresh(touchTime: int, checkTime: int, query: ProcessOutcome, canOpen: bool)
      modifies this, fs
      ensures lastActivity == touchTime
      ensures state == CheckedState(QueryLines(query), checkTime)
      ensures fs.dirs == old(fs.dirs) + {Common.ParentDir(statePath)}
      ensures canOpen ==> fs.files == old(fs.files)[statePath := Common.EncodeDocument(codec, state)]
      ensures !canOpen ==> fs.files == old(fs.files)
      ensures effects == old(effects) + [Persisted(statePath), Emitted(codec.compact(JObj(state)))]
      ensures idleTimeout == old(idleTimeout) && checkInterval == old(checkInterval)
    {
      Touch(touchTime);
      var lines := RunPacmanQuery(query);
      var checked := BuildState(lines, checkTime);
      state := checked;
      fs.WriteState(codec, checked, statePath, canOpen);
      effects := effects + [Persisted(statePath), Emitted(codec.compact(JObj(checked)))];
    }
  }
}
