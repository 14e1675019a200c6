/**
 * libexec/mx-arch-updater/updater_system_monitor.py: the Python twin of the
 * root-side monitor.  Unlike the C++ monitor it also counts held packages and
 * packages to be removed, and several malformed inputs raise instead of being
 * passed over.  Processes are given as their `subprocess.run` results, the
 * pacman database as the `Pacman` bundle, and each reading of the clock is
 * an input (`now`, or `touchTime` and `checkTime` for the two readings of a
 * refresh).
 */
module PySystemMonitor {
  import opened Wrappers
  import opened Text
  import opened Json
  import opened Process
  import opened UpdateLine
  import PyCommon
  import Common
  import SystemMonitor

  // ---------------------------------------------------------------- the update pattern as written

  /** Length of the run of `c` at the start of `s`. */
  function RunOf(s: String, c: char): (n: nat)
    ensures n <= |s|
    ensures forall i :: 0 <= i < n ==> s[i] == c
    ensures n < |s| ==> s[n] != c
    decreases |s|
  {
    if |s| == 0 || s[0] != c then 0 else 1 + RunOf(s[1..], c)
  }

  /**
   * What the pattern piece `\\c+` of the raw string matches at the start of
   * `s`: a backslash followed by one or more `c`.  The length matched, or 0.
   */
  function EscapedRun(s: String, c: char): (n: nat)
    ensures n <= |s|
    ensures n > 0 ==> n >= 2 && s[0] == '\\'
    ensures n > 0 ==> forall i :: 1 <= i < n ==> s[i] == c
  {
    if |s| > 0 && s[0] == '\\' && RunOf(s[1..], c) > 0 then 1 + RunOf(s[1..], c) else 0
  }

  /**
   * `_UPDATE_RE.match` as the pattern is written.  In the raw string every
   * `\\` is a literal backslash, so `\\S+` matches a backslash and a run of
   * the letter S and `\\s+` a backslash and a run of the letter s.  No
   * backtracking can help, since each run must be followed by a backslash
   * or by "->".  The three captures, or None.
   */
  function MatchAsWritten(line: String): (r: Option<(String, String, String)>)
    ensures r.Some? ==> line != [] && line[0] == '\\'
  {
    var a := EscapedRun(line, 'S');
    if a == 0 then None else MatchAfterName(line, a)
  }

  /** The rest of the match once the name piece has matched the first `a` characters. */
  function MatchAfterName(line: String, a: nat): Option<(String, String, String)>
    requires a <= |line|
  {
    var r1 := line[a..];
    var b := EscapedRun(r1, 's');
    if b == 0 then None
    else
      var r2 := r1[b..];
      var c := EscapedRun(r2, 'S');
      if c == 0 then None
      else
        var r3 := r2[c..];
        var d := EscapedRun(r3, 's');
        if d == 0 then None
        else
          var r4 := r3[d..];
          if !("->" <= r4) then None
          else
            var r5 := r4[2..];
            var e := EscapedRun(r5, 's');
            if e == 0 then None
            else
              var r6 := r5[e..];
              var f := EscapedRun(r6, 'S');
              if f == 0 then None else Some((line[..a], r2[..c], r6[..f]))
  }

  /** One parsed line: the dict with "name", "old", "new" and "raw". */
  datatype Update = Update(name: String, oldVersion: String, newVersion: String, raw: String)

  /**
   * The fallback of parse_update_lines: `line.split()[0]`, which raises
   * IndexError on a line without words.
   */
  function Fallback(line: String): (r: Py<Update>)
    ensures Words(PySpace, line) == [] <==> r == Raised(IndexError)
    ensures r.Returned? ==> r.value == Update(Words(PySpace, line)[0], "", "", line)
  {
    var w := Words(PySpace, line);
    if w == [] then Raised(IndexError) else Returned(Update(w[0], "", "", line))
  }

  /**
   * parse_update_lines on one line, with the pattern as written: it raises
   * IndexError exactly on a line without words, keeps the line as "raw",
   * and on a line that does not start with a backslash falls back to the
   * first word with empty versions.
   */
  function ParseLineAsWritten(line: String): (r: Py<Update>)
    ensures r.Raised? <==> Words(PySpace, line) == []
    ensures r.Raised? ==> r.error == IndexError
    ensures r.Returned? ==> r.value.raw == line
    ensures line == [] || line[0] != '\\' ==> r == Fallback(line)
  {
    var m := MatchAsWritten(line);
    if m.Some? then
      MatchedWorded(line);
      Returned(Update(m.value.0, m.value.1, m.value.2, line))
    else Fallback(line)
  }

  /** A line that starts with a backslash has a word. */
  lemma MatchedWorded(line: String)
    requires line != [] && line[0] == '\\'
    ensures Words(PySpace, line) != []
  {
    WordsEmpty(PySpace, line);
  }

  /**
   * parse_update_lines on one line, with the pattern the authors evidently
   * meant, `^(\S+)\s+(\S+)\s+->\s+(\S+)`, where `\s` is the white space of
   * `str.isspace`.
   */
  function ParseLine(line: String): (r: Py<Update>)
    ensures Words(PySpace, line) == [] <==> r == Raised(IndexError)
    ensures r.Returned? ==> r.value.raw == line && r.value.name == Words(PySpace, line)[0]
    ensures IsUpdateLine(PySpace, line) ==>
      var w := Words(PySpace, line); r == Returned(Update(w[0], w[1], w[3], line))
    ensures !IsUpdateLine(PySpace, line) ==> r == Fallback(line)
  {
    MatchUpdateWords(PySpace, line);
    match MatchUpdate(PySpace, line)
    case Some((name, oldVersion, newVersion)) => Returned(Update(name, oldVersion, newVersion, line))
    case None => Fallback(line)
  }

  /**
   * The pattern as written never matches a line that does not start with a
   * backslash, so every genuine `pacman -Qu` line loses both versions.
   */
  lemma VersionsLost(line: String)
    requires line != [] && line[0] != '\\' && IsUpdateLine(PySpace, line)
    ensures var w := Words(PySpace, line);
      ParseLineAsWritten(line) == Returned(Update(w[0], "", "", line)) &&
      ParseLine(line) == Returned(Update(w[0], w[1], w[3], line)) &&
      w[1] != "" && w[3] != ""
  {
    WordsNoBlank(PySpace, line);
    var w := Words(PySpace, line);
    assert w[1] in w && w[3] in w;
  }

  /**
   * The discrepancy on every line of the form `pacman -Qu` prints,
   * `name old -> new` with single spaces, such as "linux 6.1-1 -> 6.2-1".
   */
  lemma PacmanLineLosesVersions(name: String, oldVersion: String, newVersion: String)
    requires name != [] && NoBlank(PySpace, name) && name[0] != '\\'
    requires oldVersion != [] && NoBlank(PySpace, oldVersion)
    requires newVersion != [] && NoBlank(PySpace, newVersion)
    ensures var line := name + " " + oldVersion + " -> " + newVersion;
      ParseLineAsWritten(line) == Returned(Update(name, "", "", line)) &&
      ParseLine(line) == Returned(Update(name, oldVersion, newVersion, line))
  {
    var line := name + " " + oldVersion + " -> " + newVersion;
    UpdateLineOf(PySpace, name, oldVersion, newVersion, line);
    assert line[0] == name[0];
    LineLosesVersions(line, name, oldVersion, newVersion);
  }

  lemma LineLosesVersions(line: String, name: String, oldVersion: String, newVersion: String)
    requires line != [] && line[0] != '\\' && IsUpdateLine(PySpace, line)
    requires Words(PySpace, line) == [name, oldVersion, "->", newVersion]
    ensures ParseLineAsWritten(line) == Returned(Update(name, "", "", line))
    ensures ParseLine(line) == Returned(Update(name, oldVersion, newVersion, line))
  {
    VersionsLost(line);
  }

  /**
   * Both patterns give the same name on a line that does not start with a
   * backslash, and both raise on the same lines, so the state built from
   * the names is the same with either.
   */
  lemma NamesAgree(line: String)
    requires line == [] || line[0] != '\\'
    ensures ParseLineAsWritten(line).Raised? <==> ParseLine(line).Raised?
    ensures ParseLine(line).Returned? ==> ParseLineAsWritten(line).value.name == ParseLine(line).value.name
  {
  }

  /**
   * parse_update_lines, with the pattern as written: one record per line,
   * in order; the first line without words raises IndexError.
   */
  method ParseUpdateLines(lines: seq<String>) returns (r: Py<seq<Update>>)
    ensures r.Raised? <==> !AllWorded(lines)
    ensures r.Raised? ==> r.error == IndexError
    ensures r.Returned? ==>
      |r.value| == |lines| && forall i :: 0 <= i < |lines| ==> ParseLineAsWritten(lines[i]) == Returned(r.value[i])
  {
    var updates: seq<Update> := [];
    for i := 0 to |lines|
      invariant |updates| == i
      invariant ParsedPrefix(lines, updates)
    {
      var parsed := ParseLineAsWritten(lines[i]);
      if parsed.Raised? {
        assert Words(PySpace, lines[i]) == [];
        return Raised(parsed.error);
      }
      ParsedPrefixSnoc(lines, updates, parsed.value);
      updates := updates + [parsed.value];
    }
    assert AllWorded(lines) by {
      forall j | 0 <= j < |lines|
        ensures Words(PySpace, lines[j]) != []
      {
        assert ParseLineAsWritten(lines[j]) == Returned(updates[j]);
      }
    }
    return Returned(updates);
  }

  /** The records made so far are the parses, as written, of the first lines. */
  predicate ParsedPrefix(lines: seq<String>, updates: seq<Update>) {
    |updates| <= |lines| && forall j :: 0 <= j < |updates| ==> ParseLineAsWritten(lines[j]) == Returned(updates[j])
  }

  /** One more parsed line extends the prefix. */
  lemma ParsedPrefixSnoc(lines: seq<String>, updates: seq<Update>, u: Update)
    requires ParsedPrefix(lines, updates) && |updates| < |lines|
    requires ParseLineAsWritten(lines[|updates|]) == Returned(u)
    ensures ParsedPrefix(lines, updates + [u])
  {
    var next := updates + [u];
    forall j | 0 <= j < |next|
      ensures ParseLineAsWritten(lines[j]) == Returned(next[j])
    {
      if j < |updates| {
        assert next[j] == updates[j];
      }
    }
  }

  /** Every line has a word, so `split()[0]` cannot fail on it. */
  predicate AllWorded(lines: seq<String>) {
    forall i :: 0 <= i < |lines| ==> Words(PySpace, lines[i]) != []
  }

  /** The first word of each line: the names the corrected pattern gives. */
  function FirstWords(lines: seq<String>): (names: seq<String>)
    requires AllWorded(lines)
    ensures |names| == |lines|
    ensures forall i :: 0 <= i < |lines| ==> names[i] == Words(PySpace, lines[i])[0]
  {
    seq(|lines|, i requires 0 <= i < |lines| => Words(PySpace, lines[i])[0])
  }

  /**
   * The "name" of each record parse_update_lines makes: the first capture
   * of the pattern as written where it matches, the first word elsewhere.
   */
  function UpdateNames(lines: seq<String>): (names: seq<String>)
    requires AllWorded(lines)
    ensures |names| == |lines|
    ensures forall i :: 0 <= i < |lines| ==>
      names[i] == (if MatchAsWritten(lines[i]).Some? then MatchAsWritten(lines[i]).value.0 else Words(PySpace, lines[i])[0])
  {
    seq(|lines|, i requires 0 <= i < |lines| => ParseLineAsWritten(lines[i]).value.name)
  }

  /**
   * On lines that do not start with a backslash, which include every line
   * `pacman -Qu` prints, the names are the first words, as the corrected
   * pattern would give them.
   */
  lemma UpdateNamesPlain(lines: seq<String>)
    requires AllWorded(lines)
    requires forall i :: 0 <= i < |lines| ==> lines[i] == [] || lines[i][0] != '\\'
    ensures UpdateNames(lines) == FirstWords(lines)
    ensures forall i :: 0 <= i < |lines| ==> UpdateNames(lines)[i] == ParseLine(lines[i]).value.name
  {
    forall i | 0 <= i < |lines|
      ensures UpdateNames(lines)[i] == FirstWords(lines)[i]
    {
      NamesAgree(lines[i]);
    }
  }

  // ---------------------------------------------------------------- pacman output

  /** The stripped lines that are not blank, in order (the comprehension of run_pacman_query). */
  function StrippedLines(ls: seq<String>): (r: seq<String>)
    ensures |r| <= |ls|
    decreases |ls|
  {
    if ls == [] then []
    else (if Trim(PySpace, ls[0]) == [] then [] else [Trim(PySpace, ls[0])]) + StrippedLines(ls[1..])
  }

  /** A kept line: non-empty, stripped and with a first word. */
  predicate KeptLine(l: String) {
    l != [] && Trimmed(PySpace, l) && Words(PySpace, l) != []
  }

  /** A line that strips to something non-empty gives a clean line. */
  lemma TrimClean(s: String)
    requires Trim(PySpace, s) != []
    ensures KeptLine(Trim(PySpace, s))
  {
    WordsEmpty(PySpace, Trim(PySpace, s));
  }

  /** Every kept line is non-empty, stripped and has a first word. */
  lemma {:induction false} StrippedLinesClean(ls: seq<String>)
    ensures forall l :: l in StrippedLines(ls) ==> KeptLine(l)
    decreases |ls|
  {
    if ls != [] {
      StrippedLinesClean(ls[1..]);
      var t := Trim(PySpace, ls[0]);
      var rest := StrippedLines(ls[1..]);
      if t != [] {
        TrimClean(ls[0]);
        assert StrippedLines(ls) == [t] + rest;
      } else {
        assert StrippedLines(ls) == rest;
      }
    }
  }

  /** One line is kept, stripped, exactly when it is not blank. */
  lemma StrippedLinesOne(l: String)
    ensures StrippedLines([l]) == if Trim(PySpace, l) == [] then [] else [Trim(PySpace, l)]
  {
    assert [l][1..] == [];
  }

  /** The first line contributes what it alone would. */
  lemma StrippedLinesCons(l: String, ls: seq<String>)
    ensures StrippedLines([l] + ls) == StrippedLines([l]) + StrippedLines(ls)
  {
    assert ([l] + ls)[1..] == ls;
    assert [l][1..] == [];
  }

  /** The comprehension keeps the order of the lines: it distributes over concatenation. */
  lemma {:induction false} StrippedLinesAppend(a: seq<String>, b: seq<String>)
    ensures StrippedLines(a + b) == StrippedLines(a) + StrippedLines(b)
    decreases |a|
  {
    if a == [] {
      assert a + b == b;
    } else {
      var l, rest := a[0], a[1..];
      assert a == [l] + rest;
      calc {
        StrippedLines(a + b);
        { assert a + b == [l] + (rest + b); }
        StrippedLines([l] + (rest + b));
        { StrippedLinesCons(l, rest + b); }
        StrippedLines([l]) + StrippedLines(rest + b);
        { StrippedLinesAppend(rest, b); }
        StrippedLines([l]) + (StrippedLines(rest) + StrippedLines(b));
        (StrippedLines([l]) + StrippedLines(rest)) + StrippedLines(b);
        { StrippedLinesCons(l, rest); }
        StrippedLines(a) + StrippedLines(b);
      }
    }
  }

  /** The kept lines are exactly the stripped forms of the lines that are not blank. */
  lemma {:induction false} StrippedLinesMembers(ls: seq<String>, x: String)
    ensures x in StrippedLines(ls) <==> x != [] && exists i :: 0 <= i < |ls| && Trim(PySpace, ls[i]) == x
    decreases |ls|
  {
    if ls != [] {
      var l, rest := ls[0], ls[1..];
      assert ls == [l] + rest;
      StrippedLinesCons(l, rest);
      StrippedLinesOne(l);
      StrippedLinesMembers(rest, x);
      if exists i :: 0 <= i < |ls| && Trim(PySpace, ls[i]) == x {
        var i :| 0 <= i < |ls| && Trim(PySpace, ls[i]) == x;
        if i > 0 {
          assert rest[i - 1] == ls[i];
        }
      }
      if exists j :: 0 <= j < |rest| && Trim(PySpace, rest[j]) == x {
        var j :| 0 <= j < |rest| && Trim(PySpace, rest[j]) == x;
        assert ls[j + 1] == rest[j];
      }
    }
  }

  /** Stripping the kept lines again keeps them all, unchanged. */
  lemma {:induction false} StrippedLinesIdempotent(ls: seq<String>)
    ensures StrippedLines(StrippedLines(ls)) == StrippedLines(ls)
    decreases |ls|
  {
    if ls != [] {
      StrippedLinesIdempotent(ls[1..]);
      var t := Trim(PySpace, ls[0]);
      var rest := StrippedLines(ls[1..]);
      if t == [] {
        assert StrippedLines(ls) == rest;
      } else {
        TrimIdempotent(PySpace, ls[0]);
        assert StrippedLines(ls) == [t] + rest;
        assert ([t] + rest)[1..] == rest;
      }
    }
  }

  /**
   * run_pacman_query: nothing when pacman is not installed, when it cannot
   * be started, or when it exits with a code other than 0 or 1; otherwise
   * the stripped non-blank lines of its output.
   */
  function RunPacmanQuery(pacmanFound: bool, run: RunResult): (lines: seq<String>)
    ensures !pacmanFound || run.OsError? ==> lines == []
    ensures run.Completed? && run.returncode != 0 && run.returncode != 1 ==> lines == []
    ensures lines != [] ==> pacmanFound && run.Completed? && (run.returncode == 0 || run.returncode == 1)
    ensures pacmanFound && run.Completed? && (run.returncode == 0 || run.returncode == 1) ==>
      lines == StrippedLines(Lines(PySplitLines, run.stdout))
  {
    if !pacmanFound then []
    else match run
      case OsError => []
      case Completed(returncode, stdout) =>
        if returncode != 0 && returncode != 1 then [] else StrippedLines(Lines(PySplitLines, stdout))
  }

  /** The query never yields a line on which parse_update_lines would raise. */
  lemma QueryLinesWorded(pacmanFound: bool, run: RunResult)
    ensures AllWorded(RunPacmanQuery(pacmanFound, run))
  {
    var lines := RunPacmanQuery(pacmanFound, run);
    if lines != [] {
      StrippedLinesClean(Lines(PySplitLines, run.stdout));
      assert forall i :: 0 <= i < |lines| ==> lines[i] in lines;
    }
  }

  /**
   * The loop of _pacman_field_output over the output lines: the first line
   * whose stripped form starts with `field` decides; its text after the
   * first ':', stripped, or ValueError when it has no ':'.
   */
  function FieldFrom(lines: seq<String>, field: String): (r: Py<String>)
    ensures r.Raised? ==> r.error == ValueError
    decreases |lines|
  {
    if lines == [] then Returned("")
    else if field <= Trim(PySpace, lines[0]) then FieldOfLine(lines[0])
    else FieldFrom(lines[1..], field)
  }

  /** `_, value = line.split(":", 1)`, then `value.strip()`. */
  function FieldOfLine(line: String): (r: Py<String>)
    ensures ':' in line <==> r.Returned?
    ensures r.Raised? ==> r.error == ValueError
    ensures r.Returned? ==> Trimmed(PySpace, r.value)
  {
    if ':' in line then Returned(Trim(PySpace, line[Find(line, ':') + 1..])) else Raised(ValueError)
  }

  /** The first line that starts with the field decides, whatever follows it. */
  lemma {:induction false} FieldFromFirst(lines: seq<String>, field: String, i: nat)
    requires i < |lines| && field <= Trim(PySpace, lines[i])
    requires forall j :: 0 <= j < i ==> !(field <= Trim(PySpace, lines[j]))
    ensures FieldFrom(lines, field) == FieldOfLine(lines[i])
    decreases i
  {
    if i > 0 {
      FieldFromFirst(lines[1..], field, i - 1);
    }
  }

  /** Without a line that starts with the field the value is "". */
  lemma {:induction false} FieldFromNone(lines: seq<String>, field: String)
    requires forall j :: 0 <= j < |lines| ==> !(field <= Trim(PySpace, lines[j]))
    ensures FieldFrom(lines, field) == Returned("")
    decreases |lines|
  {
    if lines != [] {
      FieldFromNone(lines[1..], field);
    }
  }

  /** What _pacman_field_output returns or raises. */
  function FieldOutput(run: RunResult, field: String): Py<String> {
    if run.OsError? || run.returncode != 0 then Returned("") else FieldFrom(Lines(PySplitLines, run.stdout), field)
  }

  /** A value that comes back is stripped. */
  lemma {:induction false} FieldFromStripped(lines: seq<String>, field: String)
    ensures FieldFrom(lines, field).Returned? ==> Trimmed(PySpace, FieldFrom(lines, field).value)
    decreases |lines|
  {
    if lines != [] && !(field <= Trim(PySpace, lines[0])) {
      FieldFromStripped(lines[1..], field);
    }
  }

  /**
   * _pacman_field_output: "" when pacman cannot be started or exits with a
   * non-zero code; otherwise the loop over the output lines.
   */
  method PacmanFieldOutput(run: RunResult, field: String) returns (r: Py<String>)
    ensures r == FieldOutput(run, field)
  {
    if run.OsError? {
      return Returned("");
    }
    if run.returncode != 0 {
      return Returned("");
    }
    var lines := Lines(PySplitLines, run.stdout);
    for i := 0 to |lines|
      invariant FieldFrom(lines[i..], field) == FieldFrom(lines, field)
    {
      var line := lines[i];
      if field <= Trim(PySpace, line) {
        if ':' !in line {
          return Raised(ValueError);
        }
        var value := line[Find(line, ':') + 1..];
        return Returned(Trim(PySpace, value));
      }
      assert lines[i..][1..] == lines[i + 1..];
    }
    return Returned("");
  }

  // ---------------------------------------------------------------- the pacman database

  /** The tools and the pacman database as the monitor's processes see them. */
  datatype Pacman = Pacman(
    pacmanFound: bool,                     // shutil.which("pacman")
    vercmpFound: bool,                     // shutil.which("vercmp")
    query: RunResult,                      // pacman -Qu
    localInfo: String -> RunResult,        // pacman -Qi <pkg>
    syncInfo: String -> RunResult,         // pacman -Si <pkg>
    groupList: String -> RunResult,        // pacman -Sqg <group>
    vercmp: (String, String) -> RunResult) // vercmp <local> <sync>

  /**
   * is_update_available: False without vercmp or with an empty version;
   * otherwise True iff vercmp returns 0 and prints "-1".  The version
   * lookups can raise ValueError, and starting vercmp, outside any `try`,
   * can raise OSError.
   */
  function UpdateAvailable(db: Pacman, pkg: String): (r: Py<bool>)
    ensures !db.vercmpFound ==> r == Returned(false)
    ensures r.Raised? ==> r.error == ValueError || r.error == ProcessError
    ensures r == Returned(true) <==>
      db.vercmpFound &&
      var localVer := FieldOutput(db.localInfo(pkg), "Version");
      var syncVer := FieldOutput(db.syncInfo(pkg), "Version");
      localVer.Returned? && syncVer.Returned? && localVer.value != "" && syncVer.value != "" &&
      db.vercmp(localVer.value, syncVer.value).Completed? &&
      db.vercmp(localVer.value, syncVer.value).returncode == 0 &&
      Trim(PySpace, db.vercmp(localVer.value, syncVer.value).stdout) == "-1"
  {
    if !db.vercmpFound then Returned(false)
    else match FieldOutput(db.localInfo(pkg), "Version")
      case Raised(e) => Raised(e)
      case Returned(localVer) =>
        match FieldOutput(db.syncInfo(pkg), "Version")
        case Raised(e) => Raised(e)
        case Returned(syncVer) =>
          if localVer == "" || syncVer == "" then Returned(false)
          else match db.vercmp(localVer, syncVer)
            case OsError => Raised(ProcessError)
            case Completed(returncode, stdout) => Returned(returncode == 0 && Trim(PySpace, stdout) == "-1")
  }

  /** A kept item: non-empty, with no comma at either end. */
  predicate CommaTrimmed(x: String) {
    x != [] && x[0] != ',' && x[|x| - 1] != ','
  }

  /** Each item with its leading and trailing commas stripped, dropping the items that become empty. */
  function StripCommas(items: seq<String>): (r: seq<String>)
    ensures |r| <= |items|
    ensures forall x :: x in r ==> CommaTrimmed(x)
    decreases |items|
  {
    if items == [] then []
    else
      var t := StripChar(items[0], ',');
      (if t == [] then [] else [t]) + StripCommas(items[1..])
  }

  /** One item is kept, stripped of its commas, exactly when something is left of it. */
  lemma StripCommasOne(item: String)
    ensures StripCommas([item]) == if StripChar(item, ',') == [] then [] else [StripChar(item, ',')]
  {
    assert [item][1..] == [];
  }

  /** The first item contributes what it alone would. */
  lemma StripCommasCons(item: String, items: seq<String>)
    ensures StripCommas([item] + items) == StripCommas([item]) + StripCommas(items)
  {
    assert ([item] + items)[1..] == items;
    assert [item][1..] == [];
  }

  /** The comprehension keeps the order of the items: it distributes over concatenation. */
  lemma {:induction false} StripCommasAppend(a: seq<String>, b: seq<String>)
    ensures StripCommas(a + b) == StripCommas(a) + StripCommas(b)
    decreases |a|
  {
    if a != [] {
      var item, rest := a[0], a[1..];
      assert a == [item] + rest;
      assert a + b == [item] + (rest + b);
      StripCommasCons(item, rest + b);
      StripCommasCons(item, rest);
      StripCommasAppend(rest, b);
    } else {
      assert a + b == b;
    }
  }

  /** The kept items are exactly the non-empty results of stripping the commas off an item. */
  lemma {:induction false} StripCommasMembers(items: seq<String>, x: String)
    ensures x in StripCommas(items) <==> x != [] && exists i :: 0 <= i < |items| && StripChar(items[i], ',') == x
    decreases |items|
  {
    if items != [] {
      var item, rest := items[0], items[1..];
      assert items == [item] + rest;
      StripCommasCons(item, rest);
      StripCommasOne(item);
      StripCommasMembers(rest, x);
      if exists i :: 0 <= i < |items| && StripChar(items[i], ',') == x {
        var i :| 0 <= i < |items| && StripChar(items[i], ',') == x;
        if i > 0 {
          assert rest[i - 1] == items[i];
        }
      }
      if exists j :: 0 <= j < |rest| && StripChar(rest[j], ',') == x {
        var j :| 0 <= j < |rest| && StripChar(rest[j], ',') == x;
        assert items[j + 1] == rest[j];
      }
    }
  }

  /** Items with no comma at either end come through unchanged and in order. */
  lemma {:induction false} StripCommasPlain(items: seq<String>)
    requires forall i :: 0 <= i < |items| ==> items[i] != [] && items[i][0] != ',' && items[i][|items[i]| - 1] != ','
    ensures StripCommas(items) == items
    decreases |items|
  {
    if items != [] {
      var item, rest := items[0], items[1..];
      assert items == [item] + rest;
      StripCommasPlain(rest);
      StripCommasCons(item, rest);
      assert StripChar(item, ',') == item;
      StripCommasOne(item);
    }
  }

  /**
   * get_replaced_packages: the Replaces field of `pacman -Si`; nothing when
   * it is empty or "none" in any case, otherwise its whitespace-separated
   * items with surrounding commas stripped, empty ones dropped.
   */
  function ReplacedPackages(run: RunResult): (r: Py<seq<String>>)
    ensures r.Raised? <==> FieldOutput(run, "Replaces").Raised?
    ensures r.Raised? ==> r.error == ValueError
    ensures FieldOutput(run, "Replaces") == Returned("") ==> r == Returned([])
    ensures r.Returned? && r.value != [] ==> Lower(FieldOutput(run, "Replaces").value) != "none"
    ensures var field := FieldOutput(run, "Replaces");
      field.Returned? && field.value != "" && Lower(field.value) != "none" ==>
        r == Returned(StripCommas(Words(PySpace, field.value)))
    ensures r.Returned? ==> forall x :: x in r.value ==> x != [] && x[0] != ',' && x[|x| - 1] != ','
  {
    match FieldOutput(run, "Replaces")
    case Raised(e) => Raised(e)
    case Returned(value) =>
      if value == "" || Lower(value) == "none" then Returned([])
      else Returned(StripCommas(Words(PySpace, value)))
  }

  /** get_group_packages: the stripped non-blank lines of `pacman -Sqg`, or nothing when it fails. */
  function GroupPackages(run: RunResult): (packages: seq<String>)
    ensures !(run.Completed? && run.returncode == 0) ==> packages == []
    ensures run.Completed? && run.returncode == 0 ==> packages == StrippedLines(Lines(PySplitLines, run.stdout))
    ensures forall p :: p in packages ==> p != [] && Trimmed(PySpace, p)
  {
    if run.OsError? || run.returncode != 0 then []
    else
      StrippedLinesClean(Lines(PySplitLines, run.stdout));
      StrippedLines(Lines(PySplitLines, run.stdout))
  }

  // ---------------------------------------------------------------- pacman.conf

  type PacmanConf = SystemMonitor.PacmanConf

  /** `line.split("#", 1)[0].strip()`: the text before the first '#', stripped. */
  function ConfLine(raw: String): (line: String)
    ensures '#' !in line
  {
    var cut := Before(raw, '#');
    assert '#' !in Trim(PySpace, cut) by {
      if '#' in Trim(PySpace, cut) {
        TrimChars(PySpace, cut, '#');
      }
    }
    Trim(PySpace, cut)
  }

  /** `_, value = line.split("=", 1)`: the text after the first '='. */
  function ValueText(line: String): String
    requires '=' in line
  {
    line[Find(line, '=') + 1..]
  }

  /** Then `value.split()`; ValueError without a '='. */
  function ConfValues(line: String): (r: Py<seq<String>>)
    ensures r.Raised? <==> '=' !in line
    ensures r.Raised? ==> r.error == ValueError
  {
    if '=' in line then Returned(Words(PySpace, ValueText(line))) else Raised(ValueError)
  }

  /** A line cannot start with both keys. */
  lemma KeysExclusive(line: String)
    ensures !("IgnorePkg" <= line && "IgnoreGroup" <= line)
  {
    if "IgnorePkg" <= line {
      assert line[6] == 'P';
    }
  }

  /** The lists after one more line of the file, or the error it raises. */
  function ConfStep(conf: PacmanConf, raw: String): Py<PacmanConf> {
    var line := ConfLine(raw);
    if line == [] then Returned(conf)
    else if "IgnorePkg" <= line then
      match ConfValues(line)
      case Raised(e) => Raised(e)
      case Returned(names) => Returned(SystemMonitor.PacmanConf(conf.ignorePkg + names, conf.ignoreGroup))
    else if "IgnoreGroup" <= line then
      match ConfValues(line)
      case Raised(e) => Raised(e)
      case Returned(names) => Returned(SystemMonitor.PacmanConf(conf.ignorePkg, conf.ignoreGroup + names))
    else Returned(conf)
  }

  /** The lists after the remaining lines, starting from `conf`. */
  function ConfFrom(conf: PacmanConf, lines: seq<String>): Py<PacmanConf>
    decreases |lines|
  {
    if lines == [] then Returned(conf)
    else match ConfStep(conf, lines[0])
      case Raised(e) => Raised(e)
      case Returned(next) => ConfFrom(next, lines[1..])
  }

  /** A key line without '=': the lines on which parse_pacman_conf raises. */
  predicate BadKeyLine(raw: String) {
    var line := ConfLine(raw);
    ("IgnorePkg" <= line || "IgnoreGroup" <= line) && '=' !in line
  }

  lemma StepRaises(conf: PacmanConf, raw: String)
    ensures ConfStep(conf, raw).Raised? <==> BadKeyLine(raw)
    ensures ConfStep(conf, raw).Raised? ==> ConfStep(conf, raw).error == ValueError
  {
  }

  /** parse_pacman_conf raises ValueError exactly when some key line has no '='. */
  lemma {:induction false} ConfFromRaises(conf: PacmanConf, lines: seq<String>)
    ensures ConfFrom(conf, lines).Raised? <==> exists i :: 0 <= i < |lines| && BadKeyLine(lines[i])
    ensures ConfFrom(conf, lines).Raised? ==> ConfFrom(conf, lines).error == ValueError
    decreases |lines|
  {
    if lines != [] {
      StepRaises(conf, lines[0]);
      BadShift(lines);
      if !BadKeyLine(lines[0]) {
        ConfFromRaises(ConfStep(conf, lines[0]).value, lines[1..]);
      }
    }
  }

  lemma BadShift(lines: seq<String>)
    requires lines != []
    ensures (exists i :: 0 <= i < |lines| && BadKeyLine(lines[i])) <==>
      BadKeyLine(lines[0]) || exists j :: 0 <= j < |lines[1..]| && BadKeyLine(lines[1..][j])
  {
    if exists i :: 0 <= i < |lines| && BadKeyLine(lines[i]) {
      var i :| 0 <= i < |lines| && BadKeyLine(lines[i]);
      if i > 0 {
        assert BadKeyLine(lines[1..][i - 1]);
      }
    }
    if exists j :: 0 <= j < |lines[1..]| && BadKeyLine(lines[1..][j]) {
      var j :| 0 <= j < |lines[1..]| && BadKeyLine(lines[1..][j]);
      assert BadKeyLine(lines[j + 1]);
    }
  }

  /** A listed name: non-empty, free of white space and of comment marks. */
  predicate GoodName(n: String) {
    n != [] && NoBlank(PySpace, n) && '#' !in n
  }

  predicate GoodConf(conf: PacmanConf) {
    (forall n :: n in conf.ignorePkg ==> GoodName(n)) && (forall n :: n in conf.ignoreGroup ==> GoodName(n))
  }

  lemma ValuesGood(line: String)
    requires '#' !in line && ConfValues(line).Returned?
    ensures forall n :: n in ConfValues(line).value ==> GoodName(n)
  {
    var value := ValueText(line);
    assert forall x :: x in value ==> x in line;
    WordsNoBlank(PySpace, value);
    WordsAvoid(PySpace, value, '#');
  }

  lemma StepGood(conf: PacmanConf, raw: String)
    requires GoodConf(conf) && ConfStep(conf, raw).Returned?
    ensures GoodConf(ConfStep(conf, raw).value)
  {
    var line := ConfLine(raw);
    if line != [] && ("IgnorePkg" <= line || "IgnoreGroup" <= line) {
      ValuesGood(line);
    }
  }

  /** Every listed name is a whole word without comment marks; commas are kept. */
  lemma {:induction false} ConfFromGood(conf: PacmanConf, lines: seq<String>)
    requires GoodConf(conf)
    ensures ConfFrom(conf, lines).Returned? ==> GoodConf(ConfFrom(conf, lines).value)
    decreases |lines|
  {
    if lines != [] && ConfStep(conf, lines[0]).Returned? {
      StepGood(conf, lines[0]);
      ConfFromGood(ConfStep(conf, lines[0]).value, lines[1..]);
    }
  }

  /**
   * What parse_pacman_conf returns or raises: empty lists for a missing
   * file, the error of a file that cannot be opened or decoded, else the
   * lists the lines give.
   */
  function ConfSpec(present: bool, contents: Option<String>): Py<PacmanConf> {
    if !present then Returned(SystemMonitor.PacmanConf([], []))
    else if contents.None? then Raised(ReadError)
    else ConfFrom(SystemMonitor.PacmanConf([], []), Lines(PyUniversal, contents.value))
  }

  lemma ConfFromUnfold(conf: PacmanConf, lines: seq<String>, i: nat)
    requires i < |lines|
    ensures ConfFrom(conf, lines[i..]) ==
      match ConfStep(conf, lines[i])
      case Raised(e) => Raised(e)
      case Returned(next) => ConfFrom(next, lines[i + 1..])
  {
    assert lines[i..][0] == lines[i] && lines[i..][1..] == lines[i + 1..];
  }

  /** A line that is empty once cut and stripped changes nothing. */
  lemma SkippedLine(conf: PacmanConf, raw: String)
    requires ConfLine(raw) == []
    ensures ConfStep(conf, raw) == Returned(conf)
  {
  }

  /** A well-formed IgnorePkg line extends the packages. */
  lemma PkgLine(conf: PacmanConf, raw: String)
    requires "IgnorePkg" <= ConfLine(raw) && '=' in ConfLine(raw)
    ensures ConfStep(conf, raw) ==
      Returned(SystemMonitor.PacmanConf(conf.ignorePkg + Words(PySpace, ValueText(ConfLine(raw))), conf.ignoreGroup))
  {
  }

  /** A well-formed IgnoreGroup line extends the groups. */
  lemma GroupLine(conf: PacmanConf, raw: String)
    requires "IgnoreGroup" <= ConfLine(raw) && '=' in ConfLine(raw)
    ensures ConfStep(conf, raw) ==
      Returned(SystemMonitor.PacmanConf(conf.ignorePkg, conf.ignoreGroup + Words(PySpace, ValueText(ConfLine(raw)))))
  {
    KeysExclusive(ConfLine(raw));
  }

  /** A key line without '=' raises ValueError. */
  lemma BadLine(conf: PacmanConf, raw: String)
    requires BadKeyLine(raw)
    ensures ConfStep(conf, raw) == Raised(ValueError)
  {
  }

  /** Any other line changes nothing. */
  lemma OtherLine(conf: PacmanConf, raw: String)
    requires !("IgnorePkg" <= ConfLine(raw)) && !("IgnoreGroup" <= ConfLine(raw))
    ensures ConfStep(conf, raw) == Returned(conf)
  {
  }

  /**
   * parse_pacman_conf: for each line, cut at '#' and stripped, an
   * `IgnorePkg` or `IgnoreGroup` line extends its list by the words after
   * its first '='.
   */
  method ParsePacmanConf(present: bool, contents: Option<String>) returns (r: Py<PacmanConf>)
    ensures r == ConfSpec(present, contents)
  {
    if !present {
      return Returned(SystemMonitor.PacmanConf([], []));
    }
    if contents.None? {
      return Raised(ReadError);
    }
    var lines := Lines(PyUniversal, contents.value);
    var ignorePkg: seq<String> := [];
    var ignoreGroup: seq<String> := [];
    for i := 0 to |lines|
      invariant ConfFrom(SystemMonitor.PacmanConf(ignorePkg, ignoreGroup), lines[i..]) ==
        ConfFrom(SystemMonitor.PacmanConf([], []), lines)
    {
      ghost var conf := SystemMonitor.PacmanConf(ignorePkg, ignoreGroup);
      ConfFromUnfold(conf, lines, i);
      var line := ConfLine(lines[i]);
      if line == [] || "#" <= line {
        SkippedLine(conf, lines[i]);
        continue;
      }
      if "IgnorePkg" <= line {
        KeysExclusive(line);
        if '=' !in line {
          BadLine(conf, lines[i]);
          return Raised(ValueError);
        }
        PkgLine(conf, lines[i]);
        var value := line[Find(line, '=') + 1..];
        ignorePkg := ignorePkg + Words(PySpace, value);
      }
      if "IgnoreGroup" <= line {
        if '=' !in line {
          BadLine(conf, lines[i]);
          return Raised(ValueError);
        }
        GroupLine(conf, lines[i]);
        var value := line[Find(line, '=') + 1..];
        ignoreGroup := ignoreGroup + Words(PySpace, value);
      }
      if !("IgnorePkg" <= line) && !("IgnoreGroup" <= line) {
        OtherLine(conf, lines[i]);
      }
    }
    return ConfFrom(SystemMonitor.PacmanConf(ignorePkg, ignoreGroup), []);
  }

  // ---------------------------------------------------------------- held and removed packages

  /** The packages among `pkgs` with an update, added to `held`, in order; the first raise stops it. */
  function HeldFrom(held: set<String>, pkgs: seq<String>, db: Pacman): (r: Py<set<String>>)
    ensures r.Raised? ==> r.error == ValueError || r.error == ProcessError
    decreases |pkgs|
  {
    if pkgs == [] then Returned(held)
    else match UpdateAvailable(db, pkgs[0])
      case Raised(e) => Raised(e)
      case Returned(available) => HeldFrom(if available then held + {pkgs[0]} else held, pkgs[1..], db)
  }

  /** The packages among `pkgs` that have an update. */
  function Updatable(pkgs: seq<String>, db: Pacman): set<String>
    decreases |pkgs|
  {
    if pkgs == [] then {}
    else (if UpdateAvailable(db, pkgs[0]) == Returned(true) then {pkgs[0]} else {}) + Updatable(pkgs[1..], db)
  }

  /** A package is in Updatable exactly when it is listed and its check says an update is available. */
  lemma {:induction false} UpdatableMembers(pkgs: seq<String>, db: Pacman, p: String)
    ensures p in Updatable(pkgs, db) <==> p in pkgs && UpdateAvailable(db, p) == Returned(true)
    decreases |pkgs|
  {
    if pkgs != [] {
      UpdatableMembers(pkgs[1..], db, p);
      assert p in pkgs <==> p == pkgs[0] || p in pkgs[1..];
    }
  }

  /** HeldFrom adds exactly the packages with an update, and raises iff one of the checks raises. */
  lemma {:induction false} HeldFromContents(held: set<String>, pkgs: seq<String>, db: Pacman)
    ensures HeldFrom(held, pkgs, db).Raised? <==> exists i :: 0 <= i < |pkgs| && UpdateAvailable(db, pkgs[i]).Raised?
    ensures HeldFrom(held, pkgs, db).Returned? ==> HeldFrom(held, pkgs, db).value == held + Updatable(pkgs, db)
  {
    HeldFromRaises(held, pkgs, db);
    HeldFromValue(held, pkgs, db);
  }

  lemma {:induction false} HeldFromRaises(held: set<String>, pkgs: seq<String>, db: Pacman)
    ensures HeldFrom(held, pkgs, db).Raised? <==> exists i :: 0 <= i < |pkgs| && UpdateAvailable(db, pkgs[i]).Raised?
    decreases |pkgs|
  {
    if pkgs != [] {
      AvailableShift(pkgs, db);
      var available := UpdateAvailable(db, pkgs[0]);
      if available.Returned? {
        HeldFromRaises(if available.value then held + {pkgs[0]} else held, pkgs[1..], db);
      }
    }
  }

  lemma {:induction false} HeldFromValue(held: set<String>, pkgs: seq<String>, db: Pacman)
    ensures HeldFrom(held, pkgs, db).Returned? ==> HeldFrom(held, pkgs, db).value == held + Updatable(pkgs, db)
    decreases |pkgs|
  {
    if pkgs != [] {
      var available := UpdateAvailable(db, pkgs[0]);
      if available.Returned? {
        HeldFromValue(if available.value then held + {pkgs[0]} else held, pkgs[1..], db);
      }
    }
  }

  lemma AvailableShift(pkgs: seq<String>, db: Pacman)
    requires pkgs != []
    ensures (exists i :: 0 <= i < |pkgs| && UpdateAvailable(db, pkgs[i]).Raised?) <==>
      UpdateAvailable(db, pkgs[0]).Raised? || exists j :: 0 <= j < |pkgs[1..]| && UpdateAvailable(db, pkgs[1..][j]).Raised?
  {
    if exists i :: 0 <= i < |pkgs| && UpdateAvailable(db, pkgs[i]).Raised? {
      var i :| 0 <= i < |pkgs| && UpdateAvailable(db, pkgs[i]).Raised?;
      if i > 0 {
        assert UpdateAvailable(db, pkgs[1..][i - 1]).Raised?;
      }
    }
    if exists j :: 0 <= j < |pkgs[1..]| && UpdateAvailable(db, pkgs[1..][j]).Raised? {
      var j :| 0 <= j < |pkgs[1..]| && UpdateAvailable(db, pkgs[1..][j]).Raised?;
      assert UpdateAvailable(db, pkgs[j + 1]).Raised?;
    }
  }

  /** Running through `a` then `b` is running through `a + b`. */
  lemma {:induction false} HeldFromAppend(held: set<String>, a: seq<String>, b: seq<String>, db: Pacman)
    ensures HeldFrom(held, a + b, db) ==
      match HeldFrom(held, a, db)
      case Raised(e) => Raised(e)
      case Returned(h) => HeldFrom(h, b, db)
    decreases |a|
  {
    if a == [] {
      assert a + b == b;
    } else {
      assert (a + b)[0] == a[0] && (a + b)[1..] == a[1..] + b;
      var available := UpdateAvailable(db, a[0]);
      if available.Returned? {
        HeldFromAppend(if available.value then held + {a[0]} else held, a[1..], b, db);
      }
    }
  }

  /** The members of every group, group by group, in order. */
  function GroupMembers(groups: seq<String>, db: Pacman): seq<String>
    decreases |groups|
  {
    if groups == [] then [] else GroupPackages(db.groupList(groups[0])) + GroupMembers(groups[1..], db)
  }

  /** The nested loop over the groups and their members. */
  function HeldGroups(held: set<String>, groups: seq<String>, db: Pacman): Py<set<String>>
    decreases |groups|
  {
    if groups == [] then Returned(held)
    else match HeldFrom(held, GroupPackages(db.groupList(groups[0])), db)
      case Raised(e) => Raised(e)
      case Returned(h) => HeldGroups(h, groups[1..], db)
  }

  /** The nested loop visits the group members in the order GroupMembers lists them. */
  lemma {:induction false} HeldGroupsFlat(held: set<String>, groups: seq<String>, db: Pacman)
    ensures HeldGroups(held, groups, db) == HeldFrom(held, GroupMembers(groups, db), db)
    decreases |groups|
  {
    if groups != [] {
      var members := GroupPackages(db.groupList(groups[0]));
      HeldFromAppend(held, members, GroupMembers(groups[1..], db), db);
      if HeldFrom(held, members, db).Returned? {
        HeldGroupsFlat(HeldFrom(held, members, db).value, groups[1..], db);
      }
    }
  }

  /** The held set build_state computes: the ignored packages first, then the members of the ignored groups. */
  function HeldSpec(conf: PacmanConf, db: Pacman): Py<set<String>> {
    match HeldFrom({}, conf.ignorePkg, db)
    case Raised(e) => Raised(e)
    case Returned(h) => HeldGroups(h, conf.ignoreGroup, db)
  }

  /**
   * The held packages are the ignored packages, named directly or through a
   * group, that have an update; the check raises iff one availability
   * check raises.
   */
  lemma HeldSpecContents(conf: PacmanConf, db: Pacman)
    ensures var all := conf.ignorePkg + GroupMembers(conf.ignoreGroup, db);
      HeldSpec(conf, db) == HeldFrom({}, all, db) &&
      (HeldSpec(conf, db).Raised? <==> exists i :: 0 <= i < |all| && UpdateAvailable(db, all[i]).Raised?) &&
      (HeldSpec(conf, db).Returned? ==> HeldSpec(conf, db).value == Updatable(all, db))
  {
    var all := conf.ignorePkg + GroupMembers(conf.ignoreGroup, db);
    HeldFromAppend({}, conf.ignorePkg, GroupMembers(conf.ignoreGroup, db), db);
    if HeldFrom({}, conf.ignorePkg, db).Returned? {
      HeldGroupsFlat(HeldFrom({}, conf.ignorePkg, db).value, conf.ignoreGroup, db);
    }
    HeldFromContents({}, all, db);
  }

  /** The loop `for pkg in pkgs: if is_update_available(pkg): held_pkgs.add(pkg)`. */
  method AddAvailable(held: set<String>, pkgs: seq<String>, db: Pacman) returns (r: Py<set<String>>)
    ensures r == HeldFrom(held, pkgs, db)
  {
    var current := held;
    for i := 0 to |pkgs|
      invariant HeldFrom(current, pkgs[i..], db) == HeldFrom(held, pkgs, db)
    {
      assert pkgs[i..][0] == pkgs[i] && pkgs[i..][1..] == pkgs[i + 1..];
      var available := UpdateAvailable(db, pkgs[i]);
      if available.Raised? {
        return Raised(available.error);
      }
      if available.value {
        current := current + {pkgs[i]};
      }
    }
    return Returned(current);
  }

  /** The two loops of build_state that fill held_pkgs. */
  method HeldPackages(conf: PacmanConf, db: Pacman) returns (r: Py<set<String>>)
    ensures r == HeldSpec(conf, db)
  {
    var direct := AddAvailable({}, conf.ignorePkg, db);
    if direct.Raised? {
      return direct;
    }
    var held := direct.value;
    var groups := conf.ignoreGroup;
    for g := 0 to |groups|
      invariant HeldGroups(held, groups[g..], db) == HeldSpec(conf, db)
    {
      assert groups[g..][0] == groups[g] && groups[g..][1..] == groups[g + 1..];
      var step := AddAvailable(held, GroupPackages(db.groupList(groups[g])), db);
      if step.Raised? {
        return step;
      }
      held := step.value;
    }
    return Returned(held);
  }

  /** `replaced` belongs to what get_replaced_packages returns for `name`. */
  predicate ReplacedBy(db: Pacman, name: String, replaced: String) {
    var r := ReplacedPackages(db.syncInfo(name));
    r.Returned? && replaced in r.value
  }

  /** The packages the updates replace, added to `acc`; the first raise stops it. */
  function RemovedFrom(acc: set<String>, names: seq<String>, db: Pacman): (r: Py<set<String>>)
    ensures r.Raised? ==> r.error == ValueError
    decreases |names|
  {
    if names == [] then Returned(acc)
    else match ReplacedPackages(db.syncInfo(names[0]))
      case Raised(e) => Raised(e)
      case Returned(items) => RemovedFrom(acc + (set x | x in items), names[1..], db)
  }

  /** What RemovedFrom collects: every package some update replaces. */
  function ReplacedSet(names: seq<String>, db: Pacman): set<String>
    decreases |names|
  {
    if names == [] then {}
    else
      var r := ReplacedPackages(db.syncInfo(names[0]));
      (if r.Returned? then set x | x in r.value else {}) + ReplacedSet(names[1..], db)
  }

  /** A package is in ReplacedSet exactly when some update replaces it. */
  lemma {:induction false} ReplacedSetMembers(names: seq<String>, db: Pacman, x: String)
    ensures x in ReplacedSet(names, db) <==> exists i :: 0 <= i < |names| && ReplacedBy(db, names[i], x)
    decreases |names|
  {
    if names != [] {
      ReplacedSetMembers(names[1..], db, x);
      ReplacedByShift(names, db);
    }
  }

  /** RemovedFrom raises iff one lookup raises, and otherwise adds exactly the replaced packages. */
  lemma {:induction false} RemovedFromContents(acc: set<String>, names: seq<String>, db: Pacman)
    ensures RemovedFrom(acc, names, db).Raised? <==>
      exists i :: 0 <= i < |names| && ReplacedPackages(db.syncInfo(names[i])).Raised?
    ensures RemovedFrom(acc, names, db).Returned? ==> RemovedFrom(acc, names, db).value == acc + ReplacedSet(names, db)
  {
    RemovedFromRaises(acc, names, db);
    RemovedFromValue(acc, names, db);
  }

  lemma {:induction false} RemovedFromRaises(acc: set<String>, names: seq<String>, db: Pacman)
    ensures RemovedFrom(acc, names, db).Raised? <==>
      exists i :: 0 <= i < |names| && ReplacedPackages(db.syncInfo(names[i])).Raised?
    decreases |names|
  {
    if names != [] {
      var r := ReplacedPackages(db.syncInfo(names[0]));
      ReplacedShift(names, db);
      if r.Returned? {
        RemovedFromRaises(acc + (set x | x in r.value), names[1..], db);
      }
    }
  }

  lemma {:induction false} RemovedFromValue(acc: set<String>, names: seq<String>, db: Pacman)
    ensures RemovedFrom(acc, names, db).Returned? ==> RemovedFrom(acc, names, db).value == acc + ReplacedSet(names, db)
    decreases |names|
  {
    if names != [] {
      var r := ReplacedPackages(db.syncInfo(names[0]));
      if r.Returned? {
        RemovedFromValue(acc + (set x | x in r.value), names[1..], db);
      }
    }
  }

  lemma ReplacedShift(names: seq<String>, db: Pacman)
    requires names != []
    ensures (exists i :: 0 <= i < |names| && ReplacedPackages(db.syncInfo(names[i])).Raised?) <==>
      ReplacedPackages(db.syncInfo(names[0])).Raised? ||
      exists j :: 0 <= j < |names[1..]| && ReplacedPackages(db.syncInfo(names[1..][j])).Raised?
  {
    if exists i :: 0 <= i < |names| && ReplacedPackages(db.syncInfo(names[i])).Raised? {
      var i :| 0 <= i < |names| && ReplacedPackages(db.syncInfo(names[i])).Raised?;
      if i > 0 {
        assert ReplacedPackages(db.syncInfo(names[1..][i - 1])).Raised?;
      }
    }
    if exists j :: 0 <= j < |names[1..]| && ReplacedPackages(db.syncInfo(names[1..][j])).Raised? {
      var j :| 0 <= j < |names[1..]| && ReplacedPackages(db.syncInfo(names[1..][j])).Raised?;
      assert ReplacedPackages(db.syncInfo(names[j + 1])).Raised?;
    }
  }

  lemma ReplacedByShift(names: seq<String>, db: Pacman)
    requires names != []
    ensures forall x :: (exists i :: 0 <= i < |names| && ReplacedBy(db, names[i], x)) <==>
      ReplacedBy(db, names[0], x) || exists j :: 0 <= j < |names[1..]| && ReplacedBy(db, names[1..][j], x)
  {
    forall x ensures (exists i :: 0 <= i < |names| && ReplacedBy(db, names[i], x)) <==>
      ReplacedBy(db, names[0], x) || exists j :: 0 <= j < |names[1..]| && ReplacedBy(db, names[1..][j], x)
    {
      if exists i :: 0 <= i < |names| && ReplacedBy(db, names[i], x) {
        var i :| 0 <= i < |names| && ReplacedBy(db, names[i], x);
        if i > 0 {
          assert ReplacedBy(db, names[1..][i - 1], x);
        }
      }
      if exists j :: 0 <= j < |names[1..]| && ReplacedBy(db, names[1..][j], x) {
        var j :| 0 <= j < |names[1..]| && ReplacedBy(db, names[1..][j], x);
        assert ReplacedBy(db, names[j + 1], x);
      }
    }
  }

  /** The name of each update. */
  function NamesOf(updates: seq<Update>): (names: seq<String>)
    ensures |names| == |updates| && forall i :: 0 <= i < |updates| ==> names[i] == updates[i].name
  {
    seq(|updates|, i requires 0 <= i < |updates| => updates[i].name)
  }

  /** The inner loop that adds every item to the set. */
  method AddItems(acc: set<String>, items: seq<String>) returns (r: set<String>)
    ensures r == acc + (set x | x in items)
  {
    r := acc;
    for j := 0 to |items|
      invariant r == acc + (set x | x in items[..j])
    {
      assert forall x :: x in items[..j + 1] <==> x in items[..j] || x == items[j];
      r := r + {items[j]};
    }
    assert items[..|items|] == items;
  }

  /** The loops `for update in updates: for replaced in get_replaced_packages(...): to_remove.add(replaced)`. */
  method RemovedPackages(updates: seq<Update>, db: Pacman) returns (r: Py<set<String>>)
    ensures r == RemovedFrom({}, NamesOf(updates), db)
  {
    var names := NamesOf(updates);
    var toRemove: set<String> := {};
    for i := 0 to |updates|
      invariant RemovedFrom(toRemove, names[i..], db) == RemovedFrom({}, names, db)
    {
      assert names[i..][0] == updates[i].name && names[i..][1..] == names[i + 1..];
      var items := ReplacedPackages(db.syncInfo(updates[i].name));
      if items.Raised? {
        return Raised(items.error);
      }
      toRemove := AddItems(toRemove, items.value);
    }
    return Returned(toRemove);
  }

  // ---------------------------------------------------------------- build_state

  /** The state build_state returns: the default with the time, the raw lines, the counts and status "ok". */
  function PyCheckedState(lines: seq<String>, now: int, upgrades: nat, removed: nat, held: nat): Object {
    var counts := map["upgrade" := JNum(upgrades), "new" := JNum(0), "remove" := JNum(removed), "held" := JNum(held)];
    PyCommon.DefaultState()["checked_at" := JNum(now)]["packages" := JArr(StringArray(lines))]
      ["counts" := JObj(counts)]["status" := JStr("ok")]
  }

  /** The built state keeps the default's members; "new" stays 0 and the errors stay empty. */
  lemma PyCheckedStateShape(lines: seq<String>, now: int, upgrades: nat, removed: nat, held: nat)
    ensures var state := PyCheckedState(lines, now, upgrades, removed, held);
      state.Keys == PyCommon.DefaultState().Keys &&
      state["checked_at"] == JNum(now) && state["status"] == JStr("ok") &&
      state["packages"] == JArr(StringArray(lines)) && state["errors"] == JArr([]) &&
      state["counts"].JObj? && state["counts"].fields.Keys == {"upgrade", "new", "remove", "held"} &&
      state["counts"].fields["upgrade"] == JNum(upgrades) && state["counts"].fields["new"] == JNum(0) &&
      state["counts"].fields["remove"] == JNum(removed) && state["counts"].fields["held"] == JNum(held)
  {
  }

  /**
   * What build_state returns or raises, step by step: parsing the lines,
   * reading pacman.conf, the held packages, then the replaced packages.
   */
  function BuildSpec(lines: seq<String>, now: int, db: Pacman, confPresent: bool,
                     confContents: Option<String>): Py<Object>
  {
    if !AllWorded(lines) then Raised(IndexError)
    else match ConfSpec(confPresent, confContents)
      case Raised(e) => Raised(e)
      case Returned(conf) =>
        match HeldSpec(conf, db)
        case Raised(e) => Raised(e)
        case Returned(held) =>
          match RemovedFrom({}, UpdateNames(lines), db)
          case Raised(e) => Raised(e)
          case Returned(removed) => Returned(PyCheckedState(lines, now, |lines|, |removed|, |held|))
  }

  /**
   * The counts build_state stores: one upgrade per line, the packages the
   * updates replace, and the ignored packages (named or through a group)
   * that have an update.
   */
  lemma BuildSpecCounts(lines: seq<String>, now: int, db: Pacman, confPresent: bool, confContents: Option<String>)
    requires BuildSpec(lines, now, db, confPresent, confContents).Returned?
    ensures AllWorded(lines) && ConfSpec(confPresent, confContents).Returned?
    ensures var conf := ConfSpec(confPresent, confContents).value;
      BuildSpec(lines, now, db, confPresent, confContents).value ==
        PyCheckedState(lines, now, |lines|, |ReplacedSet(UpdateNames(lines), db)|,
                       |Updatable(conf.ignorePkg + GroupMembers(conf.ignoreGroup, db), db)|)
  {
    var conf := ConfSpec(confPresent, confContents).value;
    var held := HeldSpec(conf, db);
    var removed := RemovedFrom({}, UpdateNames(lines), db);
    assert held.Returned? && removed.Returned?;
    assert BuildSpec(lines, now, db, confPresent, confContents).value ==
      PyCheckedState(lines, now, |lines|, |removed.value|, |held.value|);
    HeldSpecContents(conf, db);
    RemovedFromContents({}, UpdateNames(lines), db);
  }

  /**
   * The lines of the pacman query always have a first word, so a build on
   * them never raises IndexError; it can only fail reading pacman.conf
   * (ReadError), on a key line without '=' or an unexpected field output
   * (ValueError), or on a failing pacman call (ProcessError).
   */
  lemma QueryBuildErrors(db: Pacman, now: int, confPresent: bool, confContents: Option<String>)
    ensures var r := BuildSpec(RunPacmanQuery(db.pacmanFound, db.query), now, db, confPresent, confContents);
      r.Raised? ==> r.error == ReadError || r.error == ValueError || r.error == ProcessError
  {
    var lines := RunPacmanQuery(db.pacmanFound, db.query);
    QueryLinesWorded(db.pacmanFound, db.query);
    if confPresent && confContents.Some? {
      ConfFromRaises(SystemMonitor.PacmanConf([], []), Lines(PyUniversal, confContents.value));
    }
    var conf := ConfSpec(confPresent, confContents);
    if conf.Returned? {
      HeldSpecContents(conf.value, db);
    }
  }

  /** The names of the parsed records are the update names of the lines. */
  lemma ParsedNames(lines: seq<String>, updates: seq<Update>)
    requires AllWorded(lines) && |updates| == |lines|
    requires forall i :: 0 <= i < |lines| ==> ParseLineAsWritten(lines[i]) == Returned(updates[i])
    ensures NamesOf(updates) == UpdateNames(lines)
  {
  }

  /** build_state, calling the parsers and the loops above in the source's order. */
  method BuildState(lines: seq<String>, now: int, db: Pacman, confPresent: bool,
                    confContents: Option<String>) returns (r: Py<Object>)
    ensures r == BuildSpec(lines, now, db, confPresent, confContents)
  {
    var updates := ParseUpdateLines(lines);
    if updates.Raised? {
      return Raised(updates.error);
    }
    ParsedNames(lines, updates.value);
    var conf := ParsePacmanConf(confPresent, confContents);
    if conf.Raised? {
      return Raised(conf.error);
    }
    var held := HeldPackages(conf.value, db);
    if held.Raised? {
      return Raised(held.error);
    }
    var removed := RemovedPackages(updates.value, db);
    if removed.Raised? {
      return Raised(removed.error);
    }
    return Returned(PyCheckedState(lines, now, |updates.value|, |removed.value|, |held.value|));
  }

  // ---------------------------------------------------------------- the monitor

  /**
   * int() of a stored setting: the default when the key is unset, else the
   * integer the stored text spells (`intOf` stands for int()), ValueError
   * when it spells none.
   */
  function SettingInt(stored: Option<String>, fallback: int, intOf: String -> Option<int>): (r: Py<int>)
    ensures stored.None? ==> r == Returned(fallback)
    ensures stored.Some? ==> (r.Raised? <==> intOf(stored.value).None?)
    ensures r.Raised? ==> r.error == ValueError
    ensures stored.Some? && r.Returned? ==> intOf(stored.value) == Some(r.value)
  {
    match stored
    case None => Returned(fallback)
    case Some(text) => if intOf(text).Some? then Returned(intOf(text).value) else Raised(ValueError)
  }

  class PyMonitor {
    const codec: Codec
    const fs: Common.FileSystem
    const requireChecksum: bool
    const statePath: String
    var state: Object
    var lastActivity: int
    var checkInterval: int
    var idleTimeout: int
    var effects: seq<SystemMonitor.Effect>

    /** The fields __init__ sets once its reads have succeeded. */
    constructor (c: Codec, fs: Common.FileSystem, requireChecksum: bool, statePath: String,
                 state: Object, now: int, checkInterval: int, idleTimeout: int)
      ensures codec == c && this.fs == fs && this.requireChecksum == requireChecksum
      ensures this.statePath == statePath && this.state == state && lastActivity == now
      ensures this.checkInterval == checkInterval && this.idleTimeout == idleTimeout && effects == []
    {
      codec := c;
      this.fs := fs;
      this.requireChecksum := requireChecksum;
      this.statePath := statePath;
      this.state := state;
      lastActivity := now;
      this.checkInterval := checkInterval;
      this.idleTimeout := idleTimeout;
      effects := [];
    }

    /** _touch: the last activity is now. */
    method Touch(now: int)
      modifies this
      ensures lastActivity == now
      ensures state == old(state) && idleTimeout == old(idleTimeout) && effects == old(effects)
      ensures checkInterval == old(checkInterval)
    {
      lastActivity := now;
    }

    /** GetState: touches, then returns the state in json.dumps' default form. */
    method GetState(now: int) returns (payload: String)
      modifies this
      ensures payload == codec.plain(JObj(state))
      ensures lastActivity == now
      ensures state == old(state) && idleTimeout == old(idleTimeout) && effects == old(effects)
      ensures checkInterval == old(checkInterval)
    {
      Touch(now);
      payload := codec.plain(JObj(state));
    }

    /** SetIdleTimeout: stores at least 30 seconds, then touches. */
    method SetIdleTimeout(seconds: int, now: int)
      modifies this
      ensures idleTimeout == SystemMonitor.Max(30, seconds) && idleTimeout >= 30
      ensures seconds >= 30 ==> idleTimeout == seconds
      ensures lastActivity == now
      ensures state == old(state) && effects == old(effects) && checkInterval == old(checkInterval)
    {
      idleTimeout := SystemMonitor.Max(30, seconds);
      Touch(now);
    }

    /** _check_idle: quit once strictly more than the timeout has passed since the last activity. */
    method CheckIdle(now: int) returns (quit: bool)
      ensures quit <==> now - lastActivity > idleTimeout
    {
      quit := now - lastActivity > idleTimeout;
    }

    /**
     * refresh (and the Refresh slot): touches, queries pacman and builds the
     * state.  A build that raises leaves the state as it was; otherwise the
     * new state is kept even when writing it then raises, and it is emitted
     * only after a successful write.  The clock is read twice: once by the
     * touch and once when build_state stamps the state.
     */
    method Refresh(touchTime: int, checkTime: int, db: Pacman, confPresent: bool, confContents: Option<String>,
                   mkdirOk: bool, writeOk: bool) returns (r: Py<()>)
      modifies this, fs
      ensures lastActivity == touchTime
      ensures idleTimeout == old(idleTimeout) && checkInterval == old(checkInterval)
      ensures var built := BuildSpec(RunPacmanQuery(db.pacmanFound, db.query), checkTime, db, confPresent, confContents);
        built.Raised? ==>
          r == Raised(built.error) && state == old(state) && effects == old(effects) &&
          fs.files == old(fs.files) && fs.dirs == old(fs.dirs)
      ensures var built := BuildSpec(RunPacmanQuery(db.pacmanFound, db.query), checkTime, db, confPresent, confContents);
        built.Returned? ==>
          state == built.value &&
          r == (if mkdirOk && writeOk then Returned(()) else Raised(WriteError)) &&
          fs.dirs == (if mkdirOk then old(fs.dirs) + {Common.ParentDir(statePath)} else old(fs.dirs)) &&
          fs.files == (if mkdirOk && writeOk then old(fs.files)[statePath := Common.EncodeDocument(codec, state)] else old(fs.files)) &&
          effects == (if r.Returned? then old(effects) + [SystemMonitor.Persisted(statePath), SystemMonitor.Emitted(codec.plain(JObj(state)))] else old(effects))
    {
      Touch(touchTime);
      var lines := RunPacmanQuery(db.pacmanFound, db.query);
      var built := BuildState(lines, checkTime, db, confPresent, confContents);
      if built.Raised? {
        return Raised(built.error);
      }
      r := Store(built.value, mkdirOk, writeOk);
    }

    /** The second half of refresh: keep the new state, write it, and emit it once written. */
    method Store(newState: Object, mkdirOk: bool, writeOk: bool) returns (r: Py<()>)
      modifies this, fs
      ensures state == newState && lastActivity == old(lastActivity)
      ensures idleTimeout == old(idleTimeout) && checkInterval == old(checkInterval)
      ensures r == (if mkdirOk && writeOk then Returned(()) else Raised(WriteError))
      ensures fs.dirs == (if mkdirOk then old(fs.dirs) + {Common.ParentDir(statePath)} else old(fs.dirs))
      ensures fs.files == (if mkdirOk && writeOk then old(fs.files)[statePath := Common.EncodeDocument(codec, state)] else old(fs.files))
      ensures effects == (if r.Returned? then old(effects) + [SystemMonitor.Persisted(statePath), SystemMonitor.Emitted(codec.plain(JObj(state)))] else old(effects))
    {
      state := newState;
      r := PyCommon.WriteState(fs, codec, state, statePath, mkdirOk, writeOk);
      if r.Raised? {
        return;
      }
      effects := effects + [SystemMonitor.Persisted(statePath), SystemMonitor.Emitted(codec.plain(JObj(state)))];
    }
  }

  /**
   * SystemMonitor.__init__: reads the state file (which may raise), then
   * converts the two stored intervals (either may raise ValueError); the
   * first failure is the constructor's.  The idle timeout is not clamped
   * here.
   */
  method StartMonitor(c: Codec, fs: Common.FileSystem, unreadable: set<String>, requireChecksum: bool, now: int,
                      checkStored: Option<String>, idleStored: Option<String>, intOf: String -> Option<int>)
    returns (r: Py<PyMonitor>)
    ensures var read := PyCommon.ReadState(c, fs.files, unreadable, PyCommon.STATE_FILE, requireChecksum);
      var check := SettingInt(checkStored, PyCommon.DEFAULT_CHECK_INTERVAL, intOf);
      var idle := SettingInt(idleStored, PyCommon.DEFAULT_IDLE_TIMEOUT, intOf);
      (read.Raised? ==> r == Raised(read.error)) &&
      (read.Returned? && check.Raised? ==> r == Raised(check.error)) &&
      (read.Returned? && check.Returned? && idle.Raised? ==> r == Raised(idle.error)) &&
      (read.Returned? && check.Returned? && idle.Returned? ==>
        r.Returned? && fresh(r.value) && r.value.state == read.value && r.value.lastActivity == now &&
        r.value.statePath == PyCommon.STATE_FILE && r.value.fs == fs && r.value.codec == c &&
        r.value.requireChecksum == requireChecksum && r.value.effects == [] &&
        r.value.checkInterval == check.value && r.value.idleTimeout == idle.value)
  {
    var read := PyCommon.ReadState(c, fs.files, unreadable, PyCommon.STATE_FILE, requireChecksum);
    if read.Raised? {
      return Raised(read.error);
    }
    var check := SettingInt(checkStored, PyCommon.DEFAULT_CHECK_INTERVAL, intOf);
    if check.Raised? {
      return Raised(check.error);
    }
    var idle := SettingInt(idleStored, PyCommon.DEFAULT_IDLE_TIMEOUT, intOf);
    if idle.Raised? {
      return Raised(idle.error);
    }
    var m := new PyMonitor(c, fs, requireChecksum, PyCommon.STATE_FILE, read.value, now, check.value, idle.value);
    return Returned(m);
  }

  /** After a successful refresh the state file reads back as the refreshed state. */
  lemma RefreshReadBack(c: Codec, files: map<String, String>, unreadable: set<String>, path: String,
                        state: Object, requireChecksum: bool)
    requires c.Sound() && path !in unreadable
    ensures PyCommon.ReadState(c, files[path := Common.EncodeDocument(c, state)], unreadable, path, requireChecksum)
      == Returned(state)
  {
    PyCommon.WriteReadRoundTrip(c, files, unreadable, path, state, requireChecksum);
  }
}
