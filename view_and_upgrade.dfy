/**
 * src/view_and_upgrade.cpp: the "View and Upgrade" window.  It quotes
 * arguments for the shell, turns the checked packages of its tree into an
 * upgrade command, runs that command in the first terminal emulator that
 * starts, and keeps the check marks of the tree consistent.
 *
 * Quoting is checked against a small shell lexer, `Lex`, which follows the
 * quoting rules of section 2.2 of the POSIX Shell Command Language (2.2.1
 * Escape Character, 2.2.2 Single-Quotes): the round trip is "the shell
 * reads back the words that were quoted".
 */
module ViewAndUpgrade {
  import opened Wrappers
  import opened Text
  import opened Json
  import SystemMonitor

  // ---------------------------------------------------------------- the shell's reading

  /** The characters section 2.2 says must be quoted to stand for themselves. */
  predicate ShellSpecial(c: char) {
    c == '|' || c == '&' || c == ';' || c == '<' || c == '>' || c == '(' || c == ')' ||
    c == '$' || c == '`' || c == '\\' || c == '"' || c == '\'' || c == ' ' || c == '\t' || c == '\n'
  }

  function ConsWord(w: String, r: Option<seq<String>>): Option<seq<String>> {
    match r
    case None => None
    case Some(ws) => Some([w] + ws)
  }

  /** The word in progress, if any, ends here. */
  function EndWord(word: Option<String>, r: Option<seq<String>>): Option<seq<String>> {
    if word.Some? then ConsWord(word.value, r) else r
  }

  /**
   * The words of the first simple command of `s` after quote removal, with
   * `word` the word in progress.  Blanks separate words; `'` opens a quoted
   * run; a backslash keeps the next character (a backslash-newline
   * vanishes); an unquoted `;` ends the command.  None when the text
   * reaches anything else the shell interprets (an operator, an expansion,
   * a double quote, an unquoted newline) or stops after a lone backslash.
   */
  function Lex(s: String, word: Option<String>): (r: Option<seq<String>>)
    decreases |s|
  {
    if s == [] || s[0] == ';' then EndWord(word, Some([]))
    else if s[0] == ' ' || s[0] == '\t' then EndWord(word, Lex(s[1..], None))
    else if s[0] == '\'' then InQuotes(s[1..], word.GetOr(""))
    else if s[0] == '\\' then
      if |s| == 1 then None
      else if s[1] == '\n' then Lex(s[2..], word)
      else Lex(s[2..], Some(word.GetOr("") + [s[1]]))
    else if ShellSpecial(s[0]) then None
    else Lex(s[1..], Some(word.GetOr("") + [s[0]]))
  }

  /** Inside single quotes every character but `'` is kept; an unclosed quote is None. */
  function InQuotes(s: String, w: String): (r: Option<seq<String>>)
    decreases |s|
  {
    if s == [] then None
    else if s[0] == '\'' then Lex(s[1..], Some(w))
    else InQuotes(s[1..], w + [s[0]])
  }

  // ---------------------------------------------------------------- shellQuoteArgument

  /** A space, tab, newline or single quote makes shellQuoteArgument quote. */
  predicate NeedsQuoting(arg: String) {
    ' ' in arg || '\t' in arg || '\n' in arg || '\'' in arg
  }

  /** One character inside the quotes: `'` becomes `'\''`, the rest stay. */
  function Escaped(c: char): String {
    if c == '\'' then "'\\''" else [c]
  }

  function QuoteBody(arg: String): String
    decreases |arg|
  {
    if arg == [] then "" else Escaped(arg[0]) + QuoteBody(arg[1..])
  }

  /** What shellQuoteArgument returns. */
  function ShellQuote(arg: String): String {
    if arg == [] then "''"
    else if !NeedsQuoting(arg) then arg
    else "'" + QuoteBody(arg) + "'"
  }

  lemma {:induction false} QuoteBodyAppend(arg: String, c: char)
    ensures QuoteBody(arg + [c]) == QuoteBody(arg) + Escaped(c)
    decreases |arg|
  {
    if arg != [] {
      assert (arg + [c])[0] == arg[0] && (arg + [c])[1..] == arg[1..] + [c];
      QuoteBodyAppend(arg[1..], c);
    } else {
      assert QuoteBody([c]) == Escaped(c) + QuoteBody([]);
    }
  }

  /** shellQuoteArgument, building the quoted text character by character. */
  method ShellQuoteArgument(arg: String) returns (quoted: String)
    ensures quoted == ShellQuote(arg)
  {
    if arg == [] {
      return "''";
    }
    if !(' ' in arg) && !('\t' in arg) && !('\n' in arg) && !('\'' in arg) {
      return arg;
    }
    quoted := "'";
    for i := 0 to |arg|
      invariant quoted == "'" + QuoteBody(arg[..i])
    {
      QuoteBodyAppend(arg[..i], arg[i]);
      assert arg[..i + 1] == arg[..i] + [arg[i]];
      if arg[i] == '\'' {
        quoted := quoted + "'\\''";
      } else {
        quoted := quoted + [arg[i]];
      }
    }
    assert arg[..|arg|] == arg;
    quoted := quoted + "'";
  }

  /** The arguments the shell reads back unchanged: empty, quoted, or free of special characters. */
  predicate Safe(arg: String) {
    arg == [] || NeedsQuoting(arg) || forall i :: 0 <= i < |arg| ==> !ShellSpecial(arg[i])
  }

  // One step of the lexer each; the proofs below walk the quoted text with these.

  lemma LexEndStep(s: String, word: Option<String>)
    requires s == [] || s[0] == ';'
    ensures Lex(s, word) == EndWord(word, Some([]))
  {
  }

  lemma LexBlankStep(s: String, word: Option<String>)
    requires s != [] && s[0] == ' '
    ensures Lex(s, word) == EndWord(word, Lex(s[1..], None))
  {
  }

  lemma LexQuoteStep(s: String, word: Option<String>)
    requires s != [] && s[0] == '\''
    ensures Lex(s, word) == InQuotes(s[1..], word.GetOr(""))
  {
  }

  lemma LexEscapeStep(s: String, word: Option<String>)
    requires |s| >= 2 && s[0] == '\\' && s[1] != '\n'
    ensures Lex(s, word) == Lex(s[2..], Some(word.GetOr("") + [s[1]]))
  {
  }

  lemma LexPlainStep(s: String, word: Option<String>)
    requires s != [] && !ShellSpecial(s[0])
    ensures Lex(s, word) == Lex(s[1..], Some(word.GetOr("") + [s[0]]))
  {
  }

  lemma EndWordSingle(a: String)
    ensures EndWord(Some(a), Some([])) == Some([a])
  {
    assert [a] + [] == [a];
  }

  lemma InQuotesCloseStep(s: String, w: String)
    requires s != [] && s[0] == '\''
    ensures InQuotes(s, w) == Lex(s[1..], Some(w))
  {
  }

  lemma InQuotesCharStep(s: String, w: String)
    requires s != [] && s[0] != '\''
    ensures InQuotes(s, w) == InQuotes(s[1..], w + [s[0]])
  {
  }

  /** Inside quotes, one escaped character reads as itself. */
  lemma EscapedStep(c: char, tail: String, w: String)
    ensures InQuotes(Escaped(c) + tail, w) == InQuotes(tail, w + [c])
  {
    var s0 := Escaped(c) + tail;
    if c == '\'' {
      assert s0 == ['\''] + (['\\', '\'', '\''] + tail);
      InQuotesCloseStep(s0, w);
      var s1 := ['\\', '\'', '\''] + tail;
      assert s0[1..] == s1;
      LexEscapeStep(s1, Some(w));
      var s2 := ['\''] + tail;
      assert s1[2..] == s2;
      LexQuoteStep(s2, Some(w + [c]));
      assert s2[1..] == tail;
    } else {
      assert s0 == [c] + tail;
      InQuotesCharStep(s0, w);
      assert s0[1..] == tail;
    }
  }

  /** The quoted body of `arg`, closed by `'`, reads as `arg` appended to the word in progress. */
  lemma {:induction false} QuotedLex(arg: String, t: String, w: String)
    ensures InQuotes(QuoteBody(arg) + "'" + t, w) == Lex(t, Some(w + arg))
    decreases |arg|
  {
    var s0 := QuoteBody(arg) + "'" + t;
    if arg == [] {
      assert s0 == ['\''] + t;
      InQuotesCloseStep(s0, w);
      assert s0[1..] == t;
      assert w + arg == w;
    } else {
      var c, rest := arg[0], arg[1..];
      var tail := QuoteBody(rest) + "'" + t;
      assert s0 == Escaped(c) + tail;
      EscapedStep(c, tail, w);
      QuotedLex(rest, t, w + [c]);
      assert w + [c] + rest == w + arg;
    }
  }

  lemma {:induction false} PlainLex(arg: String, t: String, word: Option<String>)
    requires arg != [] && forall i :: 0 <= i < |arg| ==> !ShellSpecial(arg[i])
    ensures Lex(arg + t, word) == Lex(t, Some(word.GetOr("") + arg))
    decreases |arg|
  {
    var s := arg + t;
    assert s[0] == arg[0] && s[1..] == arg[1..] + t;
    LexPlainStep(s, word);
    var w := word.GetOr("") + [arg[0]];
    if |arg| > 1 {
      PlainLex(arg[1..], t, Some(w));
      assert w + arg[1..] == word.GetOr("") + arg;
    } else {
      assert arg[1..] + t == t;
      assert w == word.GetOr("") + arg;
    }
  }

  /** The shell reads a safe quoted argument as exactly that argument, whatever follows it. */
  lemma QuoteLex(arg: String, t: String, word: Option<String>)
    requires Safe(arg)
    ensures Lex(ShellQuote(arg) + t, word) == Lex(t, Some(word.GetOr("") + arg))
  {
    if arg == [] {
      EmptyQuoteLex(t, word);
    } else if NeedsQuoting(arg) {
      QuotedArgLex(arg, t, word);
    } else {
      PlainLex(arg, t, word);
    }
  }

  /** `''` reads as an empty piece of the word. */
  lemma EmptyQuoteLex(t: String, word: Option<String>)
    ensures Lex(ShellQuote("") + t, word) == Lex(t, Some(word.GetOr("") + ""))
  {
    var s := "''" + t;
    assert ShellQuote("") + t == s;
    LexQuoteStep(s, word);
    assert s[1..] == "'" + t;
    InQuotesCloseStep(s[1..], word.GetOr(""));
    assert s[1..][1..] == t;
    assert word.GetOr("") + "" == word.GetOr("");
  }

  /** An argument that needs quoting reads back from its quoted form. */
  lemma QuotedArgLex(arg: String, t: String, word: Option<String>)
    requires arg != [] && NeedsQuoting(arg)
    ensures Lex(ShellQuote(arg) + t, word) == Lex(t, Some(word.GetOr("") + arg))
  {
    var body := QuoteBody(arg) + "'" + t;
    QuotedShape(QuoteBody(arg), t);
    LexQuoteStep("'" + body, word);
    QuotedLex(arg, t, word.GetOr(""));
  }

  lemma QuotedShape(b: String, t: String)
    ensures "'" + b + "'" + t == "'" + (b + "'" + t)
    ensures ("'" + (b + "'" + t))[1..] == b + "'" + t
  {
  }

  /** Round trip: the shell reads a quoted safe argument back as that one word. */
  lemma ShellQuoteRoundTrip(arg: String)
    requires Safe(arg)
    ensures Lex(ShellQuote(arg), None) == Some([arg])
  {
    QuoteLex(arg, "", None);
    assert ShellQuote(arg) + "" == ShellQuote(arg);
    assert "" + arg == arg;
    LexEndStep("", Some(arg));
    EndWordSingle(arg);
  }

  /** No word the shell reads from `s` after `word` is longer than the two together. */
  lemma {:induction false} LexBound(s: String, word: Option<String>)
    ensures Lex(s, word).Some? ==> forall x :: x in Lex(s, word).value ==> |x| <= |word.GetOr("")| + |s|
    decreases |s|, 1
  {
    if s == [] || s[0] == ';' {
    } else if s[0] == ' ' || s[0] == '\t' {
      LexBound(s[1..], None);
    } else if s[0] == '\'' {
      InQuotesBound(s[1..], word.GetOr(""));
    } else if s[0] == '\\' {
      if |s| > 1 {
        LexBound(s[2..], if s[1] == '\n' then word else Some(word.GetOr("") + [s[1]]));
      }
    } else if !ShellSpecial(s[0]) {
      LexBound(s[1..], Some(word.GetOr("") + [s[0]]));
    }
  }

  lemma {:induction false} InQuotesBound(s: String, w: String)
    ensures InQuotes(s, w).Some? ==> forall x :: x in InQuotes(s, w).value ==> |x| < |w| + |s|
    decreases |s|, 0
  {
    if s != [] {
      if s[0] == '\'' {
        LexBound(s[1..], Some(w));
      } else {
        InQuotesBound(s[1..], w + [s[0]]);
      }
    }
  }

  lemma {:induction false} UnsafeLex(s: String, word: Option<String>)
    requires s != [] && !NeedsQuoting(s)
    requires exists i :: 0 <= i < |s| && ShellSpecial(s[i])
    ensures Lex(s, word) != Some([word.GetOr("") + s])
    decreases |s|
  {
    var w := word.GetOr("");
    if s[0] == ';' {
      LexEndStep(s, word);
      if word.Some? {
        EndWordSingle(w);
      }
      assert |w + s| > |w|;
    } else if s[0] == '\\' {
      if |s| > 1 {
        assert s[1] in s;
        LexBound(s[2..], Some(w + [s[1]]));
        assert w + s in [w + s];
      }
    } else if !ShellSpecial(s[0]) {
      assert s[0] != ' ' && s[0] != '\t' && s[0] != '\'';
      var i :| 0 <= i < |s| && ShellSpecial(s[i]);
      assert s[1..][i - 1] == s[i];
      assert forall x :: x in s[1..] ==> x in s;
      UnsafeLex(s[1..], Some(w + [s[0]]));
      assert w + [s[0]] + s[1..] == w + s;
    }
  }

  /**
   * An unquoted argument with a character the shell interprets does not
   * come back: with Safe, this makes the round trip an if-and-only-if.
   */
  lemma UnsafeNotRoundTrip(arg: String)
    requires !Safe(arg)
    ensures Lex(ShellQuote(arg), None) != Some([arg])
  {
    assert exists i :: 0 <= i < |arg| && ShellSpecial(arg[i]);
    UnsafeLex(arg, None);
    assert "" + arg == arg;
  }

  // ---------------------------------------------------------------- shellQuoteArguments

  function QuoteAll(args: seq<String>): (r: seq<String>)
    ensures |r| == |args| && forall i :: 0 <= i < |args| ==> r[i] == ShellQuote(args[i])
  {
    seq(|args|, i requires 0 <= i < |args| => ShellQuote(args[i]))
  }

  /** shellQuoteArguments: the quoted arguments, one per argument, in order. */
  method ShellQuoteArguments(args: seq<String>) returns (quoted: seq<String>)
    ensures quoted == QuoteAll(args)
  {
    quoted := [];
    for i := 0 to |args|
      invariant quoted == QuoteAll(args[..i])
    {
      var q := ShellQuoteArgument(args[i]);
      quoted := quoted + [q];
    }
    assert args[..|args|] == args;
  }

  predicate AllSafe(args: seq<String>) {
    forall i :: 0 <= i < |args| ==> Safe(args[i])
  }

  /**
   * The quoted arguments joined by single spaces, then ended by `;` or the
   * end of the text, read back as exactly the arguments.
   */
  /** A quoted argument followed by a space is a whole word. */
  lemma QuotedWordLex(a: String, tail: String)
    requires Safe(a)
    ensures Lex(ShellQuote(a) + (" " + tail), None) == EndWord(Some(a), Lex(tail, None))
  {
    var after := " " + tail;
    QuoteLex(a, after, None);
    assert "" + a == a;
    LexBlankStep(after, Some(a));
    assert after[1..] == tail;
  }

  lemma {:induction false} JoinLex(args: seq<String>, t: String)
    requires args != [] && AllSafe(args)
    requires t == [] || t[0] == ';'
    ensures Lex(Join(QuoteAll(args), " ") + t, None) == Some(args)
    decreases |args|
  {
    var a := args[0];
    if |args| == 1 {
      assert Join(QuoteAll(args), " ") == ShellQuote(a);
      LastWordLex(a, t);
      assert args == [a];
    } else {
      var rest := Join(QuoteAll(args[1..]), " ");
      JoinQuotedFront(args, t);
      QuotedWordLex(a, rest + t);
      JoinLex(args[1..], t);
      assert [a] + args[1..] == args;
    }
  }

  /** A quoted argument at the end of the command is its last word. */
  lemma LastWordLex(a: String, t: String)
    requires Safe(a)
    requires t == [] || t[0] == ';'
    ensures Lex(ShellQuote(a) + t, None) == Some([a])
  {
    QuoteLex(a, t, None);
    assert "" + a == a;
    LexEndStep(t, Some(a));
    EndWordSingle(a);
  }

  lemma JoinQuotedFront(args: seq<String>, t: String)
    requires |args| >= 2
    ensures Join(QuoteAll(args), " ") + t == ShellQuote(args[0]) + (" " + (Join(QuoteAll(args[1..]), " ") + t))
  {
    var q := QuoteAll(args);
    var j := Join(QuoteAll(args[1..]), " ");
    assert q[1..] == QuoteAll(args[1..]);
    assert Join(q, " ") == q[0] + " " + j;
    assert q[0] + " " + j + t == q[0] + (" " + (j + t));
  }

  // ---------------------------------------------------------------- launchInTerminal

  /** The terminal emulators launchInTerminal tries, in order. */
  const TERMINALS: seq<String> :=
    ["konsole", "gnome-terminal", "alacritty", "xfce4-terminal", "mate-terminal", "lxterminal", "xterm", "urxvt", "st"]

  /** Appended to the command so that the terminal waits for Enter before it closes. */
  const COMPLETION_MESSAGE: String :=
    ";" + " echo ''; " + "echo '===================='; " + "echo 'Update completed!'; " +
    "echo 'Press Enter to close this window...'; " + "echo '===================='; " +
    "read -r; exit"

  /** The command line the terminal's shell runs: the quoted command and arguments, then the completion message. */
  function FullCommand(command: String, args: seq<String>): String {
    Join(QuoteAll([command] + args), " ") + COMPLETION_MESSAGE
  }

  /** gnome-terminal takes `--` before the program; every other terminal takes `-e`. */
  function TerminalArgs(terminal: String, fullCommand: String): (r: seq<String>)
    ensures |r| == 4 && r[1..] == ["bash", "-c", fullCommand]
    ensures r[0] == (if terminal == "gnome-terminal" then "--" else "-e")
  {
    [if terminal == "gnome-terminal" then "--" else "-e", "bash", "-c", fullCommand]
  }

  /** The terminal is installed (`found`) and starts with its arguments (`starts`). */
  predicate Launches(terminal: String, fullCommand: String, found: String -> bool,
                     starts: (String, seq<String>) -> bool) {
    found(terminal) && starts(terminal, TerminalArgs(terminal, fullCommand))
  }

  /** The first terminal of the list that launches. */
  function FirstTerminal(terminals: seq<String>, fullCommand: String, found: String -> bool,
                         starts: (String, seq<String>) -> bool): Option<String>
    decreases |terminals|
  {
    if terminals == [] then None
    else if Launches(terminals[0], fullCommand, found, starts) then Some(terminals[0])
    else FirstTerminal(terminals[1..], fullCommand, found, starts)
  }

  /** Terminal `k` launches and none before it does. */
  predicate FirstLaunching(terminals: seq<String>, k: int, fullCommand: String, found: String -> bool,
                           starts: (String, seq<String>) -> bool) {
    0 <= k < |terminals| && Launches(terminals[k], fullCommand, found, starts) &&
    forall j :: 0 <= j < k ==> !Launches(terminals[j], fullCommand, found, starts)
  }

  /** FirstTerminal finds the earliest terminal that launches, and None exactly when none does. */
  lemma {:induction false} FirstTerminalIsFirst(terminals: seq<String>, fullCommand: String, found: String -> bool,
                                                starts: (String, seq<String>) -> bool)
    ensures var r := FirstTerminal(terminals, fullCommand, found, starts);
      (r.None? <==> forall k :: 0 <= k < |terminals| ==> !Launches(terminals[k], fullCommand, found, starts)) &&
      (r.Some? ==> exists k :: FirstLaunching(terminals, k, fullCommand, found, starts) && r.value == terminals[k])
    decreases |terminals|
  {
    if terminals != [] && !Launches(terminals[0], fullCommand, found, starts) {
      var rest := terminals[1..];
      FirstTerminalIsFirst(rest, fullCommand, found, starts);
      var r := FirstTerminal(rest, fullCommand, found, starts);
      if r.Some? {
        var k :| FirstLaunching(rest, k, fullCommand, found, starts) && r.value == rest[k];
        assert terminals[k + 1] == rest[k];
        assert forall j :: 1 <= j < k + 1 ==> terminals[j] == rest[j - 1];
        assert FirstLaunching(terminals, k + 1, fullCommand, found, starts);
      } else {
        assert forall k :: 1 <= k < |terminals| ==> terminals[k] == rest[k - 1];
      }
    } else if terminals != [] {
      assert FirstLaunching(terminals, 0, fullCommand, found, starts);
    }
  }

  /**
   * launchInTerminal: tries the terminals in order and stops at the first
   * that starts; the result names it (the source returns whether there was
   * one).
   */
  method LaunchInTerminal(command: String, args: seq<String>, found: String -> bool,
                          starts: (String, seq<String>) -> bool) returns (started: Option<String>)
    ensures started == FirstTerminal(TERMINALS, FullCommand(command, args), found, starts)
  {
    var fullParts := ShellQuoteArguments([command] + args);
    var fullCommand := Join(fullParts, " ") + COMPLETION_MESSAGE;
    var terminals := TERMINALS;
    for i := 0 to |terminals|
      invariant FirstTerminal(terminals[i..], fullCommand, found, starts) == FirstTerminal(terminals, fullCommand, found, starts)
    {
      assert terminals[i..][0] == terminals[i] && terminals[i..][1..] == terminals[i + 1..];
      var terminalArgs := TerminalArgs(terminals[i], fullCommand);
      if found(terminals[i]) && starts(terminals[i], terminalArgs) {
        return Some(terminals[i]);
      }
    }
    assert terminals[|terminals|..] == [];
    return None;
  }

  /** The terminal's shell runs the command with exactly the given arguments, when they are all safe. */
  lemma FullCommandWords(command: String, args: seq<String>)
    requires AllSafe([command] + args)
    ensures Lex(FullCommand(command, args), None) == Some([command] + args)
  {
    assert COMPLETION_MESSAGE[0] == ';';
    JoinLex([command] + args, COMPLETION_MESSAGE);
  }

  // ---------------------------------------------------------------- the upgrade command

  const SCRIPT_HEAD: String := "echo 'Upgrading repository packages...'; " + "echo 'Command: "
  const MIXED_THEN: String :=
    ";" + " if [ $? -eq 0 ]; then " +
    "  echo ''; " + "echo '===================='; " +
    "echo 'Repository update completed! " + "Continuing with AUR updates...'; " +
    "echo '===================='; " + "echo ''; " +
    "  echo 'Upgrading AUR packages...'; " +
    "  echo 'Command: "
  const MIXED_TAIL: String :=
    ";" + "   echo ''; " + "echo '===================='; " + "echo 'Update completed!'; " +
    "echo 'Press Enter to close this window...'; " + "echo '===================='; " + "read -r; exit; " +
    "else " +
    "  echo ''; " + "echo '===================='; " + "echo 'Repository package upgrade failed. Stopping.'; " +
    "echo 'Press Enter to close this window...'; " + "echo '===================='; " + "read -r; exit 1; " +
    "fi"

  /** `sudo pacman -S` with the quoted repository packages. */
  function PacmanCommand(repo: seq<String>): String {
    "sudo pacman -S " + Join(QuoteAll(repo), " ")
  }

  /** The quoted AUR helper with the quoted AUR packages. */
  function AurCommand(helper: String, aur: seq<String>): String {
    ShellQuote(helper) + " " + Join(QuoteAll(aur), " ")
  }

  /** The repository-only script: announce the command, then run it. */
  function RepoScript(repo: seq<String>): String {
    SCRIPT_HEAD + ShellQuote(PacmanCommand(repo)) + "'; " + PacmanCommand(repo)
  }

  /** The text of the mixed script after the pacman command: the exit-code test and the AUR part. */
  function MixedAfterRepo(helper: String, aur: seq<String>): String {
    MIXED_THEN + ShellQuote(AurCommand(helper, aur)) + "';   " + AurCommand(helper, aur) + MIXED_TAIL
  }

  /** The mixed script: pacman first, then the AUR helper only when pacman exits 0. */
  function MixedScript(repo: seq<String>, helper: String, aur: seq<String>): String {
    RepoScript(repo) + MixedAfterRepo(helper, aur)
  }

  /** The AUR helper: the setting when it is not empty, else the detected one, else none. */
  function AurHelper(setting: String, detected: String): (r: Option<String>)
    ensures r.Some? ==> r.value != ""
    ensures r.None? <==> setting == "" && detected == ""
  {
    if setting != "" then Some(setting) else if detected != "" then Some(detected) else None
  }

  /** The command upgrade chooses for a selection, before any command line is built. */
  datatype Plan =
    | NothingSelected
    | NoAurHelper
    | RepoOnly(repo: seq<String>)
    | AurOnly(helper: String, aur: seq<String>)
    | Mixed(repo: seq<String>, helper: String, aur: seq<String>)

  /**
   * The choice upgrade makes: nothing without a selection; a missing AUR
   * helper stops it only when AUR packages are selected; otherwise the
   * repository packages, the AUR packages, or both in sequence.
   */
  function UpgradePlan(repo: seq<String>, aur: seq<String>, setting: String, detected: String): (p: Plan)
    ensures p == NothingSelected <==> repo == [] && aur == []
    ensures p == NoAurHelper <==> aur != [] && AurHelper(setting, detected).None?
    ensures p.RepoOnly? <==> repo != [] && aur == []
    ensures p.AurOnly? <==> repo == [] && aur != [] && AurHelper(setting, detected).Some?
    ensures p.Mixed? <==> repo != [] && aur != [] && AurHelper(setting, detected).Some?
    ensures (p.RepoOnly? || p.Mixed?) ==> p.repo == repo
    ensures (p.AurOnly? || p.Mixed?) ==> p.aur == aur && Some(p.helper) == AurHelper(setting, detected)
  {
    if repo == [] && aur == [] then NothingSelected
    else if aur == [] then RepoOnly(repo)
    else match AurHelper(setting, detected)
      case None => NoAurHelper
      case Some(helper) => if repo == [] then AurOnly(helper, aur) else Mixed(repo, helper, aur)
  }

  predicate Launching(plan: Plan) {
    plan.RepoOnly? || plan.AurOnly? || plan.Mixed?
  }

  /**
   * The program and arguments handed to the terminal: `bash -c` with the
   * repository or mixed script, or the AUR helper with the raw package
   * names.
   */
  function PlanCommand(plan: Plan): (String, seq<String>)
    requires Launching(plan)
  {
    match plan
    case RepoOnly(repo) => ("bash", ["-c", RepoScript(repo)])
    case AurOnly(helper, aur) => (helper, aur)
    case Mixed(repo, helper, aur) => ("bash", ["-c", MixedScript(repo, helper, aur)])
  }

  lemma PrefixChar(a: String, b: String, i: nat)
    requires i < |a|
    ensures i < |a + b| && (a + b)[i] == a[i]
  {
  }

  lemma SpacedSafe(x: String, i: nat)
    requires i < |x| && x[i] == ' '
    ensures Safe(x)
  {
  }

  lemma HeadSpace(x: String)
    ensures |SCRIPT_HEAD + x| > 4 && (SCRIPT_HEAD + x)[4] == ' '
  {
    PrefixChar(SCRIPT_HEAD, x, 4);
  }

  /** A text with a space at position 4 is safe, and so is anything it starts. */
  lemma SpacedPrefixSafe(a: String, b: String)
    requires |a| > 4 && a[4] == ' '
    ensures Safe(a) && Safe(a + b)
  {
    PrefixChar(a, b, 4);
    SpacedSafe(a, 4);
    SpacedSafe(a + b, 4);
  }

  lemma RepoScriptSpace(repo: seq<String>)
    ensures |RepoScript(repo)| > 4 && RepoScript(repo)[4] == ' '
  {
    var pacman := PacmanCommand(repo);
    HeadSpace(ShellQuote(pacman) + "'; " + pacman);
    assert RepoScript(repo) == SCRIPT_HEAD + (ShellQuote(pacman) + "'; " + pacman);
  }

  /** The scripts contain spaces, so they are quoted and survive the terminal's shell as one word. */
  lemma RepoScriptSafe(repo: seq<String>)
    ensures Safe(RepoScript(repo))
  {
    RepoScriptSpace(repo);
    SpacedSafe(RepoScript(repo), 4);
  }

  lemma MixedScriptSafe(repo: seq<String>, helper: String, aur: seq<String>)
    ensures Safe(MixedScript(repo, helper, aur))
  {
    RepoScriptSpace(repo);
    SpacedPrefixSafe(RepoScript(repo), MixedAfterRepo(helper, aur));
  }

  /**
   * The shell inside the terminal runs exactly the planned program with the
   * planned arguments: always for the bash scripts, and for the AUR-only
   * plan when the helper and package names have no shell-special
   * characters.
   */
  lemma PlanCommandWords(plan: Plan)
    requires Launching(plan)
    requires plan.AurOnly? ==> AllSafe([plan.helper] + plan.aur)
    ensures Lex(FullCommand(PlanCommand(plan).0, PlanCommand(plan).1), None) ==
      Some([PlanCommand(plan).0] + PlanCommand(plan).1)
  {
    var command := PlanCommand(plan);
    PlanCommandSafe(plan);
    FullCommandWords(command.0, command.1);
  }

  /** No word of a launched plan's command needs quoting for the terminal's shell. */
  lemma PlanCommandSafe(plan: Plan)
    requires Launching(plan)
    requires plan.AurOnly? ==> AllSafe([plan.helper] + plan.aur)
    ensures AllSafe([PlanCommand(plan).0] + PlanCommand(plan).1)
  {
    match plan
    case RepoOnly(repo) =>
      RepoScriptSafe(repo);
      BashCommandSafe(RepoScript(repo));
    case Mixed(repo, helper, aur) =>
      MixedScriptSafe(repo, helper, aur);
      BashCommandSafe(MixedScript(repo, helper, aur));
    case AurOnly(_, _) =>
  }

  /** `bash -c` with a safe script. */
  lemma BashCommandSafe(script: String)
    requires Safe(script)
    ensures AllSafe(["bash"] + ["-c", script])
  {
    assert forall i :: 0 <= i < |"bash"| ==> !ShellSpecial("bash"[i]);
    assert forall i :: 0 <= i < |"-c"| ==> !ShellSpecial("-c"[i]);
    var words := ["bash"] + ["-c", script];
    assert words[0] == "bash" && words[1] == "-c" && words[2] == script;
  }

  lemma PacmanWordsPlain()
    ensures Safe("sudo") && Safe("pacman") && Safe("-S")
    ensures ShellQuote("sudo") == "sudo" && ShellQuote("pacman") == "pacman" && ShellQuote("-S") == "-S"
  {
    assert !NeedsQuoting("sudo") && !NeedsQuoting("pacman") && !NeedsQuoting("-S");
    assert forall i :: 0 <= i < |"sudo"| ==> !ShellSpecial("sudo"[i]);
    assert forall i :: 0 <= i < |"pacman"| ==> !ShellSpecial("pacman"[i]);
    assert forall i :: 0 <= i < |"-S"| ==> !ShellSpecial("-S"[i]);
  }

  lemma JoinFront(x: String, rest: seq<String>, sep: String)
    requires rest != []
    ensures Join([x] + rest, sep) == x + sep + Join(rest, sep)
  {
    assert ([x] + rest)[1..] == rest;
  }

  lemma PacmanPrefixSplit(x: String)
    ensures "sudo pacman -S " + x == "sudo" + " " + ("pacman" + " " + ("-S" + " " + x))
  {
    assert "sudo pacman -S " == "sudo" + " " + "pacman" + " " + "-S" + " ";
  }

  lemma QuoteAllFront(x: String, rest: seq<String>)
    ensures QuoteAll([x] + rest) == [ShellQuote(x)] + QuoteAll(rest)
  {
  }

  /** Three words that quote as themselves, then quoted arguments, joined by spaces. */
  lemma PlainPrefixJoin(a: String, b: String, c: String, args: seq<String>)
    requires args != [] && ShellQuote(a) == a && ShellQuote(b) == b && ShellQuote(c) == c
    ensures Join(QuoteAll([a, b, c] + args), " ") == a + " " + (b + " " + (c + " " + Join(QuoteAll(args), " ")))
  {
    var q := QuoteAll(args);
    assert [a, b, c] + args == [a] + ([b] + ([c] + args));
    QuoteAllFront(c, args);
    QuoteAllFront(b, [c] + args);
    QuoteAllFront(a, [b] + ([c] + args));
    JoinFront(c, q, " ");
    JoinFront(b, [c] + q, " ");
    JoinFront(a, [b] + ([c] + q), " ");
  }

  /** The pacman command is the three plain words and the quoted packages, joined by spaces. */
  lemma PacmanCommandJoin(repo: seq<String>)
    requires repo != []
    ensures PacmanCommand(repo) == Join(QuoteAll(["sudo", "pacman", "-S"] + repo), " ")
  {
    PacmanWordsPlain();
    PlainPrefixJoin("sudo", "pacman", "-S", repo);
    PacmanPrefixSplit(Join(QuoteAll(repo), " "));
  }

  /** `sudo pacman -S` reads back as that command with exactly the selected packages. */
  lemma PacmanCommandWords(repo: seq<String>, t: String)
    requires repo != [] && AllSafe(repo)
    requires t == [] || t[0] == ';'
    ensures Lex(PacmanCommand(repo) + t, None) == Some(["sudo", "pacman", "-S"] + repo)
  {
    var words := ["sudo", "pacman", "-S"] + repo;
    PacmanCommandJoin(repo);
    PacmanWordsPlain();
    assert AllSafe(words);
    JoinLex(words, t);
  }

  /** The AUR command reads back as the helper with exactly the selected packages. */
  lemma AurCommandWords(helper: String, aur: seq<String>, t: String)
    requires aur != [] && AllSafe([helper] + aur)
    requires t == [] || t[0] == ';'
    ensures Lex(AurCommand(helper, aur) + t, None) == Some([helper] + aur)
  {
    AurCommandJoin(helper, aur);
    JoinLex([helper] + aur, t);
  }

  /** The AUR command is the quoted helper and packages joined by spaces. */
  lemma AurCommandJoin(helper: String, aur: seq<String>)
    requires aur != []
    ensures Join(QuoteAll([helper] + aur), " ") == AurCommand(helper, aur)
  {
    var q := QuoteAll([helper] + aur);
    assert q[1..] == QuoteAll(aur);
  }

  /**
   * In the mixed script, pacman runs with the repository packages, and the
   * AUR command (reached only when pacman exits 0) runs the helper with the
   * AUR packages.
   */
  lemma MixedScriptWords(repo: seq<String>, helper: String, aur: seq<String>)
    requires repo != [] && AllSafe(repo) && aur != [] && AllSafe([helper] + aur)
    ensures Lex(PacmanCommand(repo) + MixedAfterRepo(helper, aur), None) == Some(["sudo", "pacman", "-S"] + repo)
    ensures Lex(AurCommand(helper, aur) + MIXED_TAIL, None) == Some([helper] + aur)
  {
    MixedPiecesStart(helper, aur);
    PacmanCommandWords(repo, MixedAfterRepo(helper, aur));
    AurCommandWords(helper, aur, MIXED_TAIL);
  }

  lemma MixedPiecesStart(helper: String, aur: seq<String>)
    ensures MixedAfterRepo(helper, aur) != [] && MixedAfterRepo(helper, aur)[0] == ';'
    ensures MIXED_TAIL != [] && MIXED_TAIL[0] == ';'
  {
  }

  // ---------------------------------------------------------------- the selection tree

  /** The package name in an item's text: the text before its first space, or all of it. */
  function PackageName(text: String): (r: String)
    ensures r <= text && ' ' !in r
    ensures ' ' !in text <==> r == text
    ensures ' ' in text ==> text[|r|] == ' '
  {
    assert ' ' !in text ==> Find(text, ' ') == |text|;
    Before(text, ' ')
  }

  /** The branch an item belongs to; its item type is `repo_...` or `aur_...`. */
  datatype Source = Repo | Aur

  /** A package item: its text (an update line) and its check mark. */
  datatype Leaf = Leaf(text: String, checked: bool)

  /** A branch item with its package items, in display order. */
  datatype Branch = Branch(source: Source, text: String, checked: bool, children: seq<Leaf>)

  /** The top-level items of the tree, in display order. */
  type Tree = seq<Branch>

  /** An item of the tree: branch `b`, or package `p` of branch `b`. */
  datatype ItemRef = BranchItem(b: nat) | PackageItem(b: nat, p: nat)

  predicate ValidRef(tree: Tree, item: ItemRef) {
    match item
    case BranchItem(b) => b < |tree|
    case PackageItem(b, p) => b < |tree| && p < |tree[b].children|
  }

  predicate AllChecked(leaves: seq<Leaf>) {
    forall i :: 0 <= i < |leaves| ==> leaves[i].checked
  }

  /** Every package item of the tree is checked (branch items do not matter). */
  predicate AllPackagesChecked(tree: Tree) {
    forall b, p :: 0 <= b < |tree| && 0 <= p < |tree[b].children| ==> tree[b].children[p].checked
  }

  /** The package names of the checked items, in order. */
  function Picked(leaves: seq<Leaf>): seq<String>
    decreases |leaves|
  {
    if leaves == [] then []
    else
      var last := leaves[|leaves| - 1];
      Picked(leaves[..|leaves| - 1]) + (if last.checked then [PackageName(last.text)] else [])
  }

  /** The package names of all items, in order. */
  function Names(leaves: seq<Leaf>): seq<String> {
    seq(|leaves|, i requires 0 <= i < |leaves| => PackageName(leaves[i].text))
  }

  /** What upgrade collects for one source: the checked packages of its branches, in tree order. */
  function Selection(tree: Tree, source: Source): seq<String>
    decreases |tree|
  {
    if tree == [] then []
    else
      var last := tree[|tree| - 1];
      Selection(tree[..|tree| - 1], source) + (if last.source == source then Picked(last.children) else [])
  }

  /** The names of every package of one source, checked or not. */
  function PackageNames(tree: Tree, source: Source): seq<String>
    decreases |tree|
  {
    if tree == [] then []
    else
      var last := tree[|tree| - 1];
      PackageNames(tree[..|tree| - 1], source) + (if last.source == source then Names(last.children) else [])
  }

  /** Picked holds a name exactly when some checked item carries it. */
  lemma {:induction false} PickedMembers(leaves: seq<Leaf>, name: String)
    ensures name in Picked(leaves) <==>
      exists p :: 0 <= p < |leaves| && leaves[p].checked && PackageName(leaves[p].text) == name
    decreases |leaves|
  {
    if leaves != [] {
      var init := leaves[..|leaves| - 1];
      PickedMembers(init, name);
      assert forall p :: 0 <= p < |init| ==> init[p] == leaves[p];
      if exists p :: 0 <= p < |leaves| && leaves[p].checked && PackageName(leaves[p].text) == name {
        var p :| 0 <= p < |leaves| && leaves[p].checked && PackageName(leaves[p].text) == name;
        if p < |init| {
          assert init[p] == leaves[p];
        }
      }
    }
  }

  /** With every item checked all names are picked; with none checked, none is. */
  lemma {:induction false} PickedUniform(leaves: seq<Leaf>)
    ensures AllChecked(leaves) ==> Picked(leaves) == Names(leaves)
    ensures (forall i :: 0 <= i < |leaves| ==> !leaves[i].checked) ==> Picked(leaves) == []
    decreases |leaves|
  {
    if leaves != [] {
      var init := leaves[..|leaves| - 1];
      PickedUniform(init);
      assert Names(leaves) == Names(init) + [PackageName(leaves[|leaves| - 1].text)];
    }
  }

  // ---------------------------------------------------------------- check-state changes

  function MarkLeaves(leaves: seq<Leaf>, checked: bool): seq<Leaf> {
    seq(|leaves|, i requires 0 <= i < |leaves| => leaves[i].(checked := checked))
  }

  /** onSelectAllToggled: every branch and package item takes the given state. */
  function Marked(tree: Tree, checked: bool): Tree {
    seq(|tree|, b requires 0 <= b < |tree| => tree[b].(checked := checked, children := MarkLeaves(tree[b].children, checked)))
  }

  /** Two trees with the same items, texts and sources, whatever their check marks. */
  predicate SameShape(t: Tree, u: Tree) {
    |t| == |u| &&
    forall b :: 0 <= b < |t| ==>
      t[b].source == u[b].source && t[b].text == u[b].text && |t[b].children| == |u[b].children| &&
      forall p :: 0 <= p < |t[b].children| ==> t[b].children[p].text == u[b].children[p].text
  }

  /**
   * Select All changes check marks only; afterwards every package is
   * checked exactly when the box was checked (or there is no package).
   */
  lemma MarkedChecks(tree: Tree, checked: bool)
    ensures SameShape(Marked(tree, checked), tree)
    ensures forall b :: 0 <= b < |tree| ==> Marked(tree, checked)[b].checked == checked
    ensures AllPackagesChecked(Marked(tree, checked)) <==>
      checked || forall b :: 0 <= b < |tree| ==> tree[b].children == []
  {
    var m := Marked(tree, checked);
    if !checked && exists b :: 0 <= b < |tree| && tree[b].children != [] {
      var b :| 0 <= b < |tree| && tree[b].children != [];
      assert !m[b].children[0].checked;
    }
  }

  lemma MarkedInit(tree: Tree, checked: bool)
    requires tree != []
    ensures Marked(tree, checked)[..|tree| - 1] == Marked(tree[..|tree| - 1], checked)
    ensures Marked(tree, checked)[|tree| - 1].source == tree[|tree| - 1].source
    ensures Marked(tree, checked)[|tree| - 1].children == MarkLeaves(tree[|tree| - 1].children, checked)
  {
  }

  /** Collecting right after checking Select All gives every package. */
  lemma {:induction false} MarkedSelectsAll(tree: Tree, source: Source)
    ensures Selection(Marked(tree, true), source) == PackageNames(tree, source)
    decreases |tree|
  {
    if tree != [] {
      var last := tree[|tree| - 1];
      MarkedSelectsAll(tree[..|tree| - 1], source);
      MarkedInit(tree, true);
      PickedUniform(MarkLeaves(last.children, true));
      assert Names(MarkLeaves(last.children, true)) == Names(last.children);
    }
  }

  /** Collecting right after clearing Select All gives nothing. */
  lemma {:induction false} MarkedSelectsNone(tree: Tree, source: Source)
    ensures Selection(Marked(tree, false), source) == []
    decreases |tree|
  {
    if tree != [] {
      var last := tree[|tree| - 1];
      MarkedSelectsNone(tree[..|tree| - 1], source);
      MarkedInit(tree, false);
      PickedUniform(MarkLeaves(last.children, false));
    }
  }

  /**
   * onTreeItemChanged for an unsuppressed change in column 0: a branch
   * copies its state to its packages; a package sets its branch to
   * checked exactly when all the branch's packages are checked.
   */
  function ItemChanged(tree: Tree, item: ItemRef): Tree
    requires ValidRef(tree, item)
  {
    match item
    case BranchItem(b) => tree[b := tree[b].(children := MarkLeaves(tree[b].children, tree[b].checked))]
    case PackageItem(b, _) => tree[b := tree[b].(checked := AllChecked(tree[b].children))]
  }

  /** After a branch changes, its packages all have its state; nothing else changes. */
  lemma ItemChangedBranch(tree: Tree, b: nat)
    requires b < |tree|
    ensures var t := ItemChanged(tree, BranchItem(b));
      SameShape(t, tree) && t[b].checked == tree[b].checked &&
      (forall p :: 0 <= p < |t[b].children| ==> t[b].children[p].checked == tree[b].checked) &&
      (forall i :: 0 <= i < |tree| && i != b ==> t[i] == tree[i])
  {
  }

  /** After a package changes, its branch is checked iff all its packages are; the packages stay as they are. */
  lemma ItemChangedPackage(tree: Tree, b: nat, p: nat)
    requires b < |tree| && p < |tree[b].children|
    ensures var t := ItemChanged(tree, PackageItem(b, p));
      SameShape(t, tree) && t[b].children == tree[b].children &&
      (t[b].checked <==> forall q :: 0 <= q < |tree[b].children| ==> tree[b].children[q].checked) &&
      (forall i :: 0 <= i < |tree| && i != b ==> t[i] == tree[i])
  {
  }

  function CheckedAt(tree: Tree, item: ItemRef): bool
    requires ValidRef(tree, item)
  {
    match item
    case BranchItem(b) => tree[b].checked
    case PackageItem(b, p) => tree[b].children[p].checked
  }

  /** The item's check mark set to `checked`, as a click does before Qt reports the change. */
  function SetCheck(tree: Tree, item: ItemRef, checked: bool): Tree
    requires ValidRef(tree, item)
  {
    match item
    case BranchItem(b) => tree[b := tree[b].(checked := checked)]
    case PackageItem(b, p) => tree[b := tree[b].(children := tree[b].children[p := tree[b].children[p].(checked := checked)])]
  }

  /** Clicking a branch gives the branch and all its packages the new state. */
  lemma ClickBranch(tree: Tree, b: nat, checked: bool)
    requires b < |tree|
    ensures var t := ItemChanged(SetCheck(tree, BranchItem(b), checked), BranchItem(b));
      SameShape(t, tree) && t[b].checked == checked &&
      forall p :: 0 <= p < |t[b].children| ==> t[b].children[p].checked == checked
  {
    ItemChangedBranch(SetCheck(tree, BranchItem(b), checked), b);
  }

  /** Clicking a package gives it the new state, and its branch is checked iff all its siblings now are. */
  lemma ClickPackage(tree: Tree, b: nat, p: nat, checked: bool)
    requires b < |tree| && p < |tree[b].children|
    ensures var t := ItemChanged(SetCheck(tree, PackageItem(b, p), checked), PackageItem(b, p));
      SameShape(t, tree) && t[b].children[p].checked == checked &&
      (forall q :: 0 <= q < |tree[b].children| && q != p ==> t[b].children[q] == tree[b].children[q]) &&
      (t[b].checked <==> checked && forall q :: 0 <= q < |tree[b].children| && q != p ==> tree[b].children[q].checked)
  {
    var s := SetCheck(tree, PackageItem(b, p), checked);
    ItemChangedPackage(s, b, p);
    assert forall q :: 0 <= q < |tree[b].children| && q != p ==> s[b].children[q] == tree[b].children[q];
  }

  /** The scan for the Select All box: true iff every package item is checked. */
  method ScanAllChecked(tree: Tree) returns (allChecked: bool)
    ensures allChecked == AllPackagesChecked(tree)
  {
    allChecked := true;
    var b := 0;
    while b < |tree| && allChecked
      invariant 0 <= b <= |tree|
      invariant allChecked == forall i, j :: 0 <= i < b && 0 <= j < |tree[i].children| ==> tree[i].children[j].checked
    {
      var children := tree[b].children;
      var p := 0;
      while p < |children| && allChecked
        invariant 0 <= p <= |children|
        invariant allChecked == forall j :: 0 <= j < p ==> children[j].checked
      {
        if !children[p].checked {
          allChecked := false;
        }
        p := p + 1;
      }
      b := b + 1;
    }
  }

  // ---------------------------------------------------------------- the tree built from a state

  /** The package items made from a JSON array: each element's text, checked. */
  function Leaves(items: seq<Json>): seq<Leaf> {
    seq(|items|, i requires 0 <= i < |items| => Leaf(ToStr(Some(items[i])), true))
  }

  /** The item-creating loop of applyState. */
  method PackageLeaves(items: seq<Json>) returns (leaves: seq<Leaf>)
    ensures leaves == Leaves(items)
  {
    leaves := [];
    for i := 0 to |items|
      invariant leaves == Leaves(items[..i])
    {
      leaves := leaves + [Leaf(ToStr(Some(items[i])), true)];
    }
    assert items[..|items|] == items;
  }

  /** QJsonDocument::object(): the members of an object document, else none. */
  function DocumentObject(doc: Json): Object {
    if doc.JObj? then doc.fields else map[]
  }

  function Counts(state: Object): Object {
    ToObject(Get(state, "counts"))
  }

  function RepoCount(state: Object): int {
    ToInt(Get(Counts(state), "upgrade"))
  }

  function AurCount(state: Object): int {
    ToInt(Get(Counts(state), "aur_upgrade"))
  }

  /** The status line applyState shows. */
  function CountsText(state: Object): String {
    var counts := Counts(state);
    "Upgrades: " + IntToString(RepoCount(state)) + " repo + " + IntToString(AurCount(state)) +
    " AUR (" + IntToString(ToInt(Get(counts, "total_upgrade"))) + " total) | Remove: " +
    IntToString(ToInt(Get(counts, "remove"))) + " | Held: " + IntToString(ToInt(Get(counts, "held")))
  }

  function RepoBranch(state: Object): Branch {
    Branch(Repo, "Official Repository Updates (" + IntToString(RepoCount(state)) + ")", true,
           Leaves(ToArray(Get(state, "packages"))))
  }

  function AurBranch(state: Object): Branch {
    Branch(Aur, "AUR Updates (" + IntToString(AurCount(state)) + ")", true,
           Leaves(ToArray(Get(state, "aur_packages"))))
  }

  /** The tree applyState builds: a repository branch, then an AUR branch, each only when its count is positive. */
  function StateTree(state: Object): Tree {
    (if RepoCount(state) > 0 then [RepoBranch(state)] else []) +
    (if AurCount(state) > 0 then [AurBranch(state)] else [])
  }

  /**
   * The built tree has a repository branch iff `counts.upgrade` > 0 and an
   * AUR branch iff `counts.aur_upgrade` > 0, in that order, one package per
   * element of `packages` / `aur_packages`, and everything checked.
   */
  lemma StateTreeShape(state: Object)
    ensures var t := StateTree(state);
      |t| == (if RepoCount(state) > 0 then 1 else 0) + (if AurCount(state) > 0 then 1 else 0) &&
      (RepoCount(state) > 0 ==> t[0].source == Repo && |t[0].children| == |ToArray(Get(state, "packages"))|) &&
      (AurCount(state) > 0 ==> t[|t| - 1].source == Aur && |t[|t| - 1].children| == |ToArray(Get(state, "aur_packages"))|) &&
      (forall b :: 0 <= b < |t| ==> t[b].checked) &&
      AllPackagesChecked(t)
  {
  }

  lemma NamesOfLeaves(items: seq<Json>)
    ensures Names(Leaves(items)) == seq(|items|, i requires 0 <= i < |items| => PackageName(ToStr(Some(items[i]))))
    ensures AllChecked(Leaves(items))
  {
  }

  lemma SelectionPair(x: Branch, y: Branch, source: Source)
    ensures Selection([x], source) == (if x.source == source then Picked(x.children) else [])
    ensures Selection([x, y], source) == Selection([x], source) + (if y.source == source then Picked(y.children) else [])
  {
    assert [x][..0] == [];
    assert [x, y][..1] == [x];
  }

  /** The selection of a fully checked repository branch and AUR branch, either of them possibly absent. */
  lemma OptionalBranchesSelection(x: Branch, y: Branch, hasX: bool, hasY: bool)
    requires x.source == Repo && y.source == Aur && AllChecked(x.children) && AllChecked(y.children)
    ensures var t := (if hasX then [x] else []) + (if hasY then [y] else []);
      Selection(t, Repo) == (if hasX then Names(x.children) else []) &&
      Selection(t, Aur) == (if hasY then Names(y.children) else [])
  {
    PickedUniform(x.children);
    PickedUniform(y.children);
    SelectionPair(x, y, Repo);
    SelectionPair(x, y, Aur);
    SelectionPair(y, y, Repo);
    SelectionPair(y, y, Aur);
    assert (if hasX then [x] else []) + (if hasY then [y] else []) ==
      if hasX && hasY then [x, y] else if hasX then [x] else if hasY then [y] else [];
  }

  /** Upgrading right after a state arrives selects every listed package, by name. */
  lemma StateTreeSelection(state: Object)
    ensures Selection(StateTree(state), Repo) == (if RepoCount(state) > 0 then Names(Leaves(ToArray(Get(state, "packages")))) else [])
    ensures Selection(StateTree(state), Aur) == (if AurCount(state) > 0 then Names(Leaves(ToArray(Get(state, "aur_packages")))) else [])
  {
    NamesOfLeaves(ToArray(Get(state, "packages")));
    NamesOfLeaves(ToArray(Get(state, "aur_packages")));
    OptionalBranchesSelection(RepoBranch(state), AurBranch(state), RepoCount(state) > 0, AurCount(state) > 0);
  }

  /**
   * The C++ monitor's state shown in this window: a repository branch with
   * one package per update line and no AUR branch, since that monitor
   * writes no `aur_upgrade` count.
   */
  lemma MonitorStateTree(lines: seq<String>, now: int)
    requires 0 < |lines| <= INT_MAX
    ensures var t := StateTree(SystemMonitor.CheckedState(lines, now));
      |t| == 1 && t[0].source == Repo &&
      t[0].text == "Official Repository Updates (" + IntToString(|lines|) + ")" &&
      |t[0].children| == |lines| &&
      forall i :: 0 <= i < |lines| ==> t[0].children[i] == Leaf(lines[i], true)
  {
    var state := SystemMonitor.CheckedState(lines, now);
    SystemMonitor.CheckedStateShape(lines, now);
    assert RepoCount(state) == |lines|;
    assert AurCount(state) == 0;
  }

  lemma SelectionStep(tree: Tree, b: nat, source: Source)
    requires b < |tree|
    ensures Selection(tree[..b + 1], source) ==
      Selection(tree[..b], source) + (if tree[b].source == source then Picked(tree[b].children) else [])
  {
    assert tree[..b + 1][..b] == tree[..b];
  }

  /** The names of the checked items of one branch, in order. */
  method PickLeaves(leaves: seq<Leaf>) returns (names: seq<String>)
    ensures names == Picked(leaves)
  {
    names := [];
    for p := 0 to |leaves|
      invariant names == Picked(leaves[..p])
    {
      assert leaves[..p + 1][..p] == leaves[..p];
      if leaves[p].checked {
        names := names + [PackageName(leaves[p].text)];
      }
    }
    assert leaves[..|leaves|] == leaves;
  }

  /** The tree-building part of applyState: the branches and their package items. */
  method BuildTree(state: Object) returns (items: Tree)
    ensures items == StateTree(state)
  {
    var counts := ToObject(Get(state, "counts"));
    var repoCount := ToInt(Get(counts, "upgrade"));
    var aurCount := ToInt(Get(counts, "aur_upgrade"));
    items := [];
    if repoCount > 0 {
      var leaves := PackageLeaves(ToArray(Get(state, "packages")));
      items := items + [Branch(Repo, "Official Repository Updates (" + IntToString(repoCount) + ")", true, leaves)];
    }
    if aurCount > 0 {
      var leaves := PackageLeaves(ToArray(Get(state, "aur_packages")));
      items := items + [Branch(Aur, "AUR Updates (" + IntToString(aurCount) + ")", true, leaves)];
    }
  }

  /** What upgrade reports. */
  datatype UpgradeOutcome = NoPackagesSelected | AurHelperNotFound | TerminalNotFound | Launched(terminal: String)

  /** What upgrade reports for a plan, given which terminals are installed and start. */
  function PlanOutcome(plan: Plan, found: String -> bool, starts: (String, seq<String>) -> bool): UpgradeOutcome {
    match plan
    case NothingSelected => NoPackagesSelected
    case NoAurHelper => AurHelperNotFound
    case _ =>
      var command := PlanCommand(plan);
      match FirstTerminal(TERMINALS, FullCommand(command.0, command.1), found, starts)
      case None => TerminalNotFound
      case Some(terminal) => Launched(terminal)
  }

  /** The launching part of upgrade: stop without a plan, else run the plan's command in a terminal. */
  method LaunchPlan(plan: Plan, found: String -> bool, starts: (String, seq<String>) -> bool)
    returns (outcome: UpgradeOutcome)
    ensures outcome == PlanOutcome(plan, found, starts)
  {
    if plan == NothingSelected {
      return NoPackagesSelected;
    }
    if plan == NoAurHelper {
      return AurHelperNotFound;
    }
    var command := PlanCommand(plan);
    var started := LaunchInTerminal(command.0, command.1, found, starts);
    if started.None? {
      return TerminalNotFound;
    }
    return Launched(started.value);
  }

  // ---------------------------------------------------------------- the window

  /**
   * The window's state: the tree, the Select All box, the status text and
   * the flag that keeps the tree's own changes from being handled as
   * clicks.
   */
  class Dialog {
    var tree: Tree
    var selectAll: bool
    var countsText: String
    var suppressItemChanged: bool

    /** The tree is empty until the first state arrives; Select All starts checked. */
    constructor ()
      ensures tree == [] && selectAll && countsText == "Loading updates..." && !suppressItemChanged
    {
      tree := [];
      selectAll := true;
      countsText := "Loading updates...";
      suppressItemChanged := false;
    }

    /**
     * applyState: invalid JSON only changes the status text; otherwise the
     * status text shows the counts, the tree is rebuilt from the state with
     * everything checked, and Select All is checked.
     */
    method ApplyState(c: Codec, payload: String)
      modifies this
      ensures c.parse(payload).None? ==>
        countsText == "Received invalid state from monitor." && tree == old(tree) && selectAll == old(selectAll)
      ensures c.parse(payload).Some? ==>
        var state := DocumentObject(c.parse(payload).value);
        countsText == CountsText(state) && tree == StateTree(state) && selectAll
      ensures suppressItemChanged == old(suppressItemChanged)
    {
      var doc := c.parse(payload);
      if doc.None? {
        countsText := "Received invalid state from monitor.";
        return;
      }
      var state := DocumentObject(doc.value);
      var counts := ToObject(Get(state, "counts"));
      var repoCount := ToInt(Get(counts, "upgrade"));
      var aurCount := ToInt(Get(counts, "aur_upgrade"));
      var totalCount := ToInt(Get(counts, "total_upgrade"));
      countsText := "Upgrades: " + IntToString(repoCount) + " repo + " + IntToString(aurCount) +
        " AUR (" + IntToString(totalCount) + " total) | Remove: " +
        IntToString(ToInt(Get(counts, "remove"))) + " | Held: " + IntToString(ToInt(Get(counts, "held")));
      var items := BuildTree(state);
      tree := items;
      selectAll := true;
    }

    /**
     * loadState: without the monitor, or without a valid reply, only the
     * status text changes; a reply is applied.
     */
    method LoadState(c: Codec, monitorAvailable: bool, reply: Option<String>)
      modifies this
      ensures !monitorAvailable ==>
        countsText == "System monitor is not available." && tree == old(tree) && selectAll == old(selectAll)
      ensures monitorAvailable && reply.None? ==>
        countsText == "Unable to query system monitor." && tree == old(tree) && selectAll == old(selectAll)
      ensures monitorAvailable && reply.Some? && c.parse(reply.value).None? ==>
        countsText == "Received invalid state from monitor." && tree == old(tree) && selectAll == old(selectAll)
      ensures monitorAvailable && reply.Some? && c.parse(reply.value).Some? ==>
        var state := DocumentObject(c.parse(reply.value).value);
        countsText == CountsText(state) && tree == StateTree(state) && selectAll
      ensures suppressItemChanged == old(suppressItemChanged)
    {
      if !monitorAvailable {
        countsText := "System monitor is not available.";
        return;
      }
      if reply.None? {
        countsText := "Unable to query system monitor.";
        return;
      }
      ApplyState(c, reply.value);
    }

    /**
     * onSelectAllToggled, entered when the box is set to `checked`: every
     * branch and package item takes that state, with change handling
     * suppressed meanwhile.
     */
    method OnSelectAllToggled(checked: bool)
      modifies this
      ensures tree == Marked(old(tree), checked)
      ensures selectAll == checked && countsText == old(countsText) && !suppressItemChanged
    {
      selectAll := checked;
      suppressItemChanged := true;
      var b := 0;
      while b < |tree|
        invariant 0 <= b <= |tree| == |old(tree)|
        invariant forall i :: 0 <= i < b ==> tree[i] == Marked(old(tree), checked)[i]
        invariant forall i :: b <= i < |tree| ==> tree[i] == old(tree)[i]
        invariant countsText == old(countsText) && selectAll == checked
      {
        var children := tree[b].children;
        for p := 0 to |children|
          invariant |children| == |tree[b].children|
          invariant forall i :: 0 <= i < p ==> children[i] == tree[b].children[i].(checked := checked)
          invariant forall i :: p <= i < |children| ==> children[i] == tree[b].children[i]
        {
          children := children[p := children[p].(checked := checked)];
        }
        assert children == MarkLeaves(tree[b].children, checked);
        tree := tree[b := tree[b].(checked := checked, children := children)];
        b := b + 1;
      }
      suppressItemChanged := false;
    }

    /**
     * onTreeItemChanged: ignored outside column 0 and while suppressed;
     * otherwise the change propagates (ItemChanged) and the Select All box
     * is set, without notification, to whether every package is checked.
     */
    method OnTreeItemChanged(item: ItemRef, column: int)
      requires ValidRef(tree, item)
      modifies this
      ensures column != 0 || old(suppressItemChanged) ==> tree == old(tree) && selectAll == old(selectAll)
      ensures column == 0 && !old(suppressItemChanged) ==>
        tree == ItemChanged(old(tree), item) && selectAll == AllPackagesChecked(tree)
      ensures countsText == old(countsText) && suppressItemChanged == old(suppressItemChanged)
    {
      if column != 0 || suppressItemChanged {
        return;
      }
      match item {
        case BranchItem(b) =>
          suppressItemChanged := true;
          var branch := tree[b];
          var children := branch.children;
          for i := 0 to |children|
            invariant |children| == |branch.children|
            invariant forall j :: 0 <= j < i ==> children[j] == branch.children[j].(checked := branch.checked)
            invariant forall j :: i <= j < |children| ==> children[j] == branch.children[j]
          {
            children := children[i := children[i].(checked := branch.checked)];
          }
          assert children == MarkLeaves(branch.children, branch.checked);
          tree := tree[b := branch.(children := children)];
          suppressItemChanged := false;
        case PackageItem(b, _) =>
          var children := tree[b].children;
          var allChecked := true;
          var i := 0;
          while i < |children|
            invariant 0 <= i <= |children|
            invariant allChecked && forall j :: 0 <= j < i ==> children[j].checked
          {
            if !children[i].checked {
              allChecked := false;
              break;
            }
            i := i + 1;
          }
          assert allChecked == AllChecked(children);
          suppressItemChanged := true;
          tree := tree[b := tree[b].(checked := allChecked)];
          suppressItemChanged := false;
      }
      selectAll := ScanAllChecked(tree);
    }

    /** A click on an item's check box: Qt flips the mark, then reports the change in column 0. */
    method ToggleItem(item: ItemRef)
      requires ValidRef(tree, item)
      modifies this
      ensures var clicked := SetCheck(old(tree), item, !CheckedAt(old(tree), item));
        if old(suppressItemChanged) then tree == clicked && selectAll == old(selectAll)
        else tree == ItemChanged(clicked, item) && selectAll == AllPackagesChecked(tree)
      ensures countsText == old(countsText) && suppressItemChanged == old(suppressItemChanged)
    {
      tree := SetCheck(tree, item, !CheckedAt(tree, item));
      OnTreeItemChanged(item, 0);
    }

    /** The collecting loop of upgrade: the checked packages of each source, in tree order. */
    method CollectSelection() returns (repo: seq<String>, aur: seq<String>)
      ensures repo == Selection(tree, Repo) && aur == Selection(tree, Aur)
    {
      var t := tree;
      repo, aur := [], [];
      for b := 0 to |t|
        invariant repo == Selection(t[..b], Repo) && aur == Selection(t[..b], Aur)
      {
        SelectionStep(t, b, Repo);
        SelectionStep(t, b, Aur);
        var names := PickLeaves(t[b].children);
        if t[b].source == Repo {
          repo := repo + names;
        } else {
          aur := aur + names;
        }
      }
      assert t[..|t|] == t;
    }

    /**
     * upgrade: collects the selection, chooses the command (UpgradePlan;
     * `setting` is the aur_helper setting, `detected` what detectAurHelper
     * finds) and launches it in a terminal.  Only a launch changes the
     * status text; the tree is untouched.
     */
    method Upgrade(setting: String, detected: String, found: String -> bool,
                   starts: (String, seq<String>) -> bool) returns (outcome: UpgradeOutcome)
      modifies this
      ensures outcome == PlanOutcome(UpgradePlan(Selection(old(tree), Repo), Selection(old(tree), Aur), setting, detected), found, starts)
      ensures countsText == (if outcome.Launched? then "Upgrade in progress in terminal..." else old(countsText))
      ensures tree == old(tree) && selectAll == old(selectAll) && suppressItemChanged == old(suppressItemChanged)
    {
      var repo, aur := CollectSelection();
      outcome := LaunchPlan(UpgradePlan(repo, aur, setting, detected), found, starts);
      if outcome.Launched? {
        countsText := "Upgrade in progress in terminal...";
      }
    }
  }
}
