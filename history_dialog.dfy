/**
 * src/history_dialog.cpp: the package history window shows the pacman log
 * lines that record an installation, an upgrade or a removal, in file
 * order, at most the last 500 of them, one per line.
 *
 * The log file's contents are a parameter: `None` when the file cannot be
 * opened.
 */
module HistoryDialog {
  import opened Wrappers
  import opened Text

  const LOG_PATH: String := "/var/log/pacman.log"
  const MAX_ENTRIES: nat := 500
  const OPEN_ERROR: String := "Unable to open pacman log file: " + LOG_PATH

  /** A transaction line mentions " installed ", " upgraded " or " removed ", spaces included. */
  predicate IsTransaction(line: String) {
    Contains(line, " installed ") || Contains(line, " upgraded ") || Contains(line, " removed ")
  }

  /** The transaction lines among `lines`, in their order. */
  function Transactions(lines: seq<String>): (r: seq<String>)
    ensures |r| <= |lines|
    decreases |lines|
  {
    if lines == [] then []
    else
      var last := lines[|lines| - 1];
      Transactions(lines[..|lines| - 1]) + (if IsTransaction(last) then [last] else [])
  }

  /** A line is kept exactly when it is a transaction line of the log. */
  lemma {:induction false} TransactionsMembers(lines: seq<String>, line: String)
    ensures line in Transactions(lines) <==> line in lines && IsTransaction(line)
    decreases |lines|
  {
    if lines != [] {
      var init := lines[..|lines| - 1];
      TransactionsMembers(init, line);
      assert lines == init + [lines[|lines| - 1]];
    }
  }

  /** Filtering keeps the file order: the lines of a longer log follow those of its beginning. */
  lemma {:induction false} TransactionsAppend(a: seq<String>, b: seq<String>)
    ensures Transactions(a + b) == Transactions(a) + Transactions(b)
    decreases |b|
  {
    if b == [] {
      assert a + b == a;
    } else {
      var init := b[..|b| - 1];
      assert (a + b)[..|a + b| - 1] == a + init;
      TransactionsAppend(a, init);
    }
  }

  /** QList::mid(size - n) when there are more than `n` items: the last `n` of them. */
  function LastAtMost(xs: seq<String>, n: nat): (r: seq<String>)
    ensures |xs| <= n ==> r == xs
    ensures |xs| > n ==> |r| == n && r == xs[|xs| - n..]
  {
    if |xs| > n then xs[|xs| - n..] else xs
  }

  /** The entries shown for a log: the last 500 transaction lines. */
  function Entries(log: String): seq<String> {
    LastAtMost(Transactions(Lines(QtReadLine, log)), MAX_ENTRIES)
  }

  /** The text the window shows: the error message, or the entries joined with newlines. */
  function HistoryText(log: Option<String>): String {
    if log.None? then OPEN_ERROR else Join(Entries(log.value), "\n")
  }

  /**
   * At most 500 entries are shown, each a transaction line of the log; when
   * the log has more, they are exactly its last 500 transaction lines.
   */
  lemma EntriesBounded(log: String)
    ensures |Entries(log)| <= MAX_ENTRIES
    ensures forall e :: e in Entries(log) ==> e in Lines(QtReadLine, log) && IsTransaction(e)
    ensures var all := Transactions(Lines(QtReadLine, log));
      |all| > MAX_ENTRIES ==> Entries(log) == all[|all| - MAX_ENTRIES..]
  {
    var all := Transactions(Lines(QtReadLine, log));
    forall e | e in Entries(log)
      ensures e in Lines(QtReadLine, log) && IsTransaction(e)
    {
      assert e in all;
      TransactionsMembers(Lines(QtReadLine, log), e);
    }
  }

  /** A log whose transaction lines fit the limit is shown whole. */
  lemma ShortLogShownWhole(log: String)
    requires |Transactions(Lines(QtReadLine, log))| <= MAX_ENTRIES
    ensures Entries(log) == Transactions(Lines(QtReadLine, log))
  {
  }

  /** loadHistory's filter: reads the lines one by one and keeps the transaction lines. */
  method FilterTransactions(lines: seq<String>) returns (kept: seq<String>)
    ensures kept == Transactions(lines)
  {
    kept := [];
    var i := 0;
    while i < |lines|
      invariant 0 <= i <= |lines|
      invariant kept == Transactions(lines[..i])
    {
      var line := lines[i];
      assert lines[..i + 1][..i] == lines[..i];
      if Contains(line, " installed ") || Contains(line, " upgraded ") || Contains(line, " removed ") {
        kept := kept + [line];
      }
      i := i + 1;
    }
    assert lines[..|lines|] == lines;
  }

  /** loadHistory: the text of the window for the log's contents. */
  method LoadHistory(log: Option<String>) returns (text: String)
    ensures text == HistoryText(log)
  {
    if log.None? {
      return OPEN_ERROR;
    }
    var lines := FilterTransactions(Lines(QtReadLine, log.value));
    if |lines| > 500 {
      lines := lines[|lines| - 500..];
    }
    text := Join(lines, "\n");
  }

  /** The history window: its read-only text. */
  class HistoryWindow {
    var text: String

    /** The constructor loads the history. */
    constructor (log: Option<String>)
      ensures text == HistoryText(log)
    {
      var t := LoadHistory(log);
      text := t;
    }
  }
}
