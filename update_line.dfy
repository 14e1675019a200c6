/**
 * The update lines of `pacman -Qu` and the regular expression both monitors
 * match them with, `^(\S+)\s+(\S+)\s+->\s+(\S+)`.  The expression is read
 * piece by piece off the runs of blank and non-blank characters of the line,
 * and proved to agree with the word structure of the line.
 */
module UpdateLine {
  import opened Wrappers
  import opened Text

  /**
   * `(\S+)\s+` at the start of `s`, with `k` as the class `\s` stands for:
   * the run of non-blanks and the text after the blanks that follow it, when
   * neither is empty.  A greedy run can only end at a blank or at the end, so
   * this is the only way the piece can match.
   */
  function WordThenBlanks(k: Blanks, s: String): Option<(String, String)> {
    var n := WordLength(k, s);
    var r := s[n..];
    var b := BlankLength(k, r);
    if n == 0 || b == 0 then None else Some((s[..n], r[b..]))
  }

  /** The tail `->\s+(\S+)`: the third capture. */
  function MatchArrow(k: Blanks, s: String): Option<String> {
    if !("->" <= s) then None
    else
      var r := s[2..];
      var b := BlankLength(k, r);
      var t := r[b..];
      var n := WordLength(k, t);
      if b == 0 || n == 0 then None else Some(t[..n])
  }

  /** UPDATE_RE anchored at the start of the line: the three captures, if it matches. */
  function MatchUpdate(k: Blanks, line: String): Option<(String, String, String)> {
    match WordThenBlanks(k, line)
    case None => None
    case Some((name, r2)) =>
      match WordThenBlanks(k, r2)
      case None => None
      case Some((oldVersion, r4)) =>
        match MatchArrow(k, r4)
        case None => None
        case Some(newVersion) => Some((name, oldVersion, newVersion))
  }

  /** A line of the form `name old -> new ...`: no leading blank, four words or more, the third "->". */
  predicate IsUpdateLine(k: Blanks, line: String) {
    line != [] && !IsBlank(k, line[0]) &&
    var w := Words(k, line);
    |w| >= 4 && w[2] == "->"
  }

  /**
   * `(\S+)\s+` consumes the first word: what is left has the remaining words
   * and starts with a non-blank; without a match there is at most one word.
   */
  lemma WordThenBlanksWords(k: Blanks, s: String)
    requires s == [] || !IsBlank(k, s[0])
    ensures WordThenBlanks(k, s).Some? ==>
      var (w, rest) := WordThenBlanks(k, s).value;
      Words(k, s) == [w] + Words(k, rest) && (rest == [] || !IsBlank(k, rest[0]))
    ensures WordThenBlanks(k, s).None? ==> |Words(k, s)| <= 1
  {
    if s != [] {
      WordsStep(k, s);
      var n := WordLength(k, s);
      var r := s[n..];
      if BlankLength(k, r) == 0 {
        assert r == [];
      }
    }
  }

  /** The tail matches exactly when the first word is "->" and a second word follows; it captures that word. */
  lemma ArrowWords(k: Blanks, s: String)
    requires s == [] || !IsBlank(k, s[0])
    ensures MatchArrow(k, s).Some? <==> |Words(k, s)| >= 2 && Words(k, s)[0] == "->"
    ensures MatchArrow(k, s).Some? ==> MatchArrow(k, s).value == Words(k, s)[1]
  {
    if s == [] {
    } else if !("->" <= s) {
      ArrowMissing(k, s);
    } else if |s| == 2 {
      ArrowAlone(k, s);
    } else if !IsBlank(k, s[2]) {
      ArrowGlued(k, s);
    } else {
      ArrowSeparated(k, s);
    }
  }

  /** No "->" at the start: no match, and the first word is not "->". */
  lemma ArrowMissing(k: Blanks, s: String)
    requires s != [] && !IsBlank(k, s[0]) && !("->" <= s)
    ensures MatchArrow(k, s).None? && Words(k, s) != [] && Words(k, s)[0] != "->"
  {
    WordsHead(k, s);
  }

  /** "->" and nothing after it: one word, no match. */
  lemma ArrowAlone(k: Blanks, s: String)
    requires s == "->"
    ensures MatchArrow(k, s).None? && |Words(k, s)| == 1
  {
    assert WordLength(k, s) == 2;
    WordsCons(k, s);
  }

  /** "->" glued to more text: the first word is longer than "->", and no match. */
  lemma ArrowGlued(k: Blanks, s: String)
    requires "->" <= s && |s| > 2 && !IsBlank(k, s[2])
    ensures MatchArrow(k, s).None? && Words(k, s) != [] && Words(k, s)[0] != "->"
  {
    assert WordLength(k, s) > 2;
    WordsHead(k, s);
  }

  /** "->" followed by a blank is a word of its own, and the piece `(\S+)\s+` consumes it. */
  lemma ArrowAsWord(k: Blanks, s: String)
    requires "->" <= s && |s| > 2 && IsBlank(k, s[2])
    ensures var r := s[2..]; WordThenBlanks(k, s) == Some(("->", r[BlankLength(k, r)..]))
  {
    assert WordLength(k, s) == 2;
    assert s[..2] == "->";
  }

  /** "->" then blanks: "->" is the first word, and the match is the word after the blanks, if any. */
  lemma ArrowSeparated(k: Blanks, s: String)
    requires "->" <= s && |s| > 2 && IsBlank(k, s[2])
    ensures MatchArrow(k, s).Some? <==> |Words(k, s)| >= 2
    ensures Words(k, s) != [] && Words(k, s)[0] == "->"
    ensures MatchArrow(k, s).Some? ==> MatchArrow(k, s).value == Words(k, s)[1]
  {
    ArrowAsWord(k, s);
    WordThenBlanksWords(k, s);
    var r := s[2..];
    var t := r[BlankLength(k, r)..];
    assert Words(k, s) == ["->"] + Words(k, t);
    WordsEmpty(k, t);
    if t != [] {
      WordsHead(k, t);
    }
  }

  /** The regular expression matches exactly the update lines, and captures words 1, 2 and 4. */
  lemma MatchUpdateWords(k: Blanks, line: String)
    ensures MatchUpdate(k, line).Some? <==> IsUpdateLine(k, line)
    ensures MatchUpdate(k, line).Some? ==>
      var w := Words(k, line);
      MatchUpdate(k, line).value == (w[0], w[1], w[3])
  {
    if line == [] || IsBlank(k, line[0]) {
      assert WordLength(k, line) == 0;
    } else {
      WordThenBlanksWords(k, line);
      if WordThenBlanks(k, line).Some? {
        var r2 := WordThenBlanks(k, line).value.1;
        WordThenBlanksWords(k, r2);
        if WordThenBlanks(k, r2).Some? {
          MatchUpdateFull(k, line);
        }
      }
    }
  }

  /** Both words matched: the rest is decided by the tail. */
  lemma MatchUpdateFull(k: Blanks, line: String)
    requires line != [] && !IsBlank(k, line[0])
    requires WordThenBlanks(k, line).Some? && WordThenBlanks(k, WordThenBlanks(k, line).value.1).Some?
    ensures MatchUpdate(k, line).Some? <==> IsUpdateLine(k, line)
    ensures MatchUpdate(k, line).Some? ==>
      var w := Words(k, line);
      MatchUpdate(k, line).value == (w[0], w[1], w[3])
  {
    var (name, r2) := WordThenBlanks(k, line).value;
    var (oldVersion, r4) := WordThenBlanks(k, r2).value;
    WordThenBlanksWords(k, line);
    WordThenBlanksWords(k, r2);
    ArrowWords(k, r4);
    ConsTwice(Words(k, line), Words(k, r2), Words(k, r4), name, oldVersion);
    var arrow := MatchArrow(k, r4);
    assert MatchUpdate(k, line) == if arrow.Some? then Some((name, oldVersion, arrow.value)) else None;
    UpdateShape(Words(k, line), name, oldVersion, Words(k, r4));
  }

  lemma ConsTwice(a: seq<String>, b: seq<String>, c: seq<String>, x: String, y: String)
    requires a == [x] + b && b == [y] + c
    ensures a == [x, y] + c
  {
  }

  /** Two words in front: the third word is the first of the rest, the fourth the second. */
  lemma UpdateShape(w: seq<String>, x: String, y: String, v: seq<String>)
    requires w == [x, y] + v
    ensures (|w| >= 4 && w[2] == "->") <==> (|v| >= 2 && v[0] == "->")
    ensures |v| >= 2 ==> w[0] == x && w[1] == y && w[3] == v[1]
  {
  }

  /** A word, one space, and text that starts with a non-blank: the word, then the words of the text. */
  lemma WordsSpaced(k: Blanks, a: String, rest: String)
    requires a != [] && NoBlank(k, a)
    requires rest == [] || !IsBlank(k, rest[0])
    ensures Words(k, a + " " + rest) == [a] + Words(k, rest)
  {
    var s := a + " " + rest;
    SpacedPieces(a, rest);
    WordLengthIs(k, s, |a|);
    BlankLengthIs(k, s[|a|..], 1);
    assert WordThenBlanks(k, s) == Some((a, rest));
    WordThenBlanksWords(k, s);
  }

  /** The pieces of `a + " " + rest`. */
  lemma SpacedPieces(a: String, rest: String)
    ensures var s := a + " " + rest;
      |s| == |a| + 1 + |rest| && s[..|a|] == a && s[|a|] == ' ' && s[|a|..][1..] == rest &&
      (forall i :: 0 <= i < |a| ==> s[i] == a[i]) && (a != [] ==> s[0] == a[0]) &&
      (rest != [] ==> s[|a|..][1] == rest[0])
  {
    var s := a + " " + rest;
    assert s[|a|..] == " " + rest;
  }

  /** A run of `n` non-blanks ended by a blank or by the end has length `n`. */
  lemma WordLengthIs(k: Blanks, s: String, n: nat)
    requires n <= |s| && forall i :: 0 <= i < n ==> !IsBlank(k, s[i])
    requires n < |s| ==> IsBlank(k, s[n])
    ensures WordLength(k, s) == n
  {
  }

  /** A run of `n` blanks ended by a non-blank or by the end has length `n`. */
  lemma BlankLengthIs(k: Blanks, s: String, n: nat)
    requires n <= |s| && forall i :: 0 <= i < n ==> IsBlank(k, s[i])
    requires n < |s| ==> !IsBlank(k, s[n])
    ensures BlankLength(k, s) == n
  {
  }

  /** A word on its own. */
  lemma WordsSingle(k: Blanks, a: String)
    requires a != [] && NoBlank(k, a)
    ensures Words(k, a) == [a]
  {
    WordsCons(k, a);
    assert WordLength(k, a) == |a|;
    assert a[..|a|] == a;
  }

  /** `name old -> new`, with single spaces, is an update line with those three captures. */
  lemma UpdateLineOf(k: Blanks, name: String, oldVersion: String, newVersion: String, line: String)
    requires name != [] && NoBlank(k, name)
    requires oldVersion != [] && NoBlank(k, oldVersion)
    requires newVersion != [] && NoBlank(k, newVersion)
    requires line == name + " " + oldVersion + " -> " + newVersion
    ensures Words(k, line) == [name, oldVersion, "->", newVersion]
    ensures IsUpdateLine(k, line)
  {
    var tail := "->" + " " + newVersion;
    var mid := oldVersion + " " + tail;
    LineAssociates(name, oldVersion, newVersion, line);
    WordsSingle(k, newVersion);
    WordsSpaced(k, "->", newVersion);
    WordsSpaced(k, oldVersion, tail);
    WordsSpaced(k, name, mid);
    ConsThree(Words(k, line), Words(k, mid), Words(k, tail), name, oldVersion, newVersion);
    UpdateLineOfWords(k, line, name, oldVersion, newVersion);
  }

  lemma UpdateLineOfWords(k: Blanks, line: String, name: String, oldVersion: String, newVersion: String)
    requires name != [] && line != [] && line[0] == name[0] && NoBlank(k, name)
    requires Words(k, line) == [name, oldVersion, "->", newVersion]
    ensures IsUpdateLine(k, line)
  {
  }

  lemma LineAssociates(name: String, oldVersion: String, newVersion: String, line: String)
    requires name != [] && oldVersion != []
    requires line == name + " " + oldVersion + " -> " + newVersion
    ensures var mid := oldVersion + " " + ("->" + " " + newVersion);
      line == name + " " + mid && line[0] == name[0] && mid[0] == oldVersion[0]
  {
  }

  lemma ConsThree(a: seq<String>, b: seq<String>, c: seq<String>, x: String, y: String, z: String)
    requires a == [x] + b && b == [y] + c && c == ["->"] + [z]
    ensures a == [x, y, "->", z]
  {
  }
}
