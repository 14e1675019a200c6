/**
 * The string operations the C++ tree (QString) and the Python tree (str) rely on:
 * white-space classes, trimming, splitting and joining, word splitting, line
 * splitting, case mapping of ASCII letters and decimal formatting.
 */
module Text {

  type String = seq<char>

  /** The three notions of white space used by the sources. */
  datatype Blanks =
    | QtSpace     // QChar::isSpace: QString::trimmed, QString::split on spaces
    | PySpace     // str.isspace: str.strip() and str.split() without arguments
    | RegexSpace  // `\s` of QRegularExpression without Unicode properties: ASCII only

  predicate IsAsciiSpace(c: char) {
    c == ' ' || c == '\t' || c == '\n' || c == '\U{000B}' || c == '\U{000C}' || c == '\r'
  }

  /** Separator characters outside ASCII that both Qt and Python treat as space. */
  predicate IsUnicodeSpace(c: char) {
    c == '\U{0085}' || c == '\U{00A0}' || c == '\U{1680}' || ('\U{2000}' <= c <= '\U{200A}') ||
    c == '\U{2028}' || c == '\U{2029}' || c == '\U{202F}' || c == '\U{205F}' || c == '\U{3000}'
  }

  predicate IsBlank(k: Blanks, c: char) {
    match k
    case RegexSpace => IsAsciiSpace(c)
    case QtSpace => IsAsciiSpace(c) || IsUnicodeSpace(c)
    case PySpace => IsAsciiSpace(c) || IsUnicodeSpace(c) || ('\U{001C}' <= c <= '\U{001F}')
  }

  // ---------------------------------------------------------------- trimming

  /** Drops leading blanks. */
  function TrimStart(k: Blanks, s: String): (r: String)
    ensures |r| <= |s| && r == s[|s| - |r|..]
    ensures forall i :: 0 <= i < |s| - |r| ==> IsBlank(k, s[i])
    ensures r == [] || !IsBlank(k, r[0])
    decreases |s|
  {
    if |s| > 0 && IsBlank(k, s[0]) then TrimStart(k, s[1..]) else s
  }

  /** Drops trailing blanks. */
  function TrimEnd(k: Blanks, s: String): (r: String)
    ensures r <= s
    ensures forall i :: |r| <= i < |s| ==> IsBlank(k, s[i])
    ensures r == [] || !IsBlank(k, r[|r| - 1])
    decreases |s|
  {
    if |s| > 0 && IsBlank(k, s[|s| - 1]) then TrimEnd(k, s[..|s| - 1]) else s
  }

  /** QString::trimmed (k = QtSpace) and str.strip() (k = PySpace). */
  function Trim(k: Blanks, s: String): (r: String)
    ensures r == [] || (!IsBlank(k, r[0]) && !IsBlank(k, r[|r| - 1]))
    ensures |r| <= |s|
  {
    TrimEnd(k, TrimStart(k, s))
  }

  /** Trimming adds no character. */
  lemma TrimChars(k: Blanks, s: String, c: char)
    requires c in Trim(k, s)
    ensures c in s
  {
    var t := TrimStart(k, s);
    var i :| 0 <= i < |Trim(k, s)| && Trim(k, s)[i] == c;
    assert t[i] == c;
    assert s[|s| - |t| + i] == c;
  }

  /** No blank at either end: what trimming leaves. */
  predicate Trimmed(k: Blanks, s: String) {
    s == [] || (!IsBlank(k, s[0]) && !IsBlank(k, s[|s| - 1]))
  }

  /** A string without blanks at either end is its own trimmed form. */
  lemma TrimNoBlankEnds(k: Blanks, s: String)
    requires s == [] || (!IsBlank(k, s[0]) && !IsBlank(k, s[|s| - 1]))
    ensures Trim(k, s) == s
  {
  }

  /** A string made only of blanks trims to the empty string. */
  lemma {:induction false} TrimAllBlank(k: Blanks, s: String)
    requires forall i :: 0 <= i < |s| ==> IsBlank(k, s[i])
    ensures TrimStart(k, s) == [] && Trim(k, s) == []
    decreases |s|
  {
    if |s| > 0 {
      TrimAllBlank(k, s[1..]);
    }
  }

  /** Trimming is idempotent. */
  lemma TrimIdempotent(k: Blanks, s: String)
    ensures Trim(k, Trim(k, s)) == Trim(k, s)
  {
    TrimNoBlankEnds(k, Trim(k, s));
  }

  // ---------------------------------------------------------------- searching

  /** Index of the first `c` in `s`, or |s| when there is none. */
  function Find(s: String, c: char): (i: nat)
    ensures i <= |s|
    ensures i < |s| ==> s[i] == c
    ensures forall j :: 0 <= j < i ==> s[j] != c
    decreases |s|
  {
    if |s| == 0 then 0 else if s[0] == c then 0 else 1 + Find(s[1..], c)
  }

  /** The text before the first `c`, or all of `s`. */
  function Before(s: String, c: char): (r: String)
    ensures r <= s && c !in r
    ensures c in s ==> s[|r|] == c
  {
    s[..Find(s, c)]
  }

  /** `sub` occurs in `s` (QString::contains, Python `in`). */
  predicate Contains(s: String, sub: String)
    decreases |s|
  {
    sub <= s || (|s| > 0 && Contains(s[1..], sub))
  }

  predicate OccursAt(s: String, sub: String, i: int) {
    0 <= i && i + |sub| <= |s| && s[i..i + |sub|] == sub
  }

  /** `Contains` means an occurrence at some index. */
  lemma {:induction false} ContainsIff(s: String, sub: String)
    ensures Contains(s, sub) <==> exists i :: OccursAt(s, sub, i)
    decreases |s|
  {
    if sub <= s {
      assert OccursAt(s, sub, 0);
    } else if |s| == 0 {
    } else {
      ContainsIff(s[1..], sub);
      if Contains(s[1..], sub) {
        var i :| OccursAt(s[1..], sub, i);
        assert s[1..][i..i + |sub|] == s[i + 1..i + 1 + |sub|];
        assert OccursAt(s, sub, i + 1);
      }
      forall i | OccursAt(s, sub, i) ensures Contains(s[1..], sub) {
        assert i != 0;
        assert s[1..][i - 1..i - 1 + |sub|] == s[i..i + |sub|];
        assert OccursAt(s[1..], sub, i - 1);
      }
    }
  }

  // ---------------------------------------------------------------- splitting

  /** QString::split(c) keeping empty parts; Python str.split(c) for a one-character separator. */
  function Split(s: String, sep: char): (parts: seq<String>)
    ensures |parts| >= 1
    ensures |parts| >= 2 <==> sep in s
    ensures parts[0] == Before(s, sep)
    ensures forall p :: p in parts ==> sep !in p
    decreases |s|
  {
    var i := Find(s, sep);
    if i == |s| then [s] else [s[..i]] + Split(s[i + 1..], sep)
  }

  function Join(parts: seq<String>, sep: String): String {
    if |parts| == 0 then ""
    else if |parts| == 1 then parts[0]
    else parts[0] + sep + Join(parts[1..], sep)
  }

  /** Splitting on a character and joining with it again gives back the text. */
  lemma {:induction false} JoinSplit(s: String, sep: char)
    ensures Join(Split(s, sep), [sep]) == s
    decreases |s|
  {
    var i := Find(s, sep);
    if i < |s| {
      JoinSplit(s[i + 1..], sep);
      assert s == s[..i] + [sep] + s[i + 1..];
    }
  }

  /** The parts after the first are the text after the first separator. */
  lemma SplitTail(s: String, sep: char)
    requires sep in s
    ensures Join(Split(s, sep)[1..], [sep]) == s[Find(s, sep) + 1..]
  {
    JoinSplit(s[Find(s, sep) + 1..], sep);
  }

  /** The last part of a split is the text after the last separator. */
  function Last(parts: seq<String>): String
    requires |parts| >= 1
  {
    parts[|parts| - 1]
  }

  /** The non-empty elements, in order (Qt::SkipEmptyParts). */
  function NonEmpty(parts: seq<String>): (r: seq<String>)
    ensures |r| <= |parts|
    ensures forall p :: p in r <==> p in parts && p != []
    decreases |parts|
  {
    if parts == [] then []
    else (if parts[0] == [] then [] else [parts[0]]) + NonEmpty(parts[1..])
  }

  /** QString::split(c, Qt::SkipEmptyParts). */
  function SplitSkipEmpty(s: String, sep: char): seq<String> {
    NonEmpty(Split(s, sep))
  }

  /** Length of the longest prefix of `s` made of non-blank characters. */
  function WordLength(k: Blanks, s: String): (n: nat)
    ensures n <= |s|
    ensures forall i :: 0 <= i < n ==> !IsBlank(k, s[i])
    ensures n < |s| ==> IsBlank(k, s[n])
    decreases |s|
  {
    if |s| == 0 || IsBlank(k, s[0]) then 0 else 1 + WordLength(k, s[1..])
  }

  /** Length of the longest prefix of `s` made of blanks. */
  function BlankLength(k: Blanks, s: String): (n: nat)
    ensures n <= |s|
    ensures forall i :: 0 <= i < n ==> IsBlank(k, s[i])
    ensures n < |s| ==> !IsBlank(k, s[n])
    decreases |s|
  {
    if |s| == 0 || !IsBlank(k, s[0]) then 0 else 1 + BlankLength(k, s[1..])
  }

  predicate NoBlank(k: Blanks, w: String) {
    forall i :: 0 <= i < |w| ==> !IsBlank(k, w[i])
  }

  /** The maximal runs of non-blank characters (Python str.split() without arguments). */
  function Words(k: Blanks, s: String): seq<String>
    decreases |s|
  {
    var b := BlankLength(k, s);
    if b == |s| then []
    else
      var t := s[b..];
      var n := WordLength(k, t);
      [t[..n]] + Words(k, t[n..])
  }

  /** Every word is a non-empty run without blanks. */
  lemma {:induction false} WordsNoBlank(k: Blanks, s: String)
    ensures forall w :: w in Words(k, s) ==> w != [] && NoBlank(k, w)
    decreases |s|
  {
    var b := BlankLength(k, s);
    if b < |s| {
      var t := s[b..];
      var n := WordLength(k, t);
      WordsNoBlank(k, t[n..]);
    }
  }

  /** A character missing from the text is missing from every word. */
  lemma {:induction false} WordsAvoid(k: Blanks, s: String, c: char)
    requires c !in s
    ensures forall w :: w in Words(k, s) ==> c !in w
    decreases |s|
  {
    var b := BlankLength(k, s);
    if b < |s| {
      var t := s[b..];
      var n := WordLength(k, t);
      assert forall x :: x in t ==> x in s;
      assert forall x :: x in t[..n] ==> x in t;
      assert forall x :: x in t[n..] ==> x in t;
      WordsAvoid(k, t[n..], c);
    }
  }

  /** A string that starts with a non-blank has its leading run as its first word. */
  lemma WordsCons(k: Blanks, s: String)
    requires s != [] && !IsBlank(k, s[0])
    ensures Words(k, s) == [s[..WordLength(k, s)]] + Words(k, s[WordLength(k, s)..])
  {
    assert s[0..] == s;
  }

  /** A string that starts with a non-blank has its leading run as its first word. */
  lemma WordsHead(k: Blanks, s: String)
    requires s != [] && !IsBlank(k, s[0])
    ensures Words(k, s) != [] && Words(k, s)[0] == s[..WordLength(k, s)]
  {
    WordsCons(k, s);
  }

  /** Leading blanks do not change the words. */
  lemma WordsSkipBlanks(k: Blanks, s: String)
    ensures Words(k, s) == Words(k, s[BlankLength(k, s)..])
  {
    var t := s[BlankLength(k, s)..];
    if t != [] {
      assert t[0..] == t;
    }
  }

  /** The first word, then the words after the blanks that follow it. */
  lemma WordsStep(k: Blanks, s: String)
    requires s != [] && !IsBlank(k, s[0])
    ensures var n := WordLength(k, s); var r := s[n..];
      Words(k, s) == [s[..n]] + Words(k, r[BlankLength(k, r)..])
  {
    WordsCons(k, s);
    WordsSkipBlanks(k, s[WordLength(k, s)..]);
  }

  /** A string that does not start with a blank has words iff it is not empty. */
  lemma WordsEmpty(k: Blanks, s: String)
    requires s == [] || !IsBlank(k, s[0])
    ensures Words(k, s) == [] <==> s == []
  {
    if s != [] {
      WordsCons(k, s);
    }
  }

  // ---------------------------------------------------------------- characters

  /** Every occurrence of `c` removed (QString::remove(c)). */
  function RemoveChar(s: String, c: char): (r: String)
    ensures c !in r && |r| <= |s|
    ensures forall x :: x in r <==> x in s && x != c
    decreases |s|
  {
    if s == [] then [] else (if s[0] == c then [] else [s[0]]) + RemoveChar(s[1..], c)
  }

  /** A string without `c` is unchanged by removing `c`. */
  lemma {:induction false} RemoveAbsent(s: String, c: char)
    requires c !in s
    ensures RemoveChar(s, c) == s
    decreases |s|
  {
    if s != [] {
      RemoveAbsent(s[1..], c);
    }
  }

  /** Drops leading and trailing `c` (Python str.strip(c)). */
  function StripChar(s: String, c: char): (r: String)
    ensures |r| <= |s|
    ensures r == [] || (r[0] != c && r[|r| - 1] != c)
    decreases |s|
  {
    if |s| > 0 && s[0] == c then StripChar(s[1..], c)
    else if |s| > 0 && s[|s| - 1] == c then StripChar(s[..|s| - 1], c)
    else s
  }

  function LowerChar(c: char): char {
    if 'A' <= c <= 'Z' then (c as int + 32) as char else c
  }

  function UpperChar(c: char): char {
    if 'a' <= c <= 'z' then (c as int - 32) as char else c
  }

  /** Lower-casing (ASCII letters; QString::toLower and str.lower on ASCII text). */
  function Lower(s: String): (r: String)
    ensures |r| == |s|
    ensures forall i :: 0 <= i < |s| ==> r[i] == LowerChar(s[i])
  {
    seq(|s|, i requires 0 <= i < |s| => LowerChar(s[i]))
  }

  // ---------------------------------------------------------------- decimal text

  function DigitChar(d: nat): char
    requires d < 10
  {
    ('0' as int + d) as char
  }

  predicate IsDigit(c: char) {
    '0' <= c <= '9'
  }

  /** Decimal digits of `n`, without leading zeros. */
  function NatToString(n: nat): (r: String)
    ensures |r| >= 1 && forall i :: 0 <= i < |r| ==> IsDigit(r[i])
    decreases n
  {
    if n < 10 then [DigitChar(n)] else NatToString(n / 10) + [DigitChar(n % 10)]
  }

  /** QString::arg(int) and Python str(int). */
  function IntToString(n: int): String {
    if n < 0 then "-" + NatToString(-n) else NatToString(n)
  }

  /** The value of a string of decimal digits. */
  function DigitsValue(s: String): nat
    requires forall i :: 0 <= i < |s| ==> IsDigit(s[i])
    decreases |s|
  {
    if s == [] then 0
    else
      assert IsDigit(s[|s| - 1]);
      DigitsValue(s[..|s| - 1]) * 10 + (s[|s| - 1] as int - '0' as int)
  }

  lemma {:induction false} NatToStringValue(n: nat)
    ensures DigitsValue(NatToString(n)) == n
    decreases n
  {
    if n >= 10 {
      NatToStringValue(n / 10);
      var s := NatToString(n / 10) + [DigitChar(n % 10)];
      assert s[..|s| - 1] == NatToString(n / 10);
    }
  }

  // ---------------------------------------------------------------- lines

  /** Which line terminators a reader honours; "\r\n" always counts as one. */
  datatype LineBreaks =
    | QtReadLine    // QTextStream::readLine: "\n" (and "\r\n")
    | PyUniversal   // iterating a Python text file: "\n", "\r" (and "\r\n")
    | PySplitLines  // str.splitlines()

  predicate IsBreak(b: LineBreaks, c: char) {
    match b
    case QtReadLine => c == '\n'
    case PyUniversal => c == '\n' || c == '\r'
    case PySplitLines =>
      c == '\n' || c == '\r' || c == '\U{000B}' || c == '\U{000C}' ||
      ('\U{001C}' <= c <= '\U{001E}') || c == '\U{0085}' || c == '\U{2028}' || c == '\U{2029}'
  }

  /** Length of the terminator at `i`, 0 when there is none. */
  function BreakAt(b: LineBreaks, s: String, i: nat): nat
    requires i < |s|
  {
    if s[i] == '\r' && i + 1 < |s| && s[i + 1] == '\n' then 2
    else if IsBreak(b, s[i]) then 1
    else 0
  }

  function FindBreak(b: LineBreaks, s: String): (i: nat)
    ensures i <= |s|
    ensures i < |s| ==> BreakAt(b, s, i) > 0
    ensures forall j :: 0 <= j < i ==> BreakAt(b, s, j) == 0
    decreases |s|
  {
    if |s| == 0 then 0
    else if BreakAt(b, s, 0) > 0 then 0
    else
      var j := FindBreak(b, s[1..]);
      assert forall m :: 1 <= m < 1 + j ==> BreakAt(b, s, m) == BreakAt(b, s[1..], m - 1);
      assert 1 + j < |s| ==> BreakAt(b, s, 1 + j) == BreakAt(b, s[1..], j);
      1 + j
  }

  /** The lines of `s`, without terminators; no empty line after a final terminator. */
  function Lines(b: LineBreaks, s: String): (ls: seq<String>)
    ensures s == [] <==> ls == []
    decreases |s|
  {
    if s == [] then []
    else
      var i := FindBreak(b, s);
      if i == |s| then [s] else [s[..i]] + Lines(b, s[i + BreakAt(b, s, i)..])
  }

  /** Text without any terminator is one line. */
  lemma SingleLine(b: LineBreaks, s: String)
    requires s != [] && forall j :: 0 <= j < |s| ==> BreakAt(b, s, j) == 0
    ensures Lines(b, s) == [s]
  {
  }
}
