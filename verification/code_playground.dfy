/**
 * The code playground component: it runs the learner's code through the
 * client `compileGo`, turns error strings into `{line, column, message}`
 * records, and decides whether a challenge is solved by one of three rules:
 * a `go test` PASS/FAIL line check, an exact match of the trimmed output, or
 * the challenge's regular expression.
 *
 * The JavaScript regular-expression engine for a challenge's own pattern is
 * not modelled: `RegexEngine` is what `new RegExp(pattern)` gives. The fixed
 * diagnostic pattern `/:(\d+):(\d+):\s*(.+)/` is written out by hand.
 */
module Playground {
  import opened Strings
  import GoCompilerClient

  datatype LintError = LintError(line: nat, column: nat, message: string)

  /** The props that make a playground a challenge; "" stands for an absent
      prop, since every use of them is a truthiness test or a comparison. */
  datatype ChallengeProps = ChallengeProps(expectedOutput: string, validationPattern: string, testCode: string)

  /** `new RegExp(validationPattern)`: a compiled pattern, or the message of
      the `SyntaxError` the constructor throws. */
  datatype RegexEngine = Compiled(test: string -> bool) | SyntaxError(message: string)

  /** What `validateOutput` does: return a verdict, or throw. */
  datatype Validation = Verdict(passed: bool) | PatternThrew(message: string)

  const RunFailurePrefix := "Failed to execute code: "

  /** `isChallengeMode` */
  predicate IsChallengeMode(p: ChallengeProps): (b: bool)
    // outside challenge mode no run is ever marked as solved
    ensures !b ==> forall regex, actual :: ValidateOutput(p, regex, actual) == Verdict(false)
  {
    p.expectedOutput != "" || p.validationPattern != "" || p.testCode != ""
  }

  // ---------------------------------------------------------------------
  // parseErrors: the pattern /:(\d+):(\d+):\s*(.+)/

  /** The length of the run of decimal digits (`\d+`) starting at `i`. */
  function DigitRun(s: string, i: nat): (n: nat)
    requires i <= |s|
    ensures i + n <= |s|
    decreases |s| - i
  {
    if i < |s| && IsDigit(s[i]) then 1 + DigitRun(s, i + 1) else 0
  }

  /** The run of digits covers only digits and is as long as it can be. */
  lemma {:induction false} DigitRunCovers(s: string, i: nat)
    requires i <= |s|
    ensures forall k :: i <= k < i + DigitRun(s, i) ==> IsDigit(s[k])
    ensures i + DigitRun(s, i) == |s| || !IsDigit(s[i + DigitRun(s, i)])
    decreases |s| - i
  {
    if i < |s| && IsDigit(s[i]) {
      DigitRunCovers(s, i + 1);
    }
  }

  /** The length of the run of white space (`\s*`) starting at `i`. */
  function SpaceRun(s: string, i: nat): (n: nat)
    requires i <= |s|
    ensures i + n <= |s|
    decreases |s| - i
  {
    if i < |s| && IsSpace(s[i]) then 1 + SpaceRun(s, i + 1) else 0
  }

  /** The length of the run of characters `.` matches (`.+`, greedy) from `i`. */
  function LineRun(s: string, i: nat): (n: nat)
    requires i <= |s|
    ensures i + n <= |s|
    decreases |s| - i
  {
    if i < |s| && !IsLineTerminator(s[i]) then 1 + LineRun(s, i + 1) else 0
  }

  /** Every character the run of white space covers is white space, and
      the run is as long as it can be. */
  lemma {:induction false} SpaceRunCovers(s: string, i: nat)
    requires i <= |s|
    ensures forall k :: i <= k < i + SpaceRun(s, i) ==> IsSpace(s[k])
    ensures i + SpaceRun(s, i) == |s| || !IsSpace(s[i + SpaceRun(s, i)])
    decreases |s| - i
  {
    if i < |s| && IsSpace(s[i]) {
      SpaceRunCovers(s, i + 1);
    }
  }

  /** The run `.+` covers holds no line terminator, and ends at one or at
      the end of the text. */
  lemma {:induction false} LineRunCovers(s: string, i: nat)
    requires i <= |s|
    ensures forall k :: i <= k < i + LineRun(s, i) ==> !IsLineTerminator(s[k])
    ensures i + LineRun(s, i) == |s| || IsLineTerminator(s[i + LineRun(s, i)])
    decreases |s| - i
  {
    if i < |s| && !IsLineTerminator(s[i]) {
      LineRunCovers(s, i + 1);
    }
  }

  /** A stretch free of line terminators up to the end is captured whole. */
  lemma {:induction false} LineRunToEnd(s: string, i: nat)
    requires i <= |s|
    requires forall k :: i <= k < |s| ==> !IsLineTerminator(s[k])
    ensures LineRun(s, i) == |s| - i
    decreases |s| - i
  {
    if i < |s| {
      LineRunToEnd(s, i + 1);
    }
  }

  /** Where `(.+)` starts after the greedy `\s*`, which began at `start`,
      gave back characters: the last position from `k` down to `start`
      holding a character that `.` matches. */
  function CaptureStart(s: string, start: nat, k: nat): (r: Option<nat>)
    requires start <= k <= |s|
    ensures r.Some? ==> start <= r.value <= k && r.value < |s| && !IsLineTerminator(s[r.value])
    decreases k
  {
    if k < |s| && !IsLineTerminator(s[k]) then Some(k)
    else if k == start then None
    else CaptureStart(s, start, k - 1)
  }

  /** The position `CaptureStart` finds is the last one that `.` matches:
      everything after it, up to `k`, is a line terminator; and it finds
      none exactly when every position from `start` to `k` holds one. */
  lemma {:induction false} CaptureStartIsLast(s: string, start: nat, k: nat)
    requires start <= k <= |s|
    ensures var r := CaptureStart(s, start, k);
            && (r.Some? ==> forall j :: r.value < j <= k && j < |s| ==> IsLineTerminator(s[j]))
            && (r.None? <==> forall j :: start <= j <= k && j < |s| ==> IsLineTerminator(s[j]))
    decreases k
  {
    if !(k < |s| && !IsLineTerminator(s[k])) && k != start {
      CaptureStartIsLast(s, start, k - 1);
    }
  }

  /** A stretch `s[start..end]` of the text. */
  datatype Span = Span(start: nat, end: nat)

  /** Where the text `\s*(.+)` captures lies when matched at `start`, if it
      matches. */
  function Capture(s: string, start: nat): (m: Option<Span>)
    requires start <= |s|
    ensures m.Some? ==> start <= m.value.start < m.value.end <= |s|
  {
    match CaptureStart(s, start, start + SpaceRun(s, start))
    case None => None
    case Some(k) => Some(Span(k, k + LineRun(s, k)))
  }

  /** What `\s*(.+)` captures: only white space is skipped before it; the
      greedy `\s*` stops at the first character `.` matches if it meets one;
      the capture holds no line terminator; and the greedy `(.+)` stops only
      at a line terminator or at the end of the text. */
  lemma CaptureShape(s: string, start: nat)
    requires start <= |s| && Capture(s, start).Some?
    ensures var m := Capture(s, start).value;
            && (forall k :: start <= k < m.start ==> IsSpace(s[k]))
            && (start + SpaceRun(s, start) < |s| ==> m.start == start + SpaceRun(s, start))
            && (forall k :: m.start <= k < m.end ==> !IsLineTerminator(s[k]))
            && (m.end == |s| || IsLineTerminator(s[m.end]))
  {
    SpaceRunCovers(s, start);
    LineRunCovers(s, Capture(s, start).value.start);
  }

  /** `\s*(.+)` fails exactly when nothing but line terminators is left. */
  lemma CaptureFails(s: string, start: nat)
    requires start <= |s|
    ensures Capture(s, start).None? <==> forall k :: start <= k < |s| ==> IsLineTerminator(s[k])
  {
    CaptureStartIsLast(s, start, start + SpaceRun(s, start));
    SpaceRunCovers(s, start);
  }

  /** `(\d+):` at position `i`: the position of the colon that closes a
      non-empty run of digits. */
  function ClosingColon(s: string, i: nat): (j: Option<nat>)
    requires i <= |s|
    ensures j.Some? ==> i < j.value < |s| && s[j.value] == ':' && AllDigits(s[i..j.value])
  {
    DigitRunCovers(s, i);
    var j := i + DigitRun(s, i);
    if j > i && j < |s| && s[j] == ':' then Some(j) else None
  }

  /** A match of the pattern: where the line number's closing colon, the
      column number's closing colon and the captured message are. */
  datatype Hit = Hit(lineColon: nat, columnColon: nat, message: Span)

  /** The match of the pattern that starts at position `i`, if there is one. */
  function MatchAt(s: string, i: nat): (h: Option<Hit>)
    requires i <= |s|
  {
    if !(i < |s| && s[i] == ':') then None
    else
      match ClosingColon(s, i + 1) {
        case None => None
        case Some(j) =>
          match ClosingColon(s, j + 1) {
            case None => None
            case Some(k) =>
              match Capture(s, k + 1) {
                case None => None
                case Some(m) => Some(Hit(j, k, m))
              }
          }
      }
  }

  /** A match starts at a colon and has two non-empty digit groups, each
      closed by a colon, followed by a non-empty message. */
  lemma MatchAtShape(s: string, i: nat)
    requires i <= |s| && MatchAt(s, i).Some?
    ensures var h := MatchAt(s, i).value;
            && i < |s| && s[i] == ':'
            && i < h.lineColon < h.columnColon < h.message.start
            && h.message.start < h.message.end <= |s|
            && s[h.lineColon] == ':' && s[h.columnColon] == ':'
            && AllDigits(s[i + 1..h.lineColon])
            && AllDigits(s[h.lineColon + 1..h.columnColon])
  {
  }

  /** Where `s.match(pattern)` finds its match: the leftmost position at or
      after `from` where the pattern matches. */
  function FirstMatch(s: string, from: nat): (r: Option<nat>)
    requires from <= |s|
    ensures r.None? ==> forall j :: from <= j <= |s| ==> MatchAt(s, j).None?
    ensures r.Some? ==> from <= r.value <= |s| && MatchAt(s, r.value).Some?
    ensures r.Some? ==> forall j :: from <= j < r.value ==> MatchAt(s, j).None?
    decreases |s| - from
  {
    if MatchAt(s, from).Some? then Some(from)
    else if from == |s| then None
    else FirstMatch(s, from + 1)
  }

  /** The record a match at `i` becomes: `parseInt` of the two digit groups
      and the captured message. */
  function ErrorOfMatch(s: string, i: nat): (e: LintError)
    requires i <= |s| && MatchAt(s, i).Some?
    ensures e.message != []
  {
    var h := MatchAt(s, i).value;
    MatchAtShape(s, i);
    LintError(DecimalValue(s[i + 1..h.lineColon]),
              DecimalValue(s[h.lineColon + 1..h.columnColon]),
              s[h.message.start..h.message.end])
  }

  /** One step of `parseErrors`: the leftmost match gives line, column and
      message; a string without a match becomes line 1, column 1, with the
      whole string as the message. */
  function ParseError(s: string): (e: LintError)
    ensures FirstMatch(s, 0).None? ==> e == LintError(1, 1, s)
    ensures FirstMatch(s, 0).Some? ==> e == ErrorOfMatch(s, FirstMatch(s, 0).value)
  {
    match FirstMatch(s, 0)
    case Some(i) => ErrorOfMatch(s, i)
    case None => LintError(1, 1, s)
  }

  /** `parseErrors`: one record per error string, in order. */
  method ParseErrors(errorStrings: seq<string>) returns (parsed: seq<LintError>)
    ensures |parsed| == |errorStrings|
    ensures forall k :: 0 <= k < |parsed| ==> parsed[k] == ParseError(errorStrings[k])
  {
    parsed := [];
    for i := 0 to |errorStrings|
      invariant |parsed| == i
      invariant forall k :: 0 <= k < i ==> parsed[k] == ParseError(errorStrings[k])
    {
      parsed := parsed + [ParseError(errorStrings[i])];
    }
  }

  /** A run of digits followed by a non-digit is measured exactly. */
  lemma {:induction false} DigitRunOfDigits(s: string, i: nat, d: string)
    requires i + |d| < |s| && s[i..i + |d|] == d
    requires AllDigits(d) && !IsDigit(s[i + |d|])
    ensures DigitRun(s, i) == |d|
    decreases |d|
  {
    if d != [] {
      assert s[i] == d[0];
      assert s[i + 1..i + 1 + |d[1..]|] == d[1..];
      DigitRunOfDigits(s, i + 1, d[1..]);
    }
  }

  /** Digits closed by a colon: the colon is found right after them. */
  lemma ClosingColonOf(s: string, i: nat, d: string)
    requires i + |d| < |s| && s[i..i + |d|] == d && s[i + |d|] == ':'
    requires d != [] && AllDigits(d)
    ensures ClosingColon(s, i) == Some(i + |d|)
  {
    DigitRunOfDigits(s, i, d);
  }

  /** One blank followed by a one-line message that does not start with white
      space, up to the end: `\s*(.+)` captures exactly the message. */
  lemma CaptureAfterBlank(s: string, start: nat)
    requires start + 1 < |s| && s[start] == ' ' && !IsSpace(s[start + 1])
    requires forall x :: start + 1 <= x < |s| ==> !IsLineTerminator(s[x])
    ensures Capture(s, start) == Some(Span(start + 1, |s|))
  {
    assert SpaceRun(s, start + 1) == 0;
    assert SpaceRun(s, start) == 1;
    assert CaptureStart(s, start, start + 1) == Some(start + 1);
    LineRunToEnd(s, start + 1);
  }

  /** The pattern matches at a colon followed by two colon-closed numbers
      and a captured message. */
  lemma MatchAtColon(s: string, i: nat, j: nat, k: nat, m: Span)
    requires i < |s| && s[i] == ':'
    requires ClosingColon(s, i + 1) == Some(j)
    requires j + 1 <= |s| && ClosingColon(s, j + 1) == Some(k)
    requires k + 1 <= |s| && Capture(s, k + 1) == Some(m)
    ensures MatchAt(s, i) == Some(Hit(j, k, m))
  {
  }

  /** With no colon before `i`, a match at `i` is the first one. */
  lemma FirstMatchAt(s: string, i: nat)
    requires i <= |s| && MatchAt(s, i).Some?
    requires forall x :: 0 <= x < i ==> s[x] != ':'
    ensures FirstMatch(s, 0) == Some(i)
  {
  }

  /** A blank and then a one-line message that does not start with white
      space, up to the end of the text: the message is what is captured. */
  lemma CaptureOfMessage(s: string, k: nat, message: string)
    requires k + 2 + |message| == |s| && s[k + 1..] == " " + message
    requires message != [] && !IsSpace(message[0])
    requires forall x :: 0 <= x < |message| ==> !IsLineTerminator(message[x])
    ensures Capture(s, k + 1) == Some(Span(k + 2, |s|)) && s[k + 2..|s|] == message
  {
    assert s[k + 1] == ' ' && s[k + 2] == message[0];
    forall x | k + 2 <= x < |s| ensures !IsLineTerminator(s[x]) {
      assert s[x] == message[x - k - 2];
    }
    CaptureAfterBlank(s, k + 1);
  }

  /** A colon, two runs of digits each closed by a colon, and a captured
      message: the pattern matches there. */
  lemma MatchOfFields(s: string, i: nat, l: string, c: string, m: Span)
    requires i + 1 + |l| + 1 + |c| + 1 <= |s|
    requires s[i] == ':' && s[i + 1 + |l|] == ':' && s[i + 1 + |l| + 1 + |c|] == ':'
    requires l != [] && c != [] && AllDigits(l) && AllDigits(c)
    requires s[i + 1..i + 1 + |l|] == l && s[i + 1 + |l| + 1..i + 1 + |l| + 1 + |c|] == c
    requires Capture(s, i + 1 + |l| + 1 + |c| + 1) == Some(m)
    ensures MatchAt(s, i) == Some(Hit(i + 1 + |l|, i + 1 + |l| + 1 + |c|, m))
  {
    var j := i + 1 + |l|;
    ClosingColonOf(s, i + 1, l);
    ClosingColonOf(s, j + 1, c);
    MatchAtColon(s, i, j, j + 1 + |c|, m);
  }

  /** The first match, read as a record. */
  lemma ErrorOfFirstMatch(s: string, i: nat, j: nat, k: nat, m: Span, l: string, c: string, message: string)
    requires i <= |s| && MatchAt(s, i) == Some(Hit(j, k, m))
    requires forall x :: 0 <= x < i ==> s[x] != ':'
    requires i + 1 <= j <= |s| && j + 1 <= k <= |s| && m.start <= m.end <= |s|
    requires s[i + 1..j] == l && s[j + 1..k] == c && s[m.start..m.end] == message
    requires AllDigits(l) && AllDigits(c)
    ensures ParseError(s) == LintError(DecimalValue(l), DecimalValue(c), message)
  {
    FirstMatchAt(s, i);
    assert ParseError(s) == ErrorOfMatch(s, i);
    var h := MatchAt(s, i).value;
    assert h == Hit(j, k, m);
    assert ErrorOfMatch(s, i) == LintError(DecimalValue(s[i + 1..j]), DecimalValue(s[j + 1..k]), s[m.start..m.end]);
    assert DecimalValue(s[i + 1..j]) == DecimalValue(l);
    assert DecimalValue(s[j + 1..k]) == DecimalValue(c);
  }

  /** A string laid out as `file:line:col: message` around the colon at `i`
      parses into the two numbers and the message. */
  lemma ParseLaidOut(s: string, i: nat, l: string, c: string, message: string)
    requires i + 1 + |l| + 1 + |c| + 2 + |message| == |s|
    requires forall x :: 0 <= x < i ==> s[x] != ':'
    requires s[i] == ':' && s[i + 1 + |l|] == ':' && s[i + 1 + |l| + 1 + |c|] == ':'
    requires l != [] && c != [] && AllDigits(l) && AllDigits(c)
    requires s[i + 1..i + 1 + |l|] == l && s[i + 1 + |l| + 1..i + 1 + |l| + 1 + |c|] == c
    requires s[i + 1 + |l| + 1 + |c| + 1..] == " " + message
    requires message != [] && !IsSpace(message[0])
    requires forall x :: 0 <= x < |message| ==> !IsLineTerminator(message[x])
    ensures ParseError(s) == LintError(DecimalValue(l), DecimalValue(c), message)
  {
    var j := i + 1 + |l|;
    var k := j + 1 + |c|;
    CaptureOfMessage(s, k, message);
    MatchOfFields(s, i, l, c, Span(k + 2, |s|));
    ErrorOfFirstMatch(s, i, j, k, Span(k + 2, |s|), l, c, message);
  }

  /** A diagnostic `file:line:col: message` written with any digit strings
      parses into their values and the message. */
  lemma ParseDiagnosticText(file: string, l: string, c: string, message: string)
    requires ':' !in file
    requires l != [] && c != [] && AllDigits(l) && AllDigits(c)
    requires message != [] && !IsSpace(message[0])
    requires forall j :: 0 <= j < |message| ==> !IsLineTerminator(message[j])
    ensures ParseError(file + ":" + l + ":" + c + ": " + message)
            == LintError(DecimalValue(l), DecimalValue(c), message)
  {
    var s := file + ":" + l + ":" + c + ": " + message;
    var i := |file|;
    forall x | 0 <= x < i ensures s[x] != ':' {
      assert s[x] == file[x];
    }
    assert s[i + 1..i + 1 + |l|] == l;
    assert s[i + 1 + |l| + 1..i + 1 + |l| + 1 + |c|] == c;
    assert s[i + 1 + |l| + 1 + |c| + 1..] == " " + message;
    ParseLaidOut(s, i, l, c, message);
  }

  /** A Go diagnostic `file:line:col: message`, with a file name free of
      colons and a one-line message that does not start with white space,
      parses back into its line, column and message. */
  lemma DiagnosticRoundTrip(file: string, line: nat, column: nat, message: string)
    requires ':' !in file
    requires message != [] && !IsSpace(message[0])
    requires forall j :: 0 <= j < |message| ==> !IsLineTerminator(message[j])
    ensures ParseError(file + ":" + DecimalString(line) + ":" + DecimalString(column) + ": " + message)
            == LintError(line, column, message)
  {
    ParseDiagnosticText(file, DecimalString(line), DecimalString(column), message);
    DecimalRoundTrip(line);
    DecimalRoundTrip(column);
  }

  // ---------------------------------------------------------------------
  // validateOutput

  /** `lines.map(l => l.trim())` */
  function TrimAll(lines: seq<string>): (r: seq<string>)
    ensures |r| == |lines|
    ensures forall k :: 0 <= k < |r| ==> r[k] == Trim(lines[k])
  {
    if lines == [] then [] else [Trim(lines[0])] + TrimAll(lines[1..])
  }

  /** Trimming line by line distributes over concatenated line lists. */
  lemma {:induction false} TrimAllConcat(a: seq<string>, b: seq<string>)
    ensures TrimAll(a + b) == TrimAll(a) + TrimAll(b)
  {
    if a != [] {
      assert (a + b)[1..] == a[1..] + b;
      TrimAllConcat(a[1..], b);
    }
  }

  /** `output.split('\n').map(l => l.trim())` */
  function TrimmedLines(output: string): (lines: seq<string>)
  {
    TrimAll(Split(output, '\n'))
  }

  /** The `go test` rule on trimmed lines: some line is PASS and none is FAIL. */
  predicate LinesPass(lines: seq<string>)
  {
    "PASS" in lines && "FAIL" !in lines
  }

  /** The `go test` rule on the output. */
  predicate TestRunPassed(output: string)
  {
    LinesPass(TrimmedLines(output))
  }

  /** The lines of two outputs printed one after the other are the lines of
      the first followed by the lines of the second. */
  lemma TrimmedLinesConcat(a: string, b: string)
    ensures TrimmedLines(a + "\n" + b) == TrimmedLines(a) + TrimmedLines(b)
  {
    SplitConcat(a, b, '\n');
    assert a + "\n" + b == a + ['\n'] + b;
    TrimAllConcat(Split(a, '\n'), Split(b, '\n'));
  }

  /** `validateOutput(actualOutput)` */
  function ValidateOutput(p: ChallengeProps, regex: RegexEngine, actual: string): (v: Validation)
    ensures p.testCode != "" || p.validationPattern == "PASS" ==> v == Verdict(TestRunPassed(actual))
    ensures v.PatternThrew? ==> regex.SyntaxError? && p.validationPattern != "" && p.testCode == ""
    ensures v == Verdict(true) ==>
              || ((p.testCode != "" || p.validationPattern == "PASS") && TestRunPassed(actual))
              || (p.expectedOutput != "" && Trim(actual) == Trim(p.expectedOutput))
              || (p.validationPattern != "" && regex.Compiled? && regex.test(Trim(actual)))
    ensures (p.testCode == "" && p.validationPattern != "PASS" && p.expectedOutput != ""
             && Trim(actual) == Trim(p.expectedOutput)) ==> v == Verdict(true)
    ensures p.testCode == "" && p.validationPattern == "" && p.expectedOutput == "" ==> v == Verdict(false)
    ensures p.testCode == "" && p.validationPattern == "" ==> v == Verdict(p.expectedOutput != "" && Trim(actual) == Trim(p.expectedOutput))
    ensures p.testCode == "" && p.validationPattern != "PASS" && p.validationPattern != ""
            && !(p.expectedOutput != "" && Trim(actual) == Trim(p.expectedOutput)) ==>
              v == (if regex.Compiled? then Verdict(regex.test(Trim(actual))) else PatternThrew(regex.message))
  {
    if p.testCode != "" || p.validationPattern == "PASS" then Verdict(TestRunPassed(actual))
    else if p.expectedOutput != "" && Trim(actual) == Trim(p.expectedOutput) then Verdict(true)
    else if p.validationPattern != "" then
      match regex
      case Compiled(test) => Verdict(test(Trim(actual)))
      case SyntaxError(message) => PatternThrew(message)
    else Verdict(false)
  }

  /** A single line followed by a line break passes the test rule exactly
      when the line trims to PASS. */
  lemma TestRunPassedOneLine(line: string)
    requires '\n' !in line
    ensures TestRunPassed(line + "\n") <==> Trim(line) == "PASS"
  {
    TrimmedLinesOneLine(line);
    LinesPassOneLine(Trim(line));
  }

  /** One trimmed line and an empty one pass exactly when the line is PASS. */
  lemma LinesPassOneLine(t: string)
    ensures LinesPass([t, ""]) <==> t == "PASS"
  {
  }

  /** The trimmed lines of a single line followed by a line break. */
  lemma TrimmedLinesOneLine(line: string)
    requires '\n' !in line
    ensures TrimmedLines(line + "\n") == [Trim(line), ""]
  {
    SplitOneLine(line);
    var r := TrimAll([line, ""]);
    assert |r| == 2 && r[0] == Trim(line) && r[1] == Trim("");
    assert Trim("") == "";
  }

  /** A single line followed by a line break splits into the line and an
      empty last piece. */
  lemma SplitOneLine(line: string)
    requires '\n' !in line
    ensures Split(line + "\n", '\n') == [line, ""]
  {
    SplitWithoutSeparator(line, '\n');
    SplitWithoutSeparator("", '\n');
    SplitConcat(line, "", '\n');
    assert line + "\n" == line + ['\n'] + "";
  }

  /** The trust gap of the test rule: a program that merely prints a line
      reading PASS solves a test-validated challenge. */
  lemma PrintedPassSolvesTestChallenge(p: ChallengeProps, regex: RegexEngine, line: string)
    requires p.testCode != ""
    requires '\n' !in line && Trim(line) == "PASS"
    ensures ValidateOutput(p, regex, line + "\n") == Verdict(true)
  {
    TestRunPassedOneLine(line);
  }

  // ---------------------------------------------------------------------
  // Component state

  class PlaygroundState {
    const props: ChallengeProps
    const initialCode: string
    const hints: seq<string>
    var code: string
    var output: string
    var errors: seq<LintError>
    var challengeSolved: bool
    var currentHint: nat
    var showHint: bool
    /** How many times the `onSuccess` callback has been called. */
    var successCalls: nat

    /** The hint index never points past the last hint. */
    ghost predicate Valid()
      reads this
    {
      currentHint == 0 || currentHint < |hints|
    }

    constructor (props: ChallengeProps, initialCode: string, hints: seq<string>)
      ensures Valid()
      ensures this.props == props && this.initialCode == initialCode && this.hints == hints
      ensures code == initialCode && output == "" && errors == [] && !challengeSolved
      ensures currentHint == 0 && !showHint && successCalls == 0
    {
      this.props := props;
      this.initialCode := initialCode;
      this.hints := hints;
      code := initialCode;
      output := "";
      errors := [];
      challengeSolved := false;
      currentHint := 0;
      showHint := false;
      successCalls := 0;
    }

    /** `runCode`, once `compileGo` has resolved with `result`. */
    method RunCode(result: GoCompilerClient.CompileResult, regex: RegexEngine)
      modifies this`output, this`errors, this`challengeSolved, this`successCalls
      ensures result.errors != [] ==>
                && output == ""
                && |errors| == |result.errors|
                && (forall k :: 0 <= k < |errors| ==> errors[k] == ParseError(result.errors[k]))
                && challengeSolved == old(challengeSolved) && successCalls == old(successCalls)
      ensures result.errors == [] && result.output == "" ==>
                && output == "" && errors == []
                && challengeSolved == old(challengeSolved) && successCalls == old(successCalls)
      ensures result.errors == [] && result.output != "" ==>
                && output == result.output
                && var solved := IsChallengeMode(props)
                                 && ValidateOutput(props, regex, result.output) == Verdict(true);
                && challengeSolved == (old(challengeSolved) || solved)
                && successCalls == old(successCalls) + (if solved then 1 else 0)
                && errors == (if IsChallengeMode(props) && ValidateOutput(props, regex, result.output).PatternThrew?
                              then [LintError(1, 1, RunFailurePrefix
                                                    + ValidateOutput(props, regex, result.output).message)]
                              else [])
    {
      errors := [];
      output := "";
      if |result.errors| > 0 {
        errors := ParseErrors(result.errors);
      } else if result.output != "" {
        output := result.output;
        if IsChallengeMode(props) {
          match ValidateOutput(props, regex, result.output)
          case Verdict(passed) =>
            if passed {
              challengeSolved := true;
              successCalls := successCalls + 1;
            }
          case PatternThrew(message) =>
            errors := [LintError(1, 1, RunFailurePrefix + message)];
        }
      }
    }

    /** `resetCode` */
    method ResetCode()
      modifies this`code, this`output, this`errors, this`challengeSolved
      ensures code == initialCode && output == "" && errors == [] && !challengeSolved
    {
      code := initialCode;
      output := "";
      errors := [];
      challengeSolved := false;
    }

    /** `nextHint`: advance while a later hint exists. */
    method NextHint()
      modifies this`currentHint, this`showHint
      ensures old(Valid()) ==> Valid()
      ensures old(currentHint) < |hints| - 1 ==> currentHint == old(currentHint) + 1 && showHint
      ensures old(currentHint) >= |hints| - 1 ==> currentHint == old(currentHint) && showHint == old(showHint)
    {
      if currentHint < |hints| - 1 {
        currentHint := currentHint + 1;
        showHint := true;
      }
    }
  }
}
