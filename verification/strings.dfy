/**
 * The handful of JavaScript string operations the application relies on:
 * `trim`, `split` on one character, `join`, `includes`, `startsWith` and
 * `indexOf`, over strings seen as sequences of UTF-16 code units.
 */
module Strings {

  datatype Option<T> = None | Some(value: T)

  /** The characters JavaScript's `trim()` removes and the regular-expression
      class `\s` matches: the WhiteSpace and LineTerminator code points. */
  predicate IsSpace(c: char)
  {
    c == '\t' || c == '\n' || c == '\U{B}' || c == '\U{C}' || c == '\r' || c == ' '
    || c == '\U{A0}' || c == '\U{1680}' || ('\U{2000}' <= c <= '\U{200A}')
    || c == '\U{2028}' || c == '\U{2029}' || c == '\U{202F}' || c == '\U{205F}'
    || c == '\U{3000}' || c == '\U{FEFF}'
  }

  /** The characters the regular-expression `.` refuses to match. */
  predicate IsLineTerminator(c: char)
  {
    c == '\n' || c == '\r' || c == '\U{2028}' || c == '\U{2029}'
  }

  /** `s.trim()` is the empty string, i.e. `s.trim()` is falsy. */
  predicate IsBlank(s: string)
  {
    forall i :: 0 <= i < |s| ==> IsSpace(s[i])
  }

  predicate NoSpaceAtEnds(s: string)
  {
    s == [] || (!IsSpace(s[0]) && !IsSpace(s[|s| - 1]))
  }

  /** The end of the run of white space that starts at `i`. */
  function SpaceEnd(s: string, i: nat): (j: nat)
    requires i <= |s|
    ensures i <= j <= |s|
    ensures forall k :: i <= k < j ==> IsSpace(s[k])
    ensures j == |s| || !IsSpace(s[j])
    decreases |s| - i
  {
    if i < |s| && IsSpace(s[i]) then SpaceEnd(s, i + 1) else i
  }

  /** The end of a run is wherever the white space stops. */
  lemma {:induction false} SpaceEndAt(s: string, i: nat, j: nat)
    requires i <= j <= |s|
    requires forall k :: i <= k < j ==> IsSpace(s[k])
    requires j == |s| || !IsSpace(s[j])
    ensures SpaceEnd(s, i) == j
    decreases j - i
  {
    if i < j {
      SpaceEndAt(s, i + 1, j);
    }
  }

  /** The start of the run of white space that ends at `j`, looking no
      further back than `lo`. */
  function SpaceStart(s: string, lo: nat, j: nat): (i: nat)
    requires lo <= j <= |s|
    ensures lo <= i <= j
    ensures forall k :: i <= k < j ==> IsSpace(s[k])
    ensures i == lo || !IsSpace(s[i - 1])
    decreases j
  {
    if lo < j && IsSpace(s[j - 1]) then SpaceStart(s, lo, j - 1) else j
  }

  /** `s.trim()`: what is left between the leading and the trailing white
      space. */
  function Trim(s: string): (r: string)
    ensures NoSpaceAtEnds(r)
    ensures r == [] <==> IsBlank(s)
  {
    var a := SpaceEnd(s, 0);
    var b := SpaceStart(s, a, |s|);
    SpaceRunsMeet(s, a, b);
    s[a..b]
  }

  /** When the leading run of white space meets the trailing one, the whole
      text is white space. */
  lemma SpaceRunsMeet(s: string, a: nat, b: nat)
    requires a == SpaceEnd(s, 0) && b == SpaceStart(s, a, |s|)
    ensures a == b ==> IsBlank(s)
  {
    if a == b {
      forall k | 0 <= k < |s| ensures IsSpace(s[k]) {
        if k < a {} else {}
      }
    }
  }

  /** What `trim` removes is white space at either end and nothing else. */
  lemma TrimIsInfix(s: string)
    ensures exists i :: (0 <= i <= |s| - |Trim(s)| && Trim(s) == s[i..i + |Trim(s)|]
                         && IsBlank(s[..i]) && IsBlank(s[i + |Trim(s)|..]))
  {
    var a := SpaceEnd(s, 0);
    var b := SpaceStart(s, a, |s|);
    assert Trim(s) == s[a..b];
    assert IsBlank(s[..a]);
    assert IsBlank(s[b..]);
  }

  /** A text that does not start with white space loses only its tail to
      `trim`. */
  lemma TrimOfUnpadded(s: string)
    requires s == [] || !IsSpace(s[0])
    ensures Trim(s) == s[..|Trim(s)|]
  {
    assert SpaceEnd(s, 0) == 0;
  }

  /** `trim` leaves a text without white space at its ends alone. */
  lemma TrimUnpadded(s: string)
    requires NoSpaceAtEnds(s)
    ensures Trim(s) == s
  {
    assert SpaceEnd(s, 0) == 0;
    assert SpaceStart(s, 0, |s|) == |s|;
  }

  predicate StartsWith(s: string, prefix: string)
  {
    |prefix| <= |s| && s[..|prefix|] == prefix
  }

  predicate OccursAt(s: string, pat: string, i: nat)
  {
    i + |pat| <= |s| && s[i..i + |pat|] == pat
  }

  /** `s.includes(pat)` */
  predicate Contains(s: string, pat: string)
  {
    exists i: nat | i <= |s| :: OccursAt(s, pat, i)
  }

  /** `s.indexOf(pat)`, with `None` for -1: the leftmost occurrence. */
  function IndexOf(s: string, pat: string, from: nat := 0): (r: Option<nat>)
    requires from <= |s|
    ensures r.Some? ==> from <= r.value && OccursAt(s, pat, r.value)
    ensures forall j: nat :: from <= j && OccursAt(s, pat, j) ==> r.Some? && r.value <= j
    decreases |s| - from
  {
    if OccursAt(s, pat, from) then Some(from)
    else if from == |s| then None
    else IndexOf(s, pat, from + 1)
  }

  lemma IndexOfContains(s: string, pat: string)
    ensures IndexOf(s, pat).Some? <==> Contains(s, pat)
  {
    if Contains(s, pat) {
      var i: nat :| i <= |s| && OccursAt(s, pat, i);
    }
  }

  /** The position of the first `c` at or after `i`, or `|s|` if none. */
  function CharIndex(s: string, c: char, i: nat): (j: nat)
    requires i <= |s|
    ensures i <= j <= |s|
    ensures forall k :: i <= k < j ==> s[k] != c
    ensures j == |s| || s[j] == c
    decreases |s| - i
  {
    if i < |s| && s[i] != c then CharIndex(s, c, i + 1) else i
  }

  /** `s.split(sep)` for a one-character separator: the text up to the first
      separator, then the pieces of the rest. */
  function Split(s: string, sep: char): (r: seq<string>)
    ensures |r| >= 1
    decreases |s|
  {
    var j := CharIndex(s, sep, 0);
    if j == |s| then [s] else [s[..j]] + Split(s[j + 1..], sep)
  }

  /** No piece holds the separator. */
  lemma {:induction false} SplitPiecesLackSeparator(s: string, sep: char)
    ensures forall k :: 0 <= k < |Split(s, sep)| ==> sep !in Split(s, sep)[k]
    decreases |s|
  {
    var j := CharIndex(s, sep, 0);
    if j < |s| {
      SplitPiecesLackSeparator(s[j + 1..], sep);
    }
  }

  /** Text without the separator is a single piece. */
  lemma SplitWithoutSeparator(s: string, sep: char)
    requires sep !in s
    ensures Split(s, sep) == [s]
  {
    assert CharIndex(s, sep, 0) == |s|;
  }

  /** Text joined at a separator splits into the pieces of each side. */
  lemma {:induction false} SplitConcat(a: string, b: string, sep: char)
    ensures Split(a + [sep] + b, sep) == Split(a, sep) + Split(b, sep)
    decreases |a|
  {
    var s := a + [sep] + b;
    var j := CharIndex(a, sep, 0);
    assert CharIndex(s, sep, 0) == j by {
      CharIndexOfPrefix(a, s, sep, 0);
    }
    if j == |a| {
      assert s[..j] == a && s[j + 1..] == b;
    } else {
      assert s[..j] == a[..j];
      assert s[j + 1..] == a[j + 1..] + [sep] + b;
      SplitConcat(a[j + 1..], b, sep);
    }
  }

  /** Looking for a character in a text that starts with `a` finds the same
      position as in `a`, or the end of `a` if it is not there and the text
      continues with that character. */
  lemma {:induction false} CharIndexOfPrefix(a: string, s: string, c: char, i: nat)
    requires i <= |a| < |s| && s[..|a|] == a && s[|a|] == c
    ensures CharIndex(s, c, i) == CharIndex(a, c, i)
    decreases |a| - i
  {
    if i < |a| {
      assert s[i] == a[i];
      if a[i] != c {
        CharIndexOfPrefix(a, s, c, i + 1);
      }
    }
  }

  /** `parts.join(sep)` */
  function Join(parts: seq<string>, sep: string): string
  {
    if parts == [] then ""
    else if |parts| == 1 then parts[0]
    else parts[0] + sep + Join(parts[1..], sep)
  }

  /** Splitting on a character and joining again on it gives back the text. */
  lemma {:induction false} JoinSplit(s: string, sep: char)
    ensures Join(Split(s, sep), [sep]) == s
    decreases |s|
  {
    var j := CharIndex(s, sep, 0);
    if j < |s| {
      var rest := Split(s[j + 1..], sep);
      JoinSplit(s[j + 1..], sep);
      var r := Split(s, sep);
      assert r == [s[..j]] + rest;
      assert r[1..] == rest;
      assert s == s[..j] + [sep] + s[j + 1..];
    }
  }

  /** Keeps the elements of `parts` that are not blank, in order. */
  function NonBlank(parts: seq<string>): (r: seq<string>)
    ensures |r| <= |parts|
    ensures forall k :: 0 <= k < |r| ==> !IsBlank(r[k]) && r[k] in parts
    ensures forall p :: p in parts && !IsBlank(p) ==> p in r
  {
    if parts == [] then []
    else if IsBlank(parts[0]) then NonBlank(parts[1..])
    else [parts[0]] + NonBlank(parts[1..])
  }

  /** The filter keeps the order of the lines: it distributes over
      concatenation. */
  lemma {:induction false} NonBlankConcat(a: seq<string>, b: seq<string>)
    ensures NonBlank(a + b) == NonBlank(a) + NonBlank(b)
  {
    if a == [] {
      assert a + b == b;
    } else {
      assert (a + b)[1..] == a[1..] + b;
      NonBlankConcat(a[1..], b);
    }
  }

  /** A value thrown by a JavaScript call: `isError` says whether it is an
      `Error` instance, whose `message` the application reports. */
  datatype Thrown = Thrown(isError: bool, message: string)

  /** `err instanceof Error ? err.message : 'Unknown error'` */
  function ThrownMessage(t: Thrown): string
  {
    if t.isError then t.message else "Unknown error"
  }

  predicate IsDigit(c: char)
  {
    '0' <= c <= '9'
  }

  predicate AllDigits(s: string)
  {
    forall i :: 0 <= i < |s| ==> IsDigit(s[i])
  }

  /** `parseInt(s, 10)` for a non-empty run of decimal digits. */
  function DecimalValue(s: string): nat
    requires AllDigits(s)
  {
    PrefixValue(s, |s|)
  }

  /** The value of the first `n` digits of `s`. */
  function PrefixValue(s: string, n: nat): nat
    requires n <= |s| && AllDigits(s)
  {
    if n == 0 then 0 else 10 * PrefixValue(s, n - 1) + (s[n - 1] as int - '0' as int)
  }

  /** The value of a prefix depends only on the digits in it. */
  lemma {:induction false} PrefixValueOfPrefix(s: string, t: string, n: nat)
    requires n <= |s| && n <= |t| && AllDigits(s) && AllDigits(t)
    requires s[..n] == t[..n]
    ensures PrefixValue(s, n) == PrefixValue(t, n)
  {
    if n > 0 {
      assert s[n - 1] == s[..n][n - 1] == t[..n][n - 1] == t[n - 1];
      assert s[..n - 1] == s[..n][..n - 1] == t[..n][..n - 1] == t[..n - 1];
      PrefixValueOfPrefix(s, t, n - 1);
    }
  }

  /** `String(n)` for a natural number: its decimal digits, no leading zero. */
  function DecimalString(n: nat): (r: string)
    ensures |r| >= 1 && AllDigits(r)
    ensures r[0] == '0' ==> n == 0
  {
    var d := ['0' + (n % 10) as char];
    if n < 10 then d else DecimalString(n / 10) + d
  }

  /** Reading back the decimal text of a number gives the number. */
  lemma {:induction false} DecimalRoundTrip(n: nat)
    ensures DecimalValue(DecimalString(n)) == n
  {
    var r := DecimalString(n);
    if n >= 10 {
      var q := DecimalString(n / 10);
      DecimalRoundTrip(n / 10);
      assert r[..|r| - 1] == q;
      PrefixValueOfPrefix(r, q, |q|);
      assert r[|r| - 1] as int - '0' as int == n % 10;
      assert PrefixValue(r, |r|) == 10 * PrefixValue(q, |q|) + n % 10;
    }
  }
}
