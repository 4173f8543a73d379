/**
 * `extractExcerpt(content, maxLength = 180)`: the short plain-text preview of
 * a lesson's markdown. The first three lines that are neither blank nor
 * headings are joined with spaces. Fenced and inline code spans and markdown
 * punctuation are then removed, white space is collapsed and trimmed, and an
 * over-long result is cut and marked with "...".
 *
 * The four regular expressions are written out as scans; `\s` is the same set
 * of characters `trim` removes.
 */
module Content {
  import opened Strings

  const DefaultMaxLength := 180
  const Fence := "```"
  const Ellipsis := "..."

  /** `line.trim() && !line.startsWith('#')` */
  predicate Qualifies(line: string)
  {
    Trim(line) != "" && !StartsWith(line, "#")
  }

  /** The lines that pass the filter, in order. */
  function Qualifying(lines: seq<string>): (r: seq<string>)
    ensures |r| <= |lines|
    ensures forall k :: 0 <= k < |r| ==> Qualifies(r[k]) && r[k] in lines
    ensures forall l :: l in lines && Qualifies(l) ==> l in r
  {
    if lines == [] then []
    else if Qualifies(lines[0]) then [lines[0]] + Qualifying(lines[1..])
    else Qualifying(lines[1..])
  }

  /** The filter keeps the order of the lines: it distributes over
      concatenation, so the first three qualifying lines of the content are
      taken from its first lines. */
  lemma {:induction false} QualifyingConcat(a: seq<string>, b: seq<string>)
    ensures Qualifying(a + b) == Qualifying(a) + Qualifying(b)
  {
    if a == [] {
      assert a + b == b;
    } else {
      assert (a + b)[1..] == a[1..] + b;
      QualifyingConcat(a[1..], b);
    }
  }

  /** `content.split('\n').filter(...).slice(0, 3)` */
  function ExcerptLines(content: string): (r: seq<string>)
    ensures |r| <= 3
    ensures var q := Qualifying(Split(content, '\n'));
            |r| == (if |q| < 3 then |q| else 3) && r == q[..|r|]
  {
    var q := Qualifying(Split(content, '\n'));
    if |q| < 3 then q else q[..3]
  }

  /** `replace(/```[\s\S]*?```/g, '')`: at each position an opening fence is
      matched with the nearest closing fence after it, and the whole span is
      dropped; an opening fence with no closing one stays. */
  function StripFences(s: string): (r: string)
    ensures |r| <= |s|
    decreases |s|
  {
    if s == [] then []
    else if StartsWith(s, Fence) && IndexOf(s, Fence, 3).Some? then
      StripFences(s[IndexOf(s, Fence, 3).value + 3..])
    else [s[0]] + StripFences(s[1..])
  }

  /** Text without backticks passes through untouched. */
  lemma {:induction false} StripFencesKeepsPlainText(a: string, c: string)
    requires '`' !in a
    ensures StripFences(a + c) == a + StripFences(c)
  {
    if a != [] {
      assert !StartsWith(a + c, Fence) by {
        assert (a + c)[0] == a[0];
      }
      assert (a + c)[1..] == a[1..] + c;
      assert StripFences(a + c) == [a[0]] + StripFences(a[1..] + c);
      StripFencesKeepsPlainText(a[1..], c);
      assert a == [a[0]] + a[1..];
    } else {
      assert a + c == c;
    }
  }

  /** A fenced block is removed, fences and all, when the fence after its
      body is the first one: no fence starts inside the body or overlaps the
      closing fence. The body may hold single backticks, such as a Go raw
      string. */
  lemma FencedSpanRemoved(b: string, c: string)
    requires forall j: nat :: j < |b| ==> !OccursAt(b + Fence, Fence, j)
    ensures StripFences(Fence + b + Fence + c) == StripFences(c)
  {
    var s := Fence + b + Fence + c;
    var q := 3 + |b|;
    assert s[3..q + 3] == b + Fence;
    assert OccursAt(s, Fence, q) by {
      assert s[q..q + 3] == Fence;
    }
    forall j: nat | 3 <= j < q ensures !OccursAt(s, Fence, j) {
      assert s[j..j + 3] == (b + Fence)[j - 3..j];
      assert !OccursAt(b + Fence, Fence, j - 3);
    }
    assert IndexOf(s, Fence, 3) == Some(q);
    assert StartsWith(s, Fence);
    assert s[q + 3..] == c;
  }

  /** ``replace(/`[^`]+`/g, '')``: a backtick, at least one other character
      and the next backtick are dropped. */
  function StripInline(s: string): (r: string)
    ensures |r| <= |s|
    decreases |s|
  {
    if s == [] then []
    else if s[0] == '`' && 1 < CharIndex(s, '`', 1) < |s| then
      StripInline(s[CharIndex(s, '`', 1) + 1..])
    else [s[0]] + StripInline(s[1..])
  }

  lemma {:induction false} StripInlineKeepsPlainText(a: string, c: string)
    requires '`' !in a
    ensures StripInline(a + c) == a + StripInline(c)
  {
    if a != [] {
      assert (a + c)[0] == a[0];
      assert (a + c)[1..] == a[1..] + c;
      assert StripInline(a + c) == [a[0]] + StripInline(a[1..] + c);
      StripInlineKeepsPlainText(a[1..], c);
      assert a == [a[0]] + a[1..];
    } else {
      assert a + c == c;
    }
  }

  /** An inline code span is removed, backticks and all. */
  lemma InlineSpanRemoved(b: string, c: string)
    requires b != [] && '`' !in b
    ensures StripInline("`" + b + "`" + c) == StripInline(c)
  {
    var s := "`" + b + "`" + c;
    var q := 1 + |b|;
    assert s[q] == '`';
    assert forall k :: 1 <= k < q ==> s[k] == b[k - 1];
    assert CharIndex(s, '`', 1) == q;
    assert s[q + 1..] == c;
  }

  /** A lone or doubled backtick starts neither a fenced block nor an
      inline span when no other backtick follows. */
  lemma UnmatchedFenceKept(m: string, c: string)
    requires '`' !in c
    requires m == "`" || m == "``"
    ensures StripFences(m + c) == m + c
  {
    StripFencesKeepsPlainText(c, []);
    assert c + [] == c;
    var one := "`" + c;
    assert !StartsWith(one, Fence) by {
      if |one| >= 3 {
        assert one[..3][1] == c[0] && c[0] in c;
      }
    }
    assert one[1..] == c;
    if m == "``" {
      var two := "`" + one;
      assert !StartsWith(two, Fence) by {
        if |two| >= 3 {
          assert two[..3][2] == c[0] && c[0] in c;
        }
      }
      assert two[1..] == one;
      assert m + c == two;
    }
  }

  lemma UnmatchedInlineKept(m: string, c: string)
    requires '`' !in c
    requires m == "`" || m == "``"
    ensures StripInline(m + c) == m + c
  {
    StripInlineKeepsPlainText(c, []);
    assert c + [] == c;
    var one := "`" + c;
    assert CharIndex(one, '`', 1) == |one| by {
      assert forall k :: 1 <= k < |one| ==> one[k] == c[k - 1];
    }
    assert one[1..] == c;
    if m == "``" {
      var two := "`" + one;
      assert CharIndex(two, '`', 1) == 1;
      assert two[1..] == one;
      assert m + c == two;
    }
  }

  /** A backtick with no partner, alone or doubled, between texts without
      backticks, survives both code removals. */
  lemma UnmatchedBackticksKept(a: string, m: string, c: string)
    requires '`' !in a && '`' !in c
    requires m == "`" || m == "``"
    ensures StripFences(a + m + c) == a + m + c
    ensures StripInline(a + m + c) == a + m + c
  {
    assert a + m + c == a + (m + c);
    UnmatchedFenceKept(m, c);
    UnmatchedInlineKept(m, c);
    StripFencesKeepsPlainText(a, m + c);
    StripInlineKeepsPlainText(a, m + c);
  }

  /** `[#*_~\[\]]` */
  predicate IsMarkup(c: char)
  {
    c == '#' || c == '*' || c == '_' || c == '~' || c == '[' || c == ']'
  }

  /** `replace(/[#*_~\[\]]/g, '')` */
  function RemoveMarkup(s: string): (r: string)
    ensures forall c :: c in r <==> c in s && !IsMarkup(c)
    ensures forall k :: 0 <= k < |r| ==> !IsMarkup(r[k])
  {
    if s == [] then []
    else
      assert s == [s[0]] + s[1..];
      (if IsMarkup(s[0]) then [] else [s[0]]) + RemoveMarkup(s[1..])
  }

  /** The removal keeps the order of the other characters: it distributes
      over concatenation. */
  lemma {:induction false} RemoveMarkupConcat(a: string, b: string)
    ensures RemoveMarkup(a + b) == RemoveMarkup(a) + RemoveMarkup(b)
  {
    if a == [] {
      assert a + b == b;
    } else {
      assert (a + b)[1..] == a[1..] + b;
      RemoveMarkupConcat(a[1..], b);
    }
  }

  /** Every white-space character is a plain space, and no two are adjacent. */
  predicate Collapsed(s: string)
  {
    forall k :: 0 <= k < |s| && IsSpace(s[k]) ==> s[k] == ' ' && (k + 1 == |s| || !IsSpace(s[k + 1]))
  }

  predicate NoMarkup(s: string)
  {
    forall k :: 0 <= k < |s| ==> !IsMarkup(s[k])
  }

  /** `replace(/\s+/g, ' ')` */
  function Collapse(s: string): (r: string)
    ensures Collapsed(r)
    ensures r == [] <==> s == []
    ensures r != [] ==> (IsSpace(r[0]) <==> IsSpace(s[0]))
    ensures NoMarkup(s) ==> NoMarkup(r)
    decreases |s|
  {
    if s == [] then []
    else if IsSpace(s[0]) then
      var rest := s[SpaceEnd(s, 0)..];
      assert NoMarkup(s) ==> NoMarkup(rest) by {
        if NoMarkup(s) {
          forall k | 0 <= k < |rest| ensures !IsMarkup(rest[k]) {
            assert rest[k] == s[SpaceEnd(s, 0) + k];
          }
        }
      }
      [' '] + Collapse(rest)
    else
      assert NoMarkup(s) ==> NoMarkup(s[1..]) by {
        if NoMarkup(s) {
          forall k | 0 <= k < |s| - 1 ensures !IsMarkup(s[1..][k]) {
            assert s[1..][k] == s[k + 1];
          }
        }
      }
      [s[0]] + Collapse(s[1..])
  }

  /** Collapsing works run by run: when `a` does not end in white space, no
      run spans the seam. */
  lemma {:induction false} CollapseConcat(a: string, b: string)
    requires a == [] || !IsSpace(a[|a| - 1])
    ensures Collapse(a + b) == Collapse(a) + Collapse(b)
    decreases |a|
  {
    var s := a + b;
    if a == [] {
      assert s == b;
    } else {
      var x := if IsSpace(a[0]) then ' ' else a[0];
      var e := if IsSpace(a[0]) then SpaceEnd(a, 0) else 1;
      var t := a[e..];
      assert 0 < e <= |a| && s[e..] == t + b && (t == [] || t[|t| - 1] == a[|a| - 1]) by {
        if IsSpace(a[0]) {
          assert e < |a|;
        }
      }
      assert Collapse(a) == [x] + Collapse(t) && Collapse(s) == [x] + Collapse(t + b) by {
        assert s[0] == a[0];
        if IsSpace(a[0]) {
          SpaceEndAt(s, 0, e);
        }
      }
      CollapseConcat(t, b);
      ConcatAssoc([x], Collapse(t), Collapse(b));
    }
  }

  lemma ConcatAssoc(p: string, q: string, r: string)
    ensures p + (q + r) == (p + q) + r
  {
  }

  /** A white-space run followed by the end or by a non-space character
      becomes exactly one space. */
  lemma CollapseRun(w: string, b: string)
    requires w != [] && IsBlank(w)
    requires b == [] || !IsSpace(b[0])
    ensures Collapse(w + b) == [' '] + Collapse(b)
  {
    var s := w + b;
    assert IsSpace(s[0]);
    SpaceEndAt(s, 0, |w|);
    assert s[|w|..] == b;
  }

  /** `replace(/\s+/g, ' ')` replaces each white-space run between two pieces
      of text by one space, in the same place. */
  lemma CollapseSeparates(a: string, w: string, b: string)
    requires a == [] || !IsSpace(a[|a| - 1])
    requires w != [] && IsBlank(w)
    requires b == [] || !IsSpace(b[0])
    ensures Collapse(a + w + b) == Collapse(a) + " " + Collapse(b)
  {
    assert Collapse(a + w + b) == Collapse(a) + ([' '] + Collapse(b)) by {
      assert a + w + b == a + (w + b);
      CollapseConcat(a, w + b);
      CollapseRun(w, b);
    }
    ConcatAssoc(Collapse(a), " ", Collapse(b));
  }

  /** The characters of a text other than white space, in order: what
      collapsing and trimming must keep. */
  function NonSpace(s: string): (r: string)
    ensures forall k :: 0 <= k < |r| ==> !IsSpace(r[k])
  {
    if s == [] then []
    else (if IsSpace(s[0]) then [] else [s[0]]) + NonSpace(s[1..])
  }

  lemma {:induction false} NonSpaceConcat(a: string, b: string)
    ensures NonSpace(a + b) == NonSpace(a) + NonSpace(b)
  {
    if a == [] {
      assert a + b == b;
    } else {
      assert (a + b)[1..] == a[1..] + b;
      NonSpaceConcat(a[1..], b);
    }
  }

  lemma {:induction false} NonSpaceOfBlank(s: string)
    requires IsBlank(s)
    ensures NonSpace(s) == []
  {
    if s != [] {
      NonSpaceOfBlank(s[1..]);
    }
  }

  /** Collapsing white space keeps every other character, in order. */
  lemma {:induction false} CollapseKeepsWords(s: string)
    ensures NonSpace(Collapse(s)) == NonSpace(s)
    decreases |s|
  {
    if s != [] {
      if IsSpace(s[0]) {
        var a := SpaceEnd(s, 0);
        var rest := s[a..];
        CollapseKeepsWords(rest);
        NonSpaceConcat([' '], Collapse(rest));
        assert s == s[..a] + rest;
        NonSpaceConcat(s[..a], rest);
        NonSpaceOfBlank(s[..a]);
      } else {
        CollapseKeepsWords(s[1..]);
        assert Collapse(s) == [s[0]] + Collapse(s[1..]);
      }
    }
  }

  /** Trimming keeps every character other than white space, in order. */
  lemma TrimKeepsWords(s: string)
    ensures NonSpace(Trim(s)) == NonSpace(s)
  {
    var a := SpaceEnd(s, 0);
    var b := SpaceStart(s, a, |s|);
    var pre, mid, post := s[..a], s[a..b], s[b..];
    assert Trim(s) == mid;
    assert IsBlank(pre) by {
      forall k | 0 <= k < |pre| ensures IsSpace(pre[k]) {
        assert pre[k] == s[k];
      }
    }
    assert IsBlank(post) by {
      forall k | 0 <= k < |post| ensures IsSpace(post[k]) {
        assert post[k] == s[b + k];
      }
    }
    assert s == pre + (mid + post);
    NonSpaceConcat(pre, mid + post);
    NonSpaceConcat(mid, post);
    NonSpaceOfBlank(pre);
    NonSpaceOfBlank(post);
  }


  /** What the cleaned excerpt looks like. */
  predicate Clean(s: string)
  {
    NoMarkup(s) && Collapsed(s) && NoSpaceAtEnds(s)
  }

  lemma CleanSlice(s: string, i: nat, j: nat)
    requires NoMarkup(s) && Collapsed(s) && i <= j <= |s|
    ensures NoMarkup(s[i..j]) && Collapsed(s[i..j])
  {
    var t := s[i..j];
    forall k | 0 <= k < |t| ensures !IsMarkup(t[k]) {
      assert t[k] == s[i + k];
    }
    forall k | 0 <= k < |t| && IsSpace(t[k]) ensures t[k] == ' ' && (k + 1 == |t| || !IsSpace(t[k + 1])) {
      assert t[k] == s[i + k];
      if k + 1 < |t| {
        assert t[k + 1] == s[i + k + 1];
      }
    }
  }

  /** Trimming a collapsed, markup-free text gives a clean one. */
  lemma TrimCleans(s: string)
    requires NoMarkup(s) && Collapsed(s)
    ensures Clean(Trim(s))
  {
    var a := SpaceEnd(s, 0);
    var b := SpaceStart(s, a, |s|);
    assert Trim(s) == s[a..b];
    CleanSlice(s, a, b);
  }

  /** The text before the length check: the joined lines with code spans
      and markup removed, white space collapsed, and the ends trimmed. */
  function Cleaned(content: string): (e: string)
    ensures Clean(e)
    ensures e == Trim(Collapse(RemoveMarkup(StripInline(StripFences(Join(ExcerptLines(content), " "))))))
  {
    var joined := Join(ExcerptLines(content), " ");
    var collapsed := Collapse(RemoveMarkup(StripInline(StripFences(joined))));
    TrimCleans(collapsed);
    Trim(collapsed)
  }

  /** Cleaning loses no word: the characters of the excerpt other than white
      space are those of the code-stripped, markup-free joined lines. */
  lemma CleanedKeepsWords(content: string)
    ensures NonSpace(Cleaned(content))
            == NonSpace(RemoveMarkup(StripInline(StripFences(Join(ExcerptLines(content), " ")))))
  {
    var stripped := RemoveMarkup(StripInline(StripFences(Join(ExcerptLines(content), " "))));
    TrimKeepsWords(Collapse(stripped));
    CollapseKeepsWords(stripped);
  }

  /** The marker keeps a clean text clean. */
  lemma EllipsisKeepsClean(t: string)
    requires Clean(t)
    ensures Clean(t + Ellipsis)
  {
    var r := t + Ellipsis;
    forall k | 0 <= k < |r| ensures !IsMarkup(r[k]) {
      if k < |t| { assert r[k] == t[k]; }
    }
    forall k | 0 <= k < |r| && IsSpace(r[k]) ensures r[k] == ' ' && (k + 1 == |r| || !IsSpace(r[k + 1])) {
      assert k < |t| && r[k] == t[k];
      assert k + 1 < |t| && r[k + 1] == t[k + 1];
    }
  }

  /** A prefix of a clean text loses at most one character, a single
      trailing space, to `trim`. */
  lemma TrimCleanPrefix(e: string, m: nat)
    requires Clean(e) && m <= |e|
    ensures Trim(e[..m]) == e[..|Trim(e[..m])|]
    ensures |Trim(e[..m])| >= m - 1
  {
    var h := e[..m];
    if m > 0 {
      assert h[0] == e[0];
      assert SpaceEnd(h, 0) == 0;
      if IsSpace(h[m - 1]) {
        assert m - 1 > 0;
        assert h[m - 2] == e[m - 2] && h[m - 1] == e[m - 1];
        assert !IsSpace(h[m - 2]);
        assert SpaceStart(h, 0, m - 1) == m - 1;
        assert SpaceStart(h, 0, m) == m - 1;
      } else {
        assert SpaceStart(h, 0, m) == m;
      }
      assert Trim(h) == h[..SpaceStart(h, 0, m)];
    }
  }

  /** The length check: a text longer than `maxLength` is cut to its first
      `maxLength` characters, trimmed again, and marked with "...". */
  function Truncate(e: string, maxLength: nat): (r: string)
    requires Clean(e)
    ensures Clean(r)
    ensures |r| <= maxLength + |Ellipsis|
    ensures |e| <= maxLength ==> r == e
    ensures |e| > maxLength ==>
              |r| >= |Ellipsis| && r[|r| - 3..] == Ellipsis
              && |r| - 3 <= maxLength && r[..|r| - 3] == e[..|r| - 3]
    ensures |e| > maxLength ==> r == Trim(e[..maxLength]) + Ellipsis && |r| - |Ellipsis| >= maxLength - 1
  {
    if |e| <= maxLength then e
    else
      var head := e[..maxLength];
      CleanSlice(e, 0, maxLength);
      TrimCleans(head);
      TrimCleanPrefix(e, maxLength);
      EllipsisKeepsClean(Trim(head));
      assert (Trim(head) + Ellipsis)[..|Trim(head)|] == Trim(head);
      Trim(head) + Ellipsis
  }

  /** `extractExcerpt(content, maxLength)` */
  function ExtractExcerpt(content: string, maxLength: nat := DefaultMaxLength): (r: string)
    ensures content == "" ==> r == ""
    ensures Clean(r)
    ensures |r| <= maxLength + |Ellipsis|
    ensures |Cleaned(content)| <= maxLength ==> r == Cleaned(content)
    ensures content != "" && |Cleaned(content)| > maxLength ==>
              |r| >= |Ellipsis| && r[|r| - 3..] == Ellipsis
              && |r| - 3 <= maxLength && r[..|r| - 3] == Cleaned(content)[..|r| - 3]
    ensures content != "" && |Cleaned(content)| > maxLength ==>
              r == Trim(Cleaned(content)[..maxLength]) + Ellipsis && |r| - |Ellipsis| >= maxLength - 1
  {
    if content == "" then "" else Truncate(Cleaned(content), maxLength)
  }

  lemma {:induction false} RemoveMarkupKeepsPlainText(s: string)
    requires NoMarkup(s)
    ensures RemoveMarkup(s) == s
  {
    if s != [] {
      RemoveMarkupKeepsPlainText(s[1..]);
      assert s == [s[0]] + s[1..];
    }
  }

  lemma {:induction false} CollapseKeepsCollapsed(s: string)
    requires Collapsed(s)
    ensures Collapse(s) == s
    decreases |s|
  {
    if s != [] {
      var t := s[1..];
      forall k | 0 <= k < |t| && IsSpace(t[k]) ensures t[k] == ' ' && (k + 1 == |t| || !IsSpace(t[k + 1])) {
        assert t[k] == s[k + 1];
        if k + 1 < |t| {
          assert t[k + 1] == s[k + 2];
        }
      }
      assert s == [s[0]] + t;
      if IsSpace(s[0]) {
        assert SpaceEnd(s, 0) == 1;
      }
      CollapseKeepsCollapsed(s[1..]);
    }
  }

  /** A single plain line - no line break, no code span, no markup, single
      spaces, nothing to trim - is its own excerpt when it fits. */
  lemma PlainLineIsItsOwnExcerpt(line: string, maxLength: nat)
    requires line != "" && '\n' !in line && '`' !in line && Clean(line)
    requires |line| <= maxLength
    ensures ExtractExcerpt(line, maxLength) == line
  {
    SplitWithoutSeparator(line, '\n');
    TrimUnpadded(line);
    assert Qualifies(line);
    assert Qualifying([line]) == [line];
    assert Join(ExcerptLines(line), " ") == line;
    StripFencesKeepsPlainText(line, "");
    assert line + "" == line;
    StripInlineKeepsPlainText(line, "");
    RemoveMarkupKeepsPlainText(line);
    CollapseKeepsCollapsed(line);
  }
}
