/** Laws of the statement splitter: where it cuts, that it loses nothing, that printing its output and
    splitting again gives the same statements, and which lists of statements it can return at all. */
module SqlSplitterLaws {
  import opened SqlSplitter

  // ----- nothing is lost ------------------------------------------------------------

  lemma {:induction false} SegmentsJoin(m: Mode, current: string, s: string)
    ensures Join(SegmentsFrom(m, current, s), ";") == current + s
    decreases |s|
  {
    if s == "" {
      assert current + s == current;
    } else if m.Code? && s[0] == ';' {
      var rest := SegmentsFrom(Code(""), "", s[1..]);
      SegmentsJoin(Code(""), "", s[1..]);
      assert ([current] + rest)[1..] == rest;
      assert current + ";" + s[1..] == current + s;
    } else {
      SegmentsJoin(Step(m, s[0]), current + [s[0]], s[1..]);
      assert current + [s[0]] + s[1..] == current + s;
    }
  }

  /** The raw segments joined with `;` are the input; the output is those segments, trimmed, without blanks. */
  lemma SplitLosesNothing(s: string)
    ensures Join(Segments(s), ";") == s
    ensures Split(s) == Statements(Segments(s))
  {
    SegmentsJoin(Code(""), "", s);
  }

  // ----- where it cuts --------------------------------------------------------------

  /** Position, in the joined text, of the `;` behind segment `k`. */
  function Boundary(segments: seq<string>, k: nat): nat
    requires k < |segments|
  {
    if k == 0 then |segments[0]| else |segments[0]| + 1 + Boundary(segments[1..], k - 1)
  }

  predicate IsBoundary(segments: seq<string>, position: int) {
    exists k: nat :: k < |segments| - 1 && Boundary(segments, k) == position
  }

  lemma BoundaryCons(first: string, rest: seq<string>, position: int)
    requires rest != []
    ensures IsBoundary([first] + rest, position)
       <==> position == |first| || IsBoundary(rest, position - |first| - 1)
  {
    var segments := [first] + rest;
    assert segments[1..] == rest;
    assert Boundary(segments, 0) == |first|;
    if IsBoundary(rest, position - |first| - 1) {
      var k: nat :| k < |rest| - 1 && Boundary(rest, k) == position - |first| - 1;
      assert Boundary(segments, k + 1) == position;
    }
    if IsBoundary(segments, position) && position != |first| {
      var k: nat :| k < |segments| - 1 && Boundary(segments, k) == position;
      assert Boundary(rest, k - 1) == position - |first| - 1;
    }
  }

  lemma {:induction false} CutsFrom(m: Mode, current: string, s: string, i: nat)
    requires i < |s|
    ensures IsBoundary(SegmentsFrom(m, current, s), |current| + i) <==> s[i] == ';' && Run(m, s[..i]).Code?
    ensures forall k :: 0 <= k < |current| ==> !IsBoundary(SegmentsFrom(m, current, s), k)
    decreases |s|
  {
    assert i > 0 ==> s[..i][1..] == s[1..][..i - 1];
    if m.Code? && s[0] == ';' {
      var rest := SegmentsFrom(Code(""), "", s[1..]);
      forall position | 0 <= position <= |current| + i
        ensures IsBoundary([current] + rest, position)
           <==> position == |current| || IsBoundary(rest, position - |current| - 1)
      {
        BoundaryCons(current, rest, position);
      }
      if i > 0 {
        CutsFrom(Code(""), "", s[1..], i - 1);
      }
    } else if i > 0 {
      CutsFrom(Step(m, s[0]), current + [s[0]], s[1..], i - 1);
    } else {
      NotBefore(Step(m, s[0]), current + [s[0]], s[1..]);
    }
  }

  lemma {:induction false} NotBefore(m: Mode, current: string, s: string)
    ensures forall k :: 0 <= k < |current| ==> !IsBoundary(SegmentsFrom(m, current, s), k)
    decreases |s|
  {
    if s != "" {
      if m.Code? && s[0] == ';' {
        forall k | 0 <= k < |current|
          ensures !IsBoundary(SegmentsFrom(m, current, s), k)
        {
          BoundaryCons(current, SegmentsFrom(Code(""), "", s[1..]), k);
        }
      } else {
        NotBefore(Step(m, s[0]), current + [s[0]], s[1..]);
      }
    }
  }

  /** A position is a boundary between segments exactly when a `;` stands there in normal state. */
  lemma CutsExactlyAtNormalSemicolons(s: string, i: nat)
    requires i < |s|
    ensures IsBoundary(Segments(s), i) <==> IsCut(s, i)
  {
    CutsFrom(Code(""), "", s, i);
  }

  // ----- printing and splitting again -----------------------------------------------

  /** No cut point inside. */
  predicate Uncut(s: string) {
    Segments(s) == [s]
  }

  /** A newline leads from here to normal state: the text is complete, or ends in a line comment. */
  predicate Closed(s: string) {
    Run(Code(""), s).Code? || Run(Code(""), s).Line?
  }

  predicate IsStatement(s: string) {
    s != "" && Trim(s) == s && Uncut(s)
  }

  predicate StatementList(statements: seq<string>) {
    && (forall k :: 0 <= k < |statements| ==> IsStatement(statements[k]))
    && (forall k :: 0 <= k < |statements| - 1 ==> Closed(statements[k]))
  }

  lemma {:induction false} RunAppend(m: Mode, a: string, b: string)
    ensures Run(m, a + b) == Run(Run(m, a), b)
    decreases |a|
  {
    if a == "" {
      assert a + b == b;
    } else {
      assert (a + b)[1..] == a[1..] + b;
      RunAppend(Step(m, a[0]), a[1..], b);
    }
  }

  lemma RunSnoc(m: Mode, a: string, c: char)
    ensures Run(m, a + [c]) == Step(Run(m, a), c)
  {
    RunAppend(m, a, [c]);
    assert [c][1..] == "";
    assert Run(Run(m, a), [c]) == Run(Step(Run(m, a), c), "");
  }

  /** Text without a cut point in front only moves the automaton on. */
  lemma {:induction false} SegmentsPrefix(m: Mode, current: string, a: string, b: string)
    requires SegmentsFrom(m, current, a) == [current + a]
    ensures SegmentsFrom(m, current, a + b) == SegmentsFrom(Run(m, a), current + a, b)
    decreases |a|
  {
    if a == "" {
      assert a + b == b && current + a == current;
    } else {
      assert (a + b)[1..] == a[1..] + b;
      assert !(m.Code? && a[0] == ';');
      assert current + [a[0]] + a[1..] == current + a;
      SegmentsPrefix(Step(m, a[0]), current + [a[0]], a[1..], b);
    }
  }

  /** Whether there is a cut point does not depend on what was read before. */
  lemma {:induction false} UncutAnywhere(m: Mode, current: string, other: string, s: string)
    requires SegmentsFrom(m, current, s) == [current + s]
    ensures SegmentsFrom(m, other, s) == [other + s]
    decreases |s|
  {
    if s == "" {
      assert other + s == other;
    } else {
      assert !(m.Code? && s[0] == ';');
      assert current + [s[0]] + s[1..] == current + s && other + [s[0]] + s[1..] == other + s;
      UncutAnywhere(Step(m, s[0]), current + [s[0]], other + [s[0]], s[1..]);
    }
  }

  lemma UncutPrefix(a: string, b: string)
    requires Uncut(a + b)
    ensures Uncut(a)
  {
    assert "" + (a + b) == a + b && "" + a == a;
    UncutPrefixFrom(Code(""), "", a, b);
  }

  lemma {:induction false} UncutPrefixFrom(m: Mode, current: string, a: string, b: string)
    requires SegmentsFrom(m, current, a + b) == [current + (a + b)]
    ensures SegmentsFrom(m, current, a) == [current + a]
    decreases |a|
  {
    if a == "" {
      assert current + a == current;
    } else {
      assert (a + b)[1..] == a[1..] + b;
      assert !(m.Code? && a[0] == ';');
      assert current + [a[0]] + (a[1..] + b) == current + (a + b);
      assert current + [a[0]] + a[1..] == current + a;
      UncutPrefixFrom(Step(m, a[0]), current + [a[0]], a[1..], b);
    }
  }

  /** A dollar tag ends with `$`, so white space never closes a dollar-quoted string. */
  predicate TagsEndInDollar(m: Mode) {
    m.Dollar? ==> m.tag != "" && m.tag[|m.tag| - 1] == '$'
  }

  lemma {:induction false} RunTagsEndInDollar(m: Mode, s: string)
    requires TagsEndInDollar(m)
    ensures TagsEndInDollar(Run(m, s))
    decreases |s|
  {
    if s != "" {
      RunTagsEndInDollar(Step(m, s[0]), s[1..]);
    }
  }

  lemma SpaceClosesOnlyLineComments(m: Mode, c: char)
    requires TagsEndInDollar(m) && IsSpace(c)
    requires Step(m, c).Code? || Step(m, c).Line?
    ensures m.Code? || m.Line?
  {
  }

  lemma {:induction false} TrimStartKeeps(s: string)
    requires Uncut(s)
    ensures Uncut(TrimStart(s)) && Run(Code(""), TrimStart(s)) == Run(Code(""), s)
    decreases |s|
  {
    if s != "" && IsSpace(s[0]) {
      assert Step(Code(""), s[0]) == Code("");
      assert "" + [s[0]] == [s[0]] && [s[0]] + s[1..] == s && "" + s[1..] == s[1..];
      UncutAnywhere(Code(""), [s[0]], "", s[1..]);
      TrimStartKeeps(s[1..]);
    }
  }

  lemma {:induction false} TrimEndKeeps(s: string)
    requires Uncut(s)
    ensures Uncut(TrimEnd(s)) && (Closed(s) ==> Closed(TrimEnd(s)))
    decreases |s|
  {
    if s != "" && IsSpace(s[|s| - 1]) {
      var t, c := s[..|s| - 1], s[|s| - 1];
      assert t + [c] == s;
      UncutPrefix(t, [c]);
      RunSnoc(Code(""), t, c);
      RunTagsEndInDollar(Code(""), t);
      if Closed(s) {
        SpaceClosesOnlyLineComments(Run(Code(""), t), c);
      }
      TrimEndKeeps(t);
    }
  }

  predicate Tight(s: string) {
    s != "" ==> !IsSpace(s[0]) && !IsSpace(s[|s| - 1])
  }

  lemma {:induction false} TrimStartTight(s: string)
    ensures TrimStart(s) != "" ==> !IsSpace(TrimStart(s)[0])
    decreases |s|
  {
    if s != "" && IsSpace(s[0]) {
      TrimStartTight(s[1..]);
    }
  }

  lemma {:induction false} TrimEndTight(s: string)
    ensures TrimEnd(s) != "" ==> s != "" && TrimEnd(s)[0] == s[0] && !IsSpace(TrimEnd(s)[|TrimEnd(s)| - 1])
    decreases |s|
  {
    if s != "" && IsSpace(s[|s| - 1]) {
      TrimEndTight(s[..|s| - 1]);
    }
  }

  lemma TrimTight(s: string)
    ensures Tight(Trim(s)) && Trim(Trim(s)) == Trim(s)
  {
    TrimStartTight(s);
    TrimEndTight(TrimStart(s));
  }

  /** No segment has a cut point inside, and each but the last ends in normal state. */
  predicate UncutSegments(segments: seq<string>) {
    && (forall k :: 0 <= k < |segments| ==> Uncut(segments[k]))
    && (forall k :: 0 <= k < |segments| - 1 ==> Closed(segments[k]))
  }

  lemma {:induction false} SegmentsUncut(m: Mode, current: string, s: string)
    requires Uncut(current) && Run(Code(""), current) == m
    ensures UncutSegments(SegmentsFrom(m, current, s))
    decreases |s|
  {
    if s != "" {
      if m.Code? && s[0] == ';' {
        assert Closed(current);
        SegmentsUncut(Code(""), "", s[1..]);
      } else {
        assert "" + current == current;
        SegmentsPrefix(Code(""), "", current, [s[0]]);
        assert [s[0]][1..] == "";
        RunSnoc(Code(""), current, s[0]);
        SegmentsUncut(Step(m, s[0]), current + [s[0]], s[1..]);
      }
    }
  }

  lemma {:induction false} StatementsAreStatements(segments: seq<string>)
    requires UncutSegments(segments)
    ensures StatementList(Statements(segments))
    decreases |segments|
  {
    if segments != [] {
      StatementsAreStatements(segments[1..]);
      var trimmed := Trim(segments[0]);
      TrimStartKeeps(segments[0]);
      TrimEndKeeps(TrimStart(segments[0]));
      TrimTight(segments[0]);
      if |segments| == 1 {
        assert Statements(segments[1..]) == [];
      } else {
        assert Closed(trimmed);
      }
    }
  }

  /** What the splitter returns is always a list of statements. */
  lemma SplitGivesStatements(s: string)
    ensures StatementList(Split(s))
  {
    SegmentsUncut(Code(""), "", s);
    StatementsAreStatements(Segments(s));
  }

  lemma TrimPadded(lead: string, s: string, trail: string)
    requires s != "" && Trim(s) == s
    requires lead == "" || lead == "\n"
    requires trail == "" || trail == "\n"
    ensures Trim(lead + s + trail) == s
  {
    TrimTight(s);
    var padded := lead + s + trail;
    assert TrimStart(s + trail) == s + trail;
    assert lead == "\n" ==> padded[1..] == s + trail;
    assert lead == "" ==> padded == s + trail;
    assert trail == "\n" ==> (s + trail)[..|s + trail| - 1] == s;
    assert trail == "" ==> s + trail == s;
    assert TrimEnd(s) == s;
  }

  /** The line with the terminator ends a closed statement and leaves a newline before the next one. */
  lemma ReadSeparator(m: Mode, current: string, rest: string)
    requires m.Code? || m.Line?
    ensures SegmentsFrom(m, current, "\n;\n" + rest)
         == [current + "\n"] + SegmentsFrom(Code(""), "\n", rest)
  {
    var tail := "\n;\n" + rest;
    assert tail[1..] == ";\n" + rest;
    assert Step(m, '\n') == Code("");
    assert (";\n" + rest)[1..] == "\n" + rest;
    assert ("\n" + rest)[1..] == rest;
    assert "" + ['\n'] == "\n";
    assert SegmentsFrom(Code(""), "", "\n" + rest) == SegmentsFrom(Code(""), "\n", rest);
    assert SegmentsFrom(m, current, tail) == SegmentsFrom(Code(""), current + ['\n'], ";\n" + rest);
  }

  lemma ReadLastStatement(first: string, lead: string)
    requires IsStatement(first) && (lead == "" || lead == "\n")
    ensures Statements(SegmentsFrom(Code(""), lead, first)) == [first]
  {
    assert "" + first == first;
    UncutAnywhere(Code(""), "", lead, first);
    TrimPadded(lead, first, "");
    assert lead + first + "" == lead + first;
    assert [lead + first][1..] == [];
  }

  lemma ReadClosedStatement(first: string, lead: string, rest: string)
    requires IsStatement(first) && Closed(first) && (lead == "" || lead == "\n")
    ensures Statements(SegmentsFrom(Code(""), lead, first + ("\n;\n" + rest)))
         == [first] + Statements(SegmentsFrom(Code(""), "\n", rest))
  {
    var more := SegmentsFrom(Code(""), "\n", rest);
    assert "" + first == first;
    UncutAnywhere(Code(""), "", lead, first);
    SegmentsPrefix(Code(""), lead, first, "\n;\n" + rest);
    ReadSeparator(Run(Code(""), first), lead + first, rest);
    TrimPadded(lead, first, "\n");
    assert ([lead + first + "\n"] + more)[1..] == more;
  }

  lemma {:induction false} SplitOfJoin(statements: seq<string>, lead: string)
    requires StatementList(statements) && (lead == "" || lead == "\n")
    ensures Statements(SegmentsFrom(Code(""), lead, Join(statements, "\n;\n"))) == statements
    decreases |statements|
  {
    if statements == [] {
      assert Trim(lead) == "";
      assert [lead][1..] == [];
    } else if |statements| == 1 {
      ReadLastStatement(statements[0], lead);
    } else {
      var first, rest := statements[0], Join(statements[1..], "\n;\n");
      assert first + "\n;\n" + rest == first + ("\n;\n" + rest);
      ReadClosedStatement(first, lead, rest);
      SplitOfJoin(statements[1..], "\n");
      assert [first] + statements[1..] == statements;
    }
  }

  /** Printing the splitter's output with a terminator line between statements and splitting again gives
      the same statements, even where trimming took the newline that closed a line comment. */
  lemma SplitUndoesPrinting(s: string)
    ensures Split(Join(Split(s), "\n;\n")) == Split(s)
    ensures forall k :: 0 <= k < |Split(s)| ==> Split(Split(s)[k]) == [Split(s)[k]]
  {
    SplitGivesStatements(s);
    SplitOfJoin(Split(s), "");
    forall k | 0 <= k < |Split(s)|
      ensures Split(Split(s)[k]) == [Split(s)[k]]
    {
      SplitOfJoin([Split(s)[k]], "");
    }
  }

  /** Exactly the statement lists are outputs of the splitter. */
  lemma SplitImage(statements: seq<string>)
    ensures (exists s :: Split(s) == statements) <==> StatementList(statements)
  {
    if s :| Split(s) == statements {
      SplitGivesStatements(s);
    }
    if StatementList(statements) {
      SplitOfJoin(statements, "");
      assert Split(Join(statements, "\n;\n")) == statements;
    }
  }

  // ----- what is quoted is not cut --------------------------------------------------------------

  /** From normal state, `open` and then `body` are read without coming back to normal state before `body` ends. */
  predicate Hides(pre: string, open: string, body: string) {
    forall k :: 0 <= k <= |body| ==> !Run(Code(""), pre + open + body[..k]).Code?
  }

  lemma HiddenNotCut(pre: string, open: string, body: string, post: string, i: nat)
    requires Hides(pre, open, body) && |pre + open| <= i < |pre + open + body|
    ensures !IsCut(pre + open + body + post, i)
  {
    var k := i - |pre + open|;
    assert (pre + open + body + post)[..i] == pre + open + body[..k];
  }

  /** What the automaton does with one character more. */
  lemma OneCharacterMore(pre: string, open: string, body: string, k: nat)
    requires k < |body|
    ensures Run(Code(""), pre + open + body[..k + 1]) == Step(Run(Code(""), pre + open + body[..k]), body[k])
  {
    assert pre + open + body[..k + 1] == pre + open + body[..k] + [body[k]];
    RunSnoc(Code(""), pre + open + body[..k], body[k]);
  }

  lemma NothingRead(pre: string, open: string, body: string)
    ensures pre + open + body[..0] == pre + open
  {
  }

  /** `mode` is left only by `end`. */
  predicate LeftOnlyBy(mode: Mode, end: char) {
    || (mode == Single && end == '\'') || (mode == Double && end == '"') || (mode == Line && end == '\n')
  }

  lemma {:induction false} StaysInside(pre: string, open: string, body: string, mode: Mode, end: char, k: nat)
    requires LeftOnlyBy(mode, end) && Run(Code(""), pre + open) == mode && end !in body && k <= |body|
    ensures Run(Code(""), pre + open + body[..k]) == mode
    decreases k
  {
    if k == 0 {
      NothingRead(pre, open, body);
    } else {
      StaysInside(pre, open, body, mode, end, k - 1);
      OneCharacterMore(pre, open, body, k - 1);
    }
  }

  lemma InsideIsHidden(pre: string, open: string, body: string, mode: Mode, end: char)
    requires LeftOnlyBy(mode, end) && Run(Code(""), pre + open) == mode && end !in body
    ensures Hides(pre, open, body) && Run(Code(""), pre + open + body + [end]) == Code("")
  {
    forall k | 0 <= k <= |body|
      ensures !Run(Code(""), pre + open + body[..k]).Code?
    {
      StaysInside(pre, open, body, mode, end, k);
    }
    StaysInside(pre, open, body, mode, end, |body|);
    assert body[..|body|] == body;
    RunSnoc(Code(""), pre + open + body, end);
  }

  /** A string between single quotes hides its semicolons; after the closing quote the text is normal again. */
  lemma SingleQuotesHide(pre: string, body: string)
    requires Run(Code(""), pre).Code? && '\'' !in body
    ensures Hides(pre, "'", body) && Run(Code(""), pre + "'" + body + "'") == Code("")
  {
    RunSnoc(Code(""), pre, '\'');
    InsideIsHidden(pre, "'", body, Single, '\'');
  }

  /** So does an identifier between double quotes. */
  lemma DoubleQuotesHide(pre: string, body: string)
    requires Run(Code(""), pre).Code? && '"' !in body
    ensures Hides(pre, "\"", body) && Run(Code(""), pre + "\"" + body + "\"") == Code("")
  {
    RunSnoc(Code(""), pre, '"');
    InsideIsHidden(pre, "\"", body, Double, '"');
  }

  lemma TwoCharacters(pre: string, a: char, b: char)
    ensures Run(Code(""), pre + [a, b]) == Step(Step(Run(Code(""), pre), a), b)
  {
    assert pre + [a, b] == pre + [a] + [b];
    RunSnoc(Code(""), pre, a);
    RunSnoc(Code(""), pre + [a], b);
  }

  /** And a line comment, up to the end of its line. */
  lemma LineCommentHides(pre: string, body: string)
    requires Run(Code(""), pre).Code? && '\n' !in body
    ensures Hides(pre, "--", body) && Run(Code(""), pre + "--" + body + "\n") == Code("")
  {
    TwoCharacters(pre, '-', '-');
    assert "--" == ['-', '-'];
    InsideIsHidden(pre, "--", body, Line, '\n');
  }

  predicate EndsComment(body: string, k: int) {
    0 <= k < |body| - 1 && body[k] == '*' && body[k + 1] == '/'
  }

  lemma {:induction false} StaysInComment(pre: string, body: string, k: nat)
    requires Run(Code(""), pre + "/*") == Block(false) && k <= |body|
    requires forall i :: !EndsComment(body, i)
    ensures Run(Code(""), pre + "/*" + body[..k]) == Block(k > 0 && body[k - 1] == '*')
    decreases k
  {
    if k == 0 {
      NothingRead(pre, "/*", body);
    } else {
      StaysInComment(pre, body, k - 1);
      OneCharacterMore(pre, "/*", body, k - 1);
      assert !EndsComment(body, k - 2);
    }
  }

  /** And a block comment, up to the first end of a comment. */
  lemma BlockCommentHides(pre: string, body: string)
    requires Run(Code(""), pre).Code? && forall i :: !EndsComment(body, i)
    ensures Hides(pre, "/*", body) && Run(Code(""), pre + "/*" + body + "*/") == Code("")
  {
    TwoCharacters(pre, '/', '*');
    assert "/*" == ['/', '*'];
    forall k | 0 <= k <= |body|
      ensures !Run(Code(""), pre + "/*" + body[..k]).Code?
    {
      StaysInComment(pre, body, k);
    }
    StaysInComment(pre, body, |body|);
    assert body[..|body|] == body && "*/" == ['*', '/'];
    TwoCharacters(pre + "/*" + body, '*', '/');
  }

  /** `$$` or `$name$` */
  predicate IsTag(tag: string) {
    && |tag| >= 2 && tag[0] == '$' && tag[|tag| - 1] == '$'
    && forall k :: 1 <= k < |tag| - 1 ==> if k == 1 then IsIdentStart(tag[k]) else IsIdentPart(tag[k])
  }

  lemma {:induction false} ReadsTagPrefix(pre: string, tag: string, k: nat)
    requires Run(Code(""), pre) == Code("") && IsTag(tag) && 1 <= k < |tag|
    ensures Run(Code(""), pre + tag[..k]) == Code(tag[..k])
    decreases k
  {
    if k == 1 {
      assert tag[..1] == ['$'];
      RunSnoc(Code(""), pre, '$');
    } else {
      ReadsTagPrefix(pre, tag, k - 1);
      assert pre + tag[..k] == pre + tag[..k - 1] + [tag[k - 1]] && tag[..k] == tag[..k - 1] + [tag[k - 1]];
      RunSnoc(Code(""), pre + tag[..k - 1], tag[k - 1]);
      assert k > 2 ==> |tag[..k - 1]| > 1;
      assert k == 2 ==> tag[..k - 1] == "$";
    }
  }

  lemma ReadsTag(pre: string, tag: string)
    requires Run(Code(""), pre) == Code("") && IsTag(tag)
    ensures Run(Code(""), pre + tag) == Dollar(tag, "")
  {
    var n := |tag| - 1;
    ReadsTagPrefix(pre, tag, n);
    assert pre + tag == pre + tag[..n] + ['$'] && tag == tag[..n] + "$";
    RunSnoc(Code(""), pre + tag[..n], '$');
  }

  lemma StaysForOne(text: string, tag: string, body: string, c: char)
    requires Run(Code(""), text + body) == Dollar(tag, body) && !EndsWith(body + [c], tag)
    ensures Run(Code(""), text + (body + [c])) == Dollar(tag, body + [c])
  {
    assert text + (body + [c]) == text + body + [c];
    RunSnoc(Code(""), text + body, c);
  }

  lemma {:induction false} StaysInBody(pre: string, tag: string, body: string, k: nat)
    requires Run(Code(""), pre + tag) == Dollar(tag, "") && k <= |body|
    requires forall i :: 0 < i <= k ==> !EndsWith(body[..i], tag)
    ensures Run(Code(""), pre + tag + body[..k]) == Dollar(tag, body[..k])
    decreases k
  {
    if k == 0 {
      NothingRead(pre, tag, body);
    } else {
      StaysInBody(pre, tag, body, k - 1);
      assert body[..k] == body[..k - 1] + [body[k - 1]];
      StaysForOne(pre + tag, tag, body[..k - 1], body[k - 1]);
    }
  }

  /** And a dollar-quoted body, up to the first end of its tag. */
  lemma DollarQuotesHide(pre: string, tag: string, body: string)
    requires Run(Code(""), pre) == Code("") && IsTag(tag)
    requires EndsWith(body, tag) && forall i :: 0 < i < |body| ==> !EndsWith(body[..i], tag)
    ensures Hides(pre, tag, body[..|body| - 1]) && Run(Code(""), pre + tag + body) == Code("")
  {
    var n := |body| - 1;
    ReadsTag(pre, tag);
    BodyIsHidden(pre, tag, body);
    StaysInBody(pre, tag, body, n);
    OneCharacterMore(pre, tag, body, n);
    assert body[..n + 1] == body == body[..n] + [body[n]];
  }

  lemma BodyIsHidden(pre: string, tag: string, body: string)
    requires Run(Code(""), pre + tag) == Dollar(tag, "") && body != ""
    requires forall i :: 0 < i < |body| ==> !EndsWith(body[..i], tag)
    ensures Hides(pre, tag, body[..|body| - 1])
  {
    var inner := body[..|body| - 1];
    forall k | 0 <= k <= |inner|
      ensures !Run(Code(""), pre + tag + inner[..k]).Code?
    {
      StaysInBody(pre, tag, body, k);
      assert inner[..k] == body[..k];
    }
  }

  predicate IsPlain(c: char) {
    c != '\'' && c != '"' && c != '-' && c != '/' && c != '$'
  }

  lemma {:induction false} PlainIsNormal(s: string, k: nat)
    requires (forall i :: 0 <= i < |s| ==> IsPlain(s[i])) && k <= |s|
    ensures Run(Code(""), s[..k]) == Code("")
    decreases k
  {
    if k > 0 {
      PlainIsNormal(s, k - 1);
      assert s[..k] == s[..k - 1] + [s[k - 1]];
      RunSnoc(Code(""), s[..k - 1], s[k - 1]);
    }
  }

  /** In a text without quotes, dashes, slashes and dollars every semicolon is a cut. */
  lemma PlainSemicolonsCut(s: string, k: nat)
    requires (forall i :: 0 <= i < |s| ==> IsPlain(s[i])) && k < |s|
    ensures IsCut(s, k) <==> s[k] == ';'
  {
    PlainIsNormal(s, k);
  }
}
