/** The statement splitter of packages/db/src/apply-rls.ts.

    `Step` is a small automaton that reads one character at a time and never looks ahead.
    The scanner of the repository is `SplitSqlStatements`: it looks ahead, jumps with
    `indexOf` and consumes whole comments and strings in inner loops. It is proved to
    compute what the automaton defines, for every input.
  */
module SqlSplitter {
  import opened Options

  // ----- characters and trimming ---------------------------------------------------

  /** The characters `String.prototype.trim` removes: WhiteSpace and LineTerminator of ECMAScript. */
  predicate IsSpace(c: char) {
    || '\U{0009}' <= c <= '\U{000D}' || c == ' ' || c == '\U{00A0}' || c == '\U{1680}'
    || '\U{2000}' <= c <= '\U{200A}' || c == '\U{2028}' || c == '\U{2029}'
    || c == '\U{202F}' || c == '\U{205F}' || c == '\U{3000}' || c == '\U{FEFF}'
  }

  predicate IsIdentStart(c: char) {
    'A' <= c <= 'Z' || 'a' <= c <= 'z' || c == '_'
  }

  predicate IsIdentPart(c: char) {
    IsIdentStart(c) || '0' <= c <= '9'
  }

  function TrimStart(s: string): string {
    if s != "" && IsSpace(s[0]) then TrimStart(s[1..]) else s
  }

  function TrimEnd(s: string): string {
    if s != "" && IsSpace(s[|s| - 1]) then TrimEnd(s[..|s| - 1]) else s
  }

  function Trim(s: string): string {
    TrimEnd(TrimStart(s))
  }

  // ----- the reference automaton ---------------------------------------------------

  /** `Code(pending)` is normal state; `pending` is the possible beginning of a comment or of a
      dollar tag that has been read so far ("", "-", "/" or "$name"). */
  datatype Mode =
    | Code(pending: string)
    | Line
    | Block(star: bool)
    | Single
    | Double
    | Dollar(tag: string, body: string)

  predicate EndsWith(s: string, suffix: string) {
    |suffix| <= |s| && s[|s| - |suffix|..] == suffix
  }

  predicate ExtendsTag(pending: string, c: char) {
    && pending != "" && pending[0] == '$'
    && (if pending == "$" then IsIdentStart(c) else IsIdentPart(c))
  }

  /** Reading `c` in normal state with nothing pending. */
  function Fresh(c: char): Mode {
    if c == '-' || c == '/' || c == '$' then Code([c])
    else if c == '\'' then Single
    else if c == '"' then Double
    else Code("")
  }

  function Step(m: Mode, c: char): Mode {
    match m
    case Code(pending) =>
      if pending == "-" && c == '-' then Line
      else if pending == "/" && c == '*' then Block(false)
      else if pending != "" && pending[0] == '$' && c == '$' then Dollar(pending + "$", "")
      else if ExtendsTag(pending, c) then Code(pending + [c])
      else Fresh(c)
    case Line => if c == '\n' then Code("") else Line
    case Block(star) => if star && c == '/' then Code("") else Block(c == '*')
    case Single => if c == '\'' then Code("") else Single
    case Double => if c == '"' then Code("") else Double
    case Dollar(tag, body) =>
      if EndsWith(body + [c], tag) then Code("") else Dollar(tag, body + [c])
  }

  function Run(m: Mode, s: string): Mode
    decreases |s|
  {
    if s == "" then m else Run(Step(m, s[0]), s[1..])
  }

  /** A cut point: a `;` read in normal state. */
  predicate IsCut(s: string, i: int) {
    0 <= i < |s| && s[i] == ';' && Run(Code(""), s[..i]).Code?
  }

  /** The pieces of `current + s` between cut points, when the automaton has reached `m` after `current`. */
  function SegmentsFrom(m: Mode, current: string, s: string): (segments: seq<string>)
    ensures segments != []
    decreases |s|
  {
    if s == "" then [current]
    else if m.Code? && s[0] == ';' then [current] + SegmentsFrom(Code(""), "", s[1..])
    else SegmentsFrom(Step(m, s[0]), current + [s[0]], s[1..])
  }

  function Segments(s: string): seq<string> {
    SegmentsFrom(Code(""), "", s)
  }

  /** Trim every segment and drop the blank ones. */
  function Statements(segments: seq<string>): seq<string> {
    if segments == [] then []
    else
      var trimmed := Trim(segments[0]);
      (if trimmed != "" then [trimmed] else []) + Statements(segments[1..])
  }

  function Split(s: string): seq<string> {
    Statements(Segments(s))
  }

  function Join(parts: seq<string>, separator: string): string {
    if parts == [] then ""
    else if |parts| == 1 then parts[0]
    else parts[0] + separator + Join(parts[1..], separator)
  }

  // ----- library calls of the scanner ----------------------------------------------

  /** `s.charAt(i) === c`: false when `i` is past the end. */
  predicate CharAt(s: string, i: nat, c: char) {
    i < |s| && s[i] == c
  }

  function IdentEnd(s: string, i: nat): (end: nat)
    requires i <= |s|
    ensures i <= end <= |s|
    ensures forall k :: i <= k < end ==> IsIdentPart(s[k])
    ensures end < |s| ==> !IsIdentPart(s[end])
    decreases |s| - i
  {
    if i < |s| && IsIdentPart(s[i]) then IdentEnd(s, i + 1) else i
  }

  /** The end of the match of /^\$([A-Za-z_][A-Za-z0-9_]*)?\$/ on `s.slice(i)`, if it matches. */
  function TagEnd(s: string, i: nat): (end: Option<nat>)
    requires i < |s| && s[i] == '$'
    ensures end.Some? ==> i + 2 <= end.value <= |s| && s[end.value - 1] == '$'
  {
    if CharAt(s, i + 1, '$') then Some(i + 2)
    else if i + 1 < |s| && IsIdentStart(s[i + 1]) then
      var j := IdentEnd(s, i + 1);
      if CharAt(s, j, '$') then Some(j + 1) else None
    else None
  }

  predicate OccursAt(s: string, t: string, k: int) {
    0 <= k <= |s| - |t| && s[k..k + |t|] == t
  }

  /** `s.indexOf(t, from)`. */
  function IndexOf(s: string, t: string, from: nat): (index: int)
    requires from <= |s|
    ensures index == -1 || (from <= index && OccursAt(s, t, index))
    ensures forall k :: from <= k && (index == -1 || k < index) ==> !OccursAt(s, t, k)
    decreases |s| - from
  {
    if OccursAt(s, t, from) then from
    else if from == |s| then -1
    else IndexOf(s, t, from + 1)
  }

  // ----- the scanner ----------------------------------------------------------------

  /** One character that is no cut point moves from the rest of the input to `current`. */
  lemma Advance(m: Mode, current: string, s: string, i: nat)
    requires i < |s| && !(m.Code? && s[i] == ';')
    ensures SegmentsFrom(m, current, s[i..])
         == SegmentsFrom(Step(m, s[i]), current + [s[i]], s[i + 1..])
  {
    assert s[i..][1..] == s[i + 1..];
  }

  lemma OneMore(current: string, s: string, j: nat, end: nat)
    requires j < end <= |s|
    ensures current + [s[j]] + s[j + 1..end] == current + s[j..end]
  {
    assert [s[j]] + s[j + 1..end] == s[j..end];
  }

  lemma Extend(s: string, i: nat, j: nat)
    requires i <= j < |s|
    ensures s[i..j] + [s[j]] == s[i..j + 1]
  {
  }

  /** A pending prefix that the next character does not continue can be forgotten. */
  lemma Forget(m: Mode, current: string, s: string, i: nat)
    requires i <= |s|
    requires m.Code? || i == |s|
    requires i < |s| ==> Step(m, s[i]) == Fresh(s[i])
    ensures SegmentsFrom(m, current, s[i..]) == SegmentsFrom(Code(""), current, s[i..])
  {
    if i < |s| {
      assert s[i..] != "" && s[i..][0] == s[i];
    }
  }

  /** `s[i..j]` is the beginning of a dollar tag: a `$` and characters of a name. */
  predicate TagPrefix(s: string, i: nat, j: nat) {
    && i < j <= |s| && s[i] == '$'
    && (j == i + 1 || (IsIdentStart(s[i + 1]) && j <= IdentEnd(s, i + 1)))
  }

  lemma TagPrefixStep(s: string, i: nat, j: nat)
    requires TagPrefix(s, i, j) && j < |s|
    ensures TagEnd(s, i).Some? ==> j < TagEnd(s, i).value
    ensures s[i..j] != "-" && s[i..j] != "/"
    ensures s[j] == '$' ==>
      TagEnd(s, i) == Some(j + 1) && Step(Code(s[i..j]), s[j]) == Dollar(s[i..j + 1], "")
    ensures ExtendsTag(s[i..j], s[j]) ==>
      TagPrefix(s, i, j + 1) && Step(Code(s[i..j]), s[j]) == Code(s[i..j + 1]) && Fresh(s[j]) == Code("")
    ensures s[j] != '$' && !ExtendsTag(s[i..j], s[j]) ==>
      TagEnd(s, i).None? && Step(Code(s[i..j]), s[j]) == Fresh(s[j])
  {
    assert s[i..j][0] == '$';
    assert s[i..j] + [s[j]] == s[i..j + 1];
    if j == i + 1 {
      assert s[i..j] == "$";
    } else {
      assert |s[i..j]| > 1;
    }
  }

  /** From the beginning of a dollar tag the automaton reads the whole tag. */
  lemma {:induction false} ReadTag(s: string, i: nat, j: nat, end: nat, current: string)
    requires TagPrefix(s, i, j) && TagEnd(s, i) == Some(end)
    ensures j < end <= |s|
    ensures SegmentsFrom(Code(s[i..j]), current, s[j..])
         == SegmentsFrom(Dollar(s[i..end], ""), current + s[j..end], s[end..])
    decreases |s| - j
  {
    assert j < |s|;
    TagPrefixStep(s, i, j);
    Advance(Code(s[i..j]), current, s, j);
    if s[j] == '$' {
      assert s[j..end] == [s[j]];
    } else {
      ReadTag(s, i, j + 1, end, current + [s[j]]);
      OneMore(current, s, j, end);
    }
  }

  /** Where no tag follows the `$`, the automaton behaves as if nothing were pending. */
  lemma {:induction false} ReadNoTag(s: string, i: nat, j: nat, current: string)
    requires TagPrefix(s, i, j) && TagEnd(s, i).None?
    ensures SegmentsFrom(Code(s[i..j]), current, s[j..]) == SegmentsFrom(Code(""), current, s[j..])
    decreases |s| - j
  {
    if j < |s| {
      TagPrefixStep(s, i, j);
      if ExtendsTag(s[i..j], s[j]) {
        Advance(Code(s[i..j]), current, s, j);
        Advance(Code(""), current, s, j);
        ReadNoTag(s, i, j + 1, current + [s[j]]);
      } else {
        Forget(Code(s[i..j]), current, s, j);
      }
    }
  }

  lemma EndsWithIsOccurrence(tag: string, s: string, i: nat, j: nat)
    requires i <= j <= |s|
    ensures EndsWith(s[i..j], tag) <==> i <= j - |tag| && OccursAt(s, tag, j - |tag|)
  {
    if i <= j - |tag| {
      assert s[i..j][j - i - |tag|..] == s[j - |tag|..j];
    }
  }

  /** One character of the body: it ends the string exactly where the tag first occurs. */
  lemma BodyStep(tag: string, s: string, i: nat, j: nat, end: nat)
    requires i <= j < end && tag != "" && i <= end - |tag| && OccursAt(s, tag, end - |tag|)
    requires forall k :: i <= k < end - |tag| ==> !OccursAt(s, tag, k)
    ensures Step(Dollar(tag, s[i..j]), s[j]) == if j + 1 == end then Code("") else Dollar(tag, s[i..j + 1])
  {
    Extend(s, i, j);
    EndsWithIsOccurrence(tag, s, i, j + 1);
  }

  /** The body of a dollar-quoted string ends with the first occurrence of the tag in it. */
  lemma {:induction false} ReadBody(tag: string, s: string, i: nat, j: nat, end: nat, current: string)
    requires i <= j < end && tag != "" && i <= end - |tag| && OccursAt(s, tag, end - |tag|)
    requires forall k :: i <= k < end - |tag| ==> !OccursAt(s, tag, k)
    ensures SegmentsFrom(Dollar(tag, s[i..j]), current, s[j..])
         == SegmentsFrom(Code(""), current + s[j..end], s[end..])
    decreases |s| - j
  {
    BodyStep(tag, s, i, j, end);
    Advance(Dollar(tag, s[i..j]), current, s, j);
    if j + 1 == end {
      assert s[j..end] == [s[j]];
    } else {
      ReadBody(tag, s, i, j + 1, end, current + [s[j]]);
      OneMore(current, s, j, end);
    }
  }

  lemma {:induction false} ReadOpenBody(tag: string, s: string, i: nat, j: nat, current: string)
    requires i <= j <= |s| && tag != ""
    requires IndexOf(s, tag, i) == -1
    ensures SegmentsFrom(Dollar(tag, s[i..j]), current, s[j..]) == [current + s[j..]]
    decreases |s| - j
  {
    if j < |s| {
      Advance(Dollar(tag, s[i..j]), current, s, j);
      assert s[i..j] + [s[j]] == s[i..j + 1];
      EndsWithIsOccurrence(tag, s, i, j + 1);
      ReadOpenBody(tag, s, i, j + 1, current + [s[j]]);
      OneMore(current, s, j, |s|);
      assert s[j..|s|] == s[j..] && s[j + 1..|s|] == s[j + 1..];
    } else {
      assert current + s[j..] == current;
    }
  }

  /** The scanner may go on at `i'` with `current'`: the automaton finds the same segments from there. */
  ghost predicate Resumes(sql: string, i: nat, current: string, i': nat, current': string) {
    && i < i' <= |sql|
    && SegmentsFrom(Code(""), current, sql[i..]) == SegmentsFrom(Code(""), current', sql[i'..])
  }

  method LineComment(sql: string, i0: nat, current0: string) returns (i: nat, current: string)
    requires CharAt(sql, i0, '-') && CharAt(sql, i0 + 1, '-')
    ensures Resumes(sql, i0, current0, i, current)
  {
    i, current := i0, current0;
    ghost var m := Code("");
    while i < |sql| && sql[i] != '\n'
      invariant i0 <= i <= |sql|
      invariant m == if i == i0 then Code("") else if i == i0 + 1 then Code("-") else Line
      invariant SegmentsFrom(Code(""), current0, sql[i0..]) == SegmentsFrom(m, current, sql[i..])
    {
      Advance(m, current, sql, i);
      m := Step(m, sql[i]);
      current := current + [sql[i]];
      i := i + 1;
    }
    if i < |sql| {
      Advance(m, current, sql, i);
      Advance(Code(""), current, sql, i);
    }
  }

  method BlockComment(sql: string, i0: nat, current0: string) returns (i: nat, current: string)
    requires CharAt(sql, i0, '/') && CharAt(sql, i0 + 1, '*')
    ensures Resumes(sql, i0, current0, i, current)
  {
    i, current := i0, current0;
    Advance(Code(""), current, sql, i);
    Advance(Code("/"), current + [sql[i]], sql, i + 1);
    current := current + [sql[i]];
    current := current + [sql[i + 1]];
    i := i + 2;
    ghost var m := Block(false);
    while i < |sql| && !(sql[i] == '*' && CharAt(sql, i + 1, '/'))
      invariant i0 + 2 <= i <= |sql|
      invariant m.Block? && (m.star && i < |sql| ==> sql[i] != '/')
      invariant SegmentsFrom(Code(""), current0, sql[i0..]) == SegmentsFrom(m, current, sql[i..])
    {
      Advance(m, current, sql, i);
      m := Step(m, sql[i]);
      current := current + [sql[i]];
      i := i + 1;
    }
    if i < |sql| {
      Advance(m, current, sql, i);
      Advance(Block(true), current + [sql[i]], sql, i + 1);
      current := current + [sql[i]];
      current := current + [sql[i + 1]];
      i := i + 2;
    }
  }

  method SingleQuoted(sql: string, i0: nat, current0: string) returns (i: nat, current: string)
    requires CharAt(sql, i0, '\'')
    ensures Resumes(sql, i0, current0, i, current)
  {
    i, current := i0, current0;
    Advance(Code(""), current, sql, i);
    current := current + [sql[i]];
    i := i + 1;
    ghost var m := Single;
    while i < |sql|
      invariant i0 < i <= |sql|
      invariant m == Single
      invariant SegmentsFrom(Code(""), current0, sql[i0..]) == SegmentsFrom(m, current, sql[i..])
      decreases |sql| - i
    {
      Advance(Single, current, sql, i);
      if sql[i] == '\'' && CharAt(sql, i + 1, '\'') {
        Advance(Code(""), current + ['\''], sql, i + 1);
        assert current + ['\''] + ['\''] == current + "''";
        current := current + "''";
        i := i + 2;
        continue;
      }
      if sql[i] == '\'' {
        current := current + "'";
        i := i + 1;
        m := Code("");
        break;
      }
      current := current + [sql[i]];
      i := i + 1;
    }
  }

  method DoubleQuoted(sql: string, i0: nat, current0: string) returns (i: nat, current: string)
    requires CharAt(sql, i0, '"')
    ensures Resumes(sql, i0, current0, i, current)
  {
    i, current := i0, current0;
    Advance(Code(""), current, sql, i);
    current := current + [sql[i]];
    i := i + 1;
    while i < |sql| && sql[i] != '"'
      invariant i0 < i <= |sql|
      invariant SegmentsFrom(Code(""), current0, sql[i0..]) == SegmentsFrom(Double, current, sql[i..])
    {
      Advance(Double, current, sql, i);
      current := current + [sql[i]];
      i := i + 1;
    }
    if i < |sql| {
      Advance(Double, current, sql, i);
      current := current + [sql[i]];
      i := i + 1;
    }
  }

  lemma TagPieces(sql: string, i: nat, end: nat, current: string)
    requires i < end <= |sql| && sql[i] == '$'
    ensures sql[i..i + 1] == "$" && sql[end..end] == ""
    ensures current + ['$'] + sql[i + 1..end] == current + sql[i..end]
  {
    OneMore(current, sql, i, end);
  }

  lemma OpenTag(sql: string, i: nat, end: nat, current: string)
    requires CharAt(sql, i, '$') && TagEnd(sql, i) == Some(end)
    ensures SegmentsFrom(Code(""), current, sql[i..])
         == SegmentsFrom(Dollar(sql[i..end], sql[end..end]), current + sql[i..end], sql[end..])
  {
    Advance(Code(""), current, sql, i);
    TagPieces(sql, i, end, current);
    ReadTag(sql, i, i + 1, end, current + ['$']);
  }

  lemma ClosedBody(sql: string, i: nat, end: nat, close: nat, current: string)
    requires CharAt(sql, i, '$') && TagEnd(sql, i) == Some(end) && end <= close
    requires IndexOf(sql, sql[i..end], end) == close
    ensures close + (end - i) <= |sql|
    ensures Resumes(sql, i, current, close + (end - i), current + sql[i..end] + sql[end..close + (end - i)])
  {
    OpenTag(sql, i, end, current);
    ReadBody(sql[i..end], sql, end, end, close + (end - i), current + sql[i..end]);
  }

  lemma OpenBody(sql: string, i: nat, end: nat, current: string)
    requires CharAt(sql, i, '$') && TagEnd(sql, i) == Some(end)
    requires IndexOf(sql, sql[i..end], end) == -1
    ensures Resumes(sql, i, current, |sql|, current + sql[i..end] + sql[end..])
  {
    OpenTag(sql, i, end, current);
    ReadOpenBody(sql[i..end], sql, end, end, current + sql[i..end]);
    assert sql[|sql|..] == "";
  }

  method DollarQuoted(sql: string, i0: nat, current0: string) returns (i: nat, current: string)
    requires CharAt(sql, i0, '$') && TagEnd(sql, i0).Some?
    ensures Resumes(sql, i0, current0, i, current)
  {
    ghost var end := TagEnd(sql, i0).value;
    var tag := sql[i0..TagEnd(sql, i0).value];
    current := current0 + tag;
    i := i0 + |tag|;
    var closeIdx := IndexOf(sql, tag, i);
    if closeIdx == -1 {
      OpenBody(sql, i0, end, current0);
      current := current + sql[i..];
      i := |sql|;
    } else {
      ClosedBody(sql, i0, end, closeIdx, current0);
      current := current + sql[i..closeIdx + |tag|];
      i := closeIdx + |tag|;
    }
  }

  lemma Ordinary(sql: string, i: nat, current: string)
    requires i < |sql|
    requires !(sql[i] == '-' && CharAt(sql, i + 1, '-')) && !(sql[i] == '/' && CharAt(sql, i + 1, '*'))
    requires sql[i] != '\'' && sql[i] != '"' && sql[i] != ';'
    requires sql[i] == '$' ==> TagEnd(sql, i).None?
    ensures Resumes(sql, i, current, i + 1, current + [sql[i]])
  {
    Advance(Code(""), current, sql, i);
    if sql[i] == '$' {
      assert sql[i..i + 1] == "$";
      ReadNoTag(sql, i, i + 1, current + ['$']);
    } else {
      Forget(Fresh(sql[i]), current + [sql[i]], sql, i + 1);
    }
  }

  /** What is left of the statements: those already found, then those of the text from `i` on. */
  ghost predicate Scanned(sql: string, statements: seq<string>, i: nat, current: string) {
    i <= |sql| && Split(sql) == statements + Statements(SegmentsFrom(Code(""), current, sql[i..]))
  }

  lemma ScanStarts(sql: string)
    ensures Scanned(sql, [], 0, "")
  {
    assert sql[0..] == sql;
  }

  lemma ScanResumes(sql: string, statements: seq<string>, i: nat, current: string, i': nat, current': string)
    requires Scanned(sql, statements, i, current) && Resumes(sql, i, current, i', current')
    ensures Scanned(sql, statements, i', current')
  {
  }

  /** The statement list after one more segment. */
  function Push(statements: seq<string>, segment: string): seq<string> {
    if |Trim(segment)| > 0 then statements + [Trim(segment)] else statements
  }

  lemma ScanCuts(sql: string, statements: seq<string>, i: nat, current: string)
    requires Scanned(sql, statements, i, current) && CharAt(sql, i, ';')
    ensures Scanned(sql, Push(statements, current), i + 1, "")
  {
    var rest := SegmentsFrom(Code(""), "", sql[i + 1..]);
    assert sql[i..][1..] == sql[i + 1..];
    assert ([current] + rest)[1..] == rest;
    var first := if Trim(current) != "" then [Trim(current)] else [];
    assert Statements([current] + rest) == first + Statements(rest);
    assert statements + (first + Statements(rest)) == statements + first + Statements(rest);
    assert statements + first == Push(statements, current);
  }

  lemma ScanEnds(sql: string, statements: seq<string>, current: string)
    requires Scanned(sql, statements, |sql|, current)
    ensures Split(sql) == Push(statements, current)
  {
    assert sql[|sql|..] == "" && [current][1..] == [];
    assert Statements([current]) == (if Trim(current) != "" then [Trim(current)] else []) + Statements([]);
  }

  /** The repository's scanner computes the automaton's statements. */
  method SplitSqlStatements(sql: string) returns (statements: seq<string>)
    ensures statements == Split(sql)
  {
    statements := [];
    var current := "";
    var i := 0;
    ScanStarts(sql);
    while i < |sql|
      invariant Scanned(sql, statements, i, current)
      decreases |sql| - i
    {
      var ch := sql[i];
      ghost var i0, current0 := i, current;
      if ch == '-' && CharAt(sql, i + 1, '-') {
        i, current := LineComment(sql, i, current);
      } else if ch == '/' && CharAt(sql, i + 1, '*') {
        i, current := BlockComment(sql, i, current);
      } else if ch == '\'' {
        i, current := SingleQuoted(sql, i, current);
      } else if ch == '"' {
        i, current := DoubleQuoted(sql, i, current);
      } else if ch == '$' && TagEnd(sql, i).Some? {
        i, current := DollarQuoted(sql, i, current);
      } else if ch == ';' {
        ScanCuts(sql, statements, i, current);
        var trimmed := Trim(current);
        if |trimmed| > 0 {
          statements := statements + [trimmed];
        }
        current := "";
        i := i + 1;
        continue;
      } else {
        Ordinary(sql, i, current);
        current := current + [ch];
        i := i + 1;
      }
      ScanResumes(sql, statements, i0, current0, i, current);
    }
    ScanEnds(sql, statements, current);
    var trailing := Trim(current);
    if |trailing| > 0 {
      statements := statements + [trailing];
    }
  }
}
