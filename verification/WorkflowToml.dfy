/** The rewrite of `BC_NAME` and `WORK_ID` in the poured workflow.toml, read back as TOML basic strings. */
module WorkflowToml {
  import opened Basics
  import opened Text

  // ----- lines

  /** `source.split("\n")` */
  function Split(s: string): (lines: seq<string>)
    ensures lines != []
  {
    if '\n' !in s then [s]
    else
      var n := Index(s, '\n');
      [s[..n]] + Split(s[n + 1..])
  }

  /** `"\n".join(lines)` */
  function Join(lines: seq<string>): string
    requires lines != []
  {
    if |lines| == 1 then lines[0] else lines[0] + "\n" + Join(lines[1..])
  }

  lemma IndexBehind(front: string, c: char, back: string)
    requires c !in front
    ensures c in front + [c] + back && Index(front + [c] + back, c) == |front|
  {
    var s := front + [c] + back;
    assert s[|front|] == c;
    assert forall j | 0 <= j < |front| :: s[j] == front[j];
  }

  /** One line and its newline split off. */
  lemma SplitHead(line: string, rest: string)
    requires '\n' !in line
    ensures Split(line + ['\n'] + rest) == [line] + Split(rest)
  {
    var s := line + ['\n'] + rest;
    IndexBehind(line, '\n', rest);
    assert s[..|line|] == line && s[|line| + 1..] == rest;
  }

  lemma JoinHead(line: string, rest: seq<string>)
    requires rest != []
    ensures Join([line] + rest) == line + ['\n'] + Join(rest)
  {
    assert ([line] + rest)[1..] == rest;
  }

  lemma {:induction false} SplitJoin(lines: seq<string>)
    requires lines != [] && forall l | l in lines :: '\n' !in l
    ensures Split(Join(lines)) == lines
    decreases |lines|
  {
    var line, rest := lines[0], lines[1..];
    assert lines == [line] + rest;
    if rest != [] {
      SplitJoin(rest);
      JoinHead(line, rest);
      SplitHead(line, Join(rest));
    }
  }

  lemma {:induction false} SplitHasNoNewline(s: string)
    ensures forall l | l in Split(s) :: '\n' !in l
    decreases |s|
  {
    if '\n' in s {
      var n := Index(s, '\n');
      SplitHasNoNewline(s[n + 1..]);
      assert forall l | l in Split(s) :: l == s[..n] || l in Split(s[n + 1..]);
    }
  }

  // ----- the line pattern

  /** A line of the shape `KEY = "old"rest`; `before` and `after` are the white space around `=`. */
  datatype Assignment = Assignment(key: string, before: string, after: string, value: string, rest: string)

  predicate IsIdentityKey(key: string) {
    key == "BC_NAME" || key == "WORK_ID"
  }

  predicate Matches(a: Assignment) {
    IsIdentityKey(a.key) && Blank(a.before) && Blank(a.after) && '"' !in a.value
  }

  /** Text that opens a value with a quote, after the `=`. */
  function OpenValue(after: string, tail: string): string {
    after + (['"'] + tail)
  }

  /** A line whose value opens with a quote. */
  function Opened(key: string, before: string, after: string, tail: string): string {
    key + (before + (['='] + OpenValue(after, tail)))
  }

  function Closed(value: string, rest: string): string {
    value + ['"'] + rest
  }

  function Render(a: Assignment): string {
    Opened(a.key, a.before, a.after, Closed(a.value, a.rest))
  }

  /** How many white space characters lead the text. */
  function Spaces(s: string): (n: nat)
    ensures n <= |s|
  {
    if s == "" || !IsSpace(s[0]) then 0 else 1 + Spaces(s[1..])
  }

  lemma {:induction false} SpacesOf(white: string, back: string)
    requires Blank(white) && (back == "" || !IsSpace(back[0]))
    ensures Spaces(white + back) == |white|
    decreases |white|
  {
    if white == "" {
      assert white + back == back;
    } else {
      assert (white + back)[0] == white[0] && (white + back)[1..] == white[1..] + back;
      SpacesOf(white[1..], back);
    }
  }

  lemma {:induction false} SpacesAreBlank(s: string)
    ensures Blank(s[..Spaces(s)])
  {
    if s != "" && IsSpace(s[0]) {
      SpacesAreBlank(s[1..]);
      var n := Spaces(s[1..]);
      forall i | 0 <= i < n + 1 ensures IsSpace(s[i]) {
        if i > 0 { assert s[1..][..n][i - 1] == s[i]; }
      }
    }
  }

  /** White space up to a character that is none splits off uniquely. */
  lemma CutAt(white: string, c: char, back: string)
    requires Blank(white) && !IsSpace(c)
    ensures var s := white + ([c] + back);
            Spaces(s) == |white| < |s| && s[|white|] == c && s[..|white|] == white && s[|white| + 1..] == back
  {
    SpacesOf(white, [c] + back);
  }

  lemma SplitsAt(s: string, n: nat)
    requires n < |s|
    ensures s == s[..n] + ([s[n]] + s[n + 1..])
  {
  }

  /** The pattern behind the opening quote. */
  function MatchTail(key: string, before: string, after: string, s: string): Option<Assignment> {
    if '"' in s then
      var q := Index(s, '"');
      Some(Assignment(key, before, after, s[..q], s[q + 1..]))
    else None
  }

  /** The pattern behind the `=`. */
  function MatchAfter(key: string, before: string, s: string): Option<Assignment> {
    var n := Spaces(s);
    if n == |s| || s[n] != '"' then None else MatchTail(key, before, s[..n], s[n + 1..])
  }

  /** The pattern behind the key. */
  function MatchBefore(key: string, s: string): Option<Assignment> {
    var n := Spaces(s);
    if n == |s| || s[n] != '=' then None else MatchAfter(key, s[..n], s[n + 1..])
  }

  /** `re.match` of the line pattern. */
  function MatchLine(line: string): Option<Assignment> {
    if |line| < 7 || !IsIdentityKey(line[..7]) then None
    else MatchBefore(line[..7], line[7..])
  }

  lemma OpenedMatches(key: string, before: string, after: string, tail: string)
    requires IsIdentityKey(key) && Blank(before) && Blank(after)
    ensures MatchLine(Opened(key, before, after, tail)) == MatchTail(key, before, after, tail)
  {
    var s := before + (['='] + OpenValue(after, tail));
    assert (key + s)[..7] == key && (key + s)[7..] == s;
    CutAt(before, '=', OpenValue(after, tail));
    CutAt(after, '"', tail);
  }

  lemma ClosedTail(key: string, before: string, after: string, value: string, rest: string)
    requires '"' !in value
    ensures MatchTail(key, before, after, Closed(value, rest)) == Some(Assignment(key, before, after, value, rest))
  {
    IndexBehind(value, '"', rest);
    var tail := Closed(value, rest);
    assert tail[..|value|] == value && tail[|value| + 1..] == rest;
  }

  /** Every line of the shape matches, in exactly one way ... */
  lemma MatchComplete(a: Assignment)
    requires Matches(a)
    ensures MatchLine(Render(a)) == Some(a)
  {
    OpenedMatches(a.key, a.before, a.after, Closed(a.value, a.rest));
    ClosedTail(a.key, a.before, a.after, a.value, a.rest);
  }

  lemma TailSound(key: string, before: string, after: string, s: string, a: Assignment)
    requires MatchTail(key, before, after, s) == Some(a)
    ensures a == Assignment(key, before, after, a.value, a.rest) && '"' !in a.value && s == Closed(a.value, a.rest)
  {
  }

  lemma AfterSound(key: string, before: string, s: string, a: Assignment)
    requires MatchAfter(key, before, s) == Some(a)
    ensures a == Assignment(key, before, a.after, a.value, a.rest) && Blank(a.after) && '"' !in a.value
    ensures s == OpenValue(a.after, Closed(a.value, a.rest))
  {
    var n := Spaces(s);
    var after, tail := s[..n], s[n + 1..];
    SpacesAreBlank(s);
    SplitsAt(s, n);
    TailSound(key, before, after, tail, a);
  }

  lemma BeforeSound(key: string, s: string, a: Assignment)
    requires MatchBefore(key, s) == Some(a)
    ensures a.key == key && Blank(a.before) && Blank(a.after) && '"' !in a.value
    ensures s == a.before + (['='] + OpenValue(a.after, Closed(a.value, a.rest)))
  {
    var n := Spaces(s);
    var before, tail := s[..n], s[n + 1..];
    SpacesAreBlank(s);
    SplitsAt(s, n);
    AfterSound(key, before, tail, a);
  }

  lemma CutsAt(s: string, n: nat)
    requires n <= |s|
    ensures s == s[..n] + s[n..]
  {
  }

  /** ... and no other line does. */
  lemma MatchSound(line: string, a: Assignment)
    requires MatchLine(line) == Some(a)
    ensures Matches(a) && Render(a) == line
  {
    var key, s := line[..7], line[7..];
    BeforeSound(key, s, a);
    CutsAt(line, 7);
    var back := a.before + (['='] + OpenValue(a.after, Closed(a.value, a.rest)));
    assert s == back;
    assert Render(a) == key + back;
  }

  // ----- the rewrite

  function Replace(s: string, c: char, sub: string): string {
    if s == "" then "" else (if s[0] == c then sub else [s[0]]) + Replace(s[1..], c, sub)
  }

  /** Backslashes first, then double quotes. */
  function Escape(value: string): string {
    Replace(Replace(value, '\\', "\\\\"), '"', "\\\"")
  }

  function ValueFor(key: string, bcName: string, workId: string): string {
    if key == "BC_NAME" then bcName else workId
  }

  function Substitute(line: string, bcName: string, workId: string): string {
    match MatchLine(line)
    case None => line
    case Some(a) => Opened(a.key, a.before, a.after, Closed(Escape(ValueFor(a.key, bcName, workId)), a.rest))
  }

  function SubstituteAll(lines: seq<string>, bcName: string, workId: string): seq<string> {
    seq(|lines|, i requires 0 <= i < |lines| => Substitute(lines[i], bcName, workId))
  }

  /** `_fabro_workflow_toml_rewrite` */
  function Rewrite(source: string, bcName: string, workId: string): string {
    Join(SubstituteAll(Split(source), bcName, workId))
  }

  // ----- escaping

  lemma {:induction false} ReplaceAppend(a: string, b: string, c: char, sub: string)
    ensures Replace(a + b, c, sub) == Replace(a, c, sub) + Replace(b, c, sub)
    decreases |a|
  {
    if a == "" {
      assert a + b == b;
    } else {
      var head := if a[0] == c then sub else [a[0]];
      assert (a + b)[0] == a[0] && (a + b)[1..] == a[1..] + b;
      ReplaceAppend(a[1..], b, c, sub);
      assert head + (Replace(a[1..], c, sub) + Replace(b, c, sub)) == head + Replace(a[1..], c, sub) + Replace(b, c, sub);
    }
  }

  /** What one character becomes. */
  function EscapeChar(c: char): string {
    if c == '\\' then "\\\\" else if c == '"' then "\\\"" else [c]
  }

  lemma EscapeOfChar(c: char)
    ensures Replace(Replace([c], '\\', "\\\\"), '"', "\\\"") == EscapeChar(c)
  {
    assert [c][1..] == "" && "\\\\"[1..] == "\\" && "\\"[1..] == "";
    assert Replace([c], '\\', "\\\\") == if c == '\\' then "\\\\" else [c];
    assert Replace("\\\\", '"', "\\\"") == "\\\\";
  }

  /** The two passes escape character by character. */
  lemma EscapeHead(value: string)
    requires value != ""
    ensures Escape(value) == EscapeChar(value[0]) + Escape(value[1..])
  {
    var once := Replace([value[0]], '\\', "\\\\");
    assert value == [value[0]] + value[1..];
    ReplaceAppend([value[0]], value[1..], '\\', "\\\\");
    ReplaceAppend(once, Replace(value[1..], '\\', "\\\\"), '"', "\\\"");
    EscapeOfChar(value[0]);
  }

  lemma {:induction false} EscapeAddsNoChar(value: string, c: char)
    requires c != '\\'
    ensures c in Escape(value) <==> c in value
    decreases |value|
  {
    if value != "" {
      EscapeHead(value);
      EscapeAddsNoChar(value[1..], c);
      assert value == [value[0]] + value[1..];
      assert c in EscapeChar(value[0]) <==> c == value[0];
    }
  }

  // ----- reading a TOML basic string (section "String" of TOML v1.0.0)

  /** A character that may stand in a basic string, raw or escaped: anything but a control character,
      and the tab. */
  predicate Permitted(c: char) {
    c == '\t' || (c as int >= 0x20 && c as int != 0x7f)
  }

  function Unescaped(c: char): Option<char> {
    if c == 'b' then Some(8 as char)
    else if c == 't' then Some('\t')
    else if c == 'n' then Some('\n')
    else if c == 'f' then Some(12 as char)
    else if c == 'r' then Some('\r')
    else if c == '"' || c == '\\' then Some(c)
    else None
  }

  datatype Reading = Reading(value: string, rest: string)

  function Prepend(c: char, r: Option<Reading>): Option<Reading> {
    match r
    case None => None
    case Some(x) => Some(Reading([c] + x.value, x.rest))
  }

  /** Read from behind the opening quote: the value, and what follows the closing quote. */
  function ReadBasic(s: string): Option<Reading>
    decreases |s|
  {
    if s == "" then None
    else if s[0] == '"' then Some(Reading("", s[1..]))
    else if s[0] == '\\' then
      if |s| >= 2 && Unescaped(s[1]).Some? then Prepend(Unescaped(s[1]).value, ReadBasic(s[2..])) else None
    else if Permitted(s[0]) then Prepend(s[0], ReadBasic(s[1..]))
    else None
  }

  lemma ReadEscape(c: char, s: string)
    ensures ReadBasic(['\\', c] + s) == if Unescaped(c).Some? then Prepend(Unescaped(c).value, ReadBasic(s)) else None
  {
    assert (['\\', c] + s)[2..] == s;
  }

  /** The reader knows the short escapes of the standard: backspace, tab, newline, form feed, return, quote and
      backslash. */
  lemma ShortEscapes(rest: string, codes: string, chars: string)
    requires codes == "btnfr\"\\" && chars == [8 as char, '\t', '\n', 12 as char, '\r', '"', '\\']
    ensures forall i | 0 <= i < 7 ::
              ReadBasic(['\\', codes[i]] + ("\"" + rest)) == Some(Reading([chars[i]], rest))
  {
    assert ("\"" + rest)[1..] == rest;
    assert ReadBasic("\"" + rest) == Some(Reading("", rest));
    forall i | 0 <= i < 7
      ensures ReadBasic(['\\', codes[i]] + ("\"" + rest)) == Some(Reading([chars[i]], rest))
    {
      ReadEscape(codes[i], "\"" + rest);
      assert [chars[i]] + "" == [chars[i]];
    }
  }

  lemma ReadHead(c: char, s: string)
    ensures ReadBasic(EscapeChar(c) + s) == if Permitted(c) then Prepend(c, ReadBasic(s)) else None
  {
    var all := EscapeChar(c) + s;
    if c == '\\' || c == '"' {
      assert all[0] == '\\' && all[1] == c && all[2..] == s;
    } else {
      assert all[0] == c && all[1..] == s;
    }
  }

  predicate AllPermitted(value: string) {
    forall c | c in value :: Permitted(c)
  }

  lemma PermittedHead(c: char, tail: string)
    ensures AllPermitted([c] + tail) <==> Permitted(c) && AllPermitted(tail)
  {
    assert ([c] + tail)[0] == c;
    assert forall d | d in tail :: d in [c] + tail;
  }

  lemma ClosedHead(front: string, tail: string, rest: string)
    ensures Closed(front + tail, rest) == front + Closed(tail, rest)
  {
  }

  /** The escaped value, closed by a quote, reads back as the value exactly when the value holds no
      control character besides the tab; otherwise the string is malformed. */
  lemma {:induction false} EscapeReadsBack(value: string, rest: string)
    ensures ReadBasic(Closed(Escape(value), rest)) == if AllPermitted(value) then Some(Reading(value, rest)) else None
    decreases |value|
  {
    if value == "" {
      assert Closed(Escape(value), rest)[1..] == rest;
    } else {
      var c, tail := value[0], value[1..];
      assert value == [c] + tail;
      EscapeReadsBack(tail, rest);
      var read := ReadBasic(Closed(Escape(tail), rest));
      EscapeHead(value);
      ClosedHead(EscapeChar(c), Escape(tail), rest);
      ReadHead(c, Closed(Escape(tail), rest));
      assert ReadBasic(Closed(Escape(value), rest)) == if Permitted(c) then Prepend(c, read) else None;
      PermittedHead(c, tail);
    }
  }

  // ----- what the rewrite guarantees

  /** A line that does not match is kept; a matching one keeps all but its value, and a TOML reader finds
      the launch's identity there. */
  lemma SubstituteCarriesIdentity(line: string, bcName: string, workId: string)
    ensures MatchLine(line) == None ==> Substitute(line, bcName, workId) == line
    ensures forall a | MatchLine(line) == Some(a) ::
              var value := ValueFor(a.key, bcName, workId);
              && Substitute(line, bcName, workId) == Opened(a.key, a.before, a.after, Closed(Escape(value), a.rest))
              && (ReadBasic(Closed(Escape(value), a.rest)) == Some(Reading(value, a.rest)) <==> AllPermitted(value))
  {
    if MatchLine(line).Some? {
      var a := MatchLine(line).value;
      EscapeReadsBack(ValueFor(a.key, bcName, workId), a.rest);
    }
  }

  /** No value written on this line holds the character. */
  predicate FreeWhereUsed(c: char, line: string, bcName: string, workId: string) {
    MatchLine(line).Some? ==> c !in ValueFor(MatchLine(line).value.key, bcName, workId)
  }

  lemma SubstituteNewline(line: string, bcName: string, workId: string)
    requires '\n' !in line
    ensures '\n' !in Substitute(line, bcName, workId) <==> FreeWhereUsed('\n', line, bcName, workId)
  {
    if MatchLine(line).Some? {
      var a := MatchLine(line).value;
      MatchSound(line, a);
      assert forall c | c in a.key || c in a.before || c in a.after || c in a.rest :: c in Render(a);
      EscapeAddsNoChar(ValueFor(a.key, bcName, workId), '\n');
      var safe := Escape(ValueFor(a.key, bcName, workId));
      InOpened(a.key, a.before, a.after, safe, a.rest, '\n');
    }
  }

  lemma InOpened(key: string, before: string, after: string, value: string, rest: string, c: char)
    requires c !in key && c !in before && c !in after && c !in rest && c != '=' && c != '"'
    ensures c in Opened(key, before, after, Closed(value, rest)) <==> c in value
  {
    var tail := Closed(value, rest);
    assert c in tail <==> c in value;
    var text := before + (['='] + OpenValue(after, tail));
    assert c in OpenValue(after, tail) <==> c in tail;
    assert c in text <==> c in OpenValue(after, tail);
  }

  /** The lines of the rewritten text are the rewritten lines, so their number is kept, and so is every
      line that does not match. */
  lemma RewriteKeepsLines(source: string, bcName: string, workId: string)
    requires forall line | line in Split(source) :: FreeWhereUsed('\n', line, bcName, workId)
    ensures Split(Rewrite(source, bcName, workId)) == SubstituteAll(Split(source), bcName, workId)
    ensures |Split(Rewrite(source, bcName, workId))| == |Split(source)|
    ensures forall i | 0 <= i < |Split(source)| && MatchLine(Split(source)[i]) == None ::
              Split(Rewrite(source, bcName, workId))[i] == Split(source)[i]
  {
    var lines := Split(source);
    SplitHasNoNewline(source);
    forall i | 0 <= i < |lines| ensures '\n' !in Substitute(lines[i], bcName, workId) {
      SubstituteNewline(lines[i], bcName, workId);
    }
    SplitJoin(SubstituteAll(lines, bcName, workId));
  }

  // ----- which identity goes where

  /** `KEY = "value"rest` */
  function Plainly(key: string, before: string, after: string, value: string, rest: string): string {
    key + before + "=" + after + "\"" + value + "\"" + rest
  }

  lemma PlainlyOpened(key: string, before: string, after: string, value: string, rest: string)
    ensures Plainly(key, before, after, value, rest) == Opened(key, before, after, Closed(value, rest))
  {
    var tail := Closed(value, rest);
    assert "\"" + value + "\"" + rest == ['"'] + tail;
    assert "=" + after + (['"'] + tail) == ['='] + OpenValue(after, tail);
    assert Plainly(key, before, after, value, rest) == key + before + "=" + after + ("\"" + value + "\"" + rest);
    assert key + before + "=" + after + (['"'] + tail) == key + (before + ("=" + after + (['"'] + tail)));
  }

  /** No control character besides the tab. */
  predicate NoControl(value: string) {
    forall c | c in value :: c == '\t' || (c >= ' ' && c as int != 127)
  }

  /** `BC_NAME` gets the name of the BC and `WORK_ID` the work id, as a TOML reader will read them; the rest of the
      line stays. */
  lemma IdentityOnLine(key: string, before: string, after: string, was: string, rest: string, bcName: string, workId: string)
    returns (written: string)
    requires (key == "BC_NAME" || key == "WORK_ID") && Blank(before) && Blank(after) && '"' !in was
    ensures Substitute(Plainly(key, before, after, was, rest), bcName, workId) == Plainly(key, before, after, written, rest)
    ensures key == "BC_NAME" ==>
              ReadBasic(written + "\"" + rest) == if NoControl(bcName) then Some(Reading(bcName, rest)) else None
    ensures key == "WORK_ID" ==>
              ReadBasic(written + "\"" + rest) == if NoControl(workId) then Some(Reading(workId, rest)) else None
    ensures '\n' !in written <==> '\n' !in if key == "BC_NAME" then bcName else workId
  {
    var value := if key == "BC_NAME" then bcName else workId;
    written := Escape(value);
    MatchComplete(Assignment(key, before, after, was, rest));
    PlainlyOpened(key, before, after, was, rest);
    PlainlyOpened(key, before, after, written, rest);
    WrittenReadsBack(value, rest, written);
    EscapeAddsNoChar(value, '\n');
  }

  lemma WrittenReadsBack(value: string, rest: string, written: string)
    requires written == Escape(value)
    ensures ReadBasic(written + "\"" + rest) == if NoControl(value) then Some(Reading(value, rest)) else None
  {
    EscapeReadsBack(value, rest);
    assert AllPermitted(value) <==> NoControl(value);
    assert written + "\"" + rest == Closed(written, rest);
  }

  /** So do the lines of the rewritten text, when neither identity holds a newline. */
  lemma IdentityInText(source: string, i: nat, key: string, before: string, after: string, was: string, rest: string,
                       bcName: string, workId: string) returns (written: string)
    requires (key == "BC_NAME" || key == "WORK_ID") && Blank(before) && Blank(after) && '"' !in was
    requires i < |Split(source)| && Split(source)[i] == Plainly(key, before, after, was, rest)
    requires '\n' !in bcName && '\n' !in workId
    ensures |Split(Rewrite(source, bcName, workId))| == |Split(source)|
    ensures Split(Rewrite(source, bcName, workId))[i] == Plainly(key, before, after, written, rest)
    ensures key == "BC_NAME" && NoControl(bcName) ==> ReadBasic(written + "\"" + rest) == Some(Reading(bcName, rest))
    ensures key == "WORK_ID" && NoControl(workId) ==> ReadBasic(written + "\"" + rest) == Some(Reading(workId, rest))
  {
    written := IdentityOnLine(key, before, after, was, rest, bcName, workId);
    RewriteKeepsLines(source, bcName, workId);
  }

  // ----- the number of lines

  function Newlines(s: string): nat {
    if s == "" then 0 else (if s[0] == '\n' then 1 else 0) + Newlines(s[1..])
  }

  lemma {:induction false} NewlinesAppend(a: string, b: string)
    ensures Newlines(a + b) == Newlines(a) + Newlines(b)
    decreases |a|
  {
    if a == "" {
      assert a + b == b;
    } else {
      assert (a + b)[0] == a[0] && (a + b)[1..] == a[1..] + b;
      NewlinesAppend(a[1..], b);
    }
  }

  lemma {:induction false} NoNewlines(s: string)
    ensures Newlines(s) == 0 <==> '\n' !in s
  {
    if s != "" {
      NoNewlines(s[1..]);
      assert s == [s[0]] + s[1..];
    }
  }

  lemma {:induction false} SplitCount(s: string)
    ensures |Split(s)| == Newlines(s) + 1
    decreases |s|
  {
    NoNewlines(s);
    if '\n' in s {
      var n := Index(s, '\n');
      var front, back := s[..n], s[n + 1..];
      SplitsAt(s, n);
      NewlinesAppend(front, ['\n'] + back);
      NewlinesAppend(['\n'], back);
      assert Newlines(['\n']) == 1 by { assert ['\n'][1..] == ""; }
      NoNewlines(front);
      SplitCount(back);
    }
  }

  function TotalNewlines(lines: seq<string>): nat {
    if lines == [] then 0 else Newlines(lines[0]) + TotalNewlines(lines[1..])
  }

  lemma {:induction false} JoinNewlines(lines: seq<string>)
    requires lines != []
    ensures Newlines(Join(lines)) == TotalNewlines(lines) + |lines| - 1
  {
    if |lines| == 1 {
      assert TotalNewlines(lines[1..]) == 0;
    } else {
      var rest := Join(lines[1..]);
      JoinNewlines(lines[1..]);
      NewlinesAppend(lines[0] + "\n", rest);
      NewlinesAppend(lines[0], "\n");
      assert Newlines("\n") == 1 by { assert "\n"[1..] == ""; }
    }
  }

  lemma {:induction false} NoneInTotal(lines: seq<string>)
    ensures TotalNewlines(lines) == 0 <==> forall l | l in lines :: '\n' !in l
  {
    if lines != [] {
      NoNewlines(lines[0]);
      NoneInTotal(lines[1..]);
      assert forall l | l in lines :: l == lines[0] || l in lines[1..];
    }
  }

  /** For every identity: the line count is kept if and only if no value written holds a newline. */
  lemma LineCountKeptIff(source: string, bcName: string, workId: string)
    ensures |Split(Rewrite(source, bcName, workId))| == |Split(source)|
       <==> forall line | line in Split(source) :: FreeWhereUsed('\n', line, bcName, workId)
  {
    var lines := Split(source);
    var all := SubstituteAll(lines, bcName, workId);
    SplitHasNoNewline(source);
    SplitCount(Join(all));
    JoinNewlines(all);
    NoneInTotal(all);
    forall i | 0 <= i < |lines| ensures '\n' !in all[i] <==> FreeWhereUsed('\n', lines[i], bcName, workId) {
      SubstituteNewline(lines[i], bcName, workId);
    }
    assert forall i | 0 <= i < |lines| :: all[i] in all && lines[i] in lines;
  }

  // ----- rewriting twice

  /** The line pattern on a rewritten line: the value ends at the first quote, escaped or not. */
  lemma RematchQuoteFree(a: Assignment, value: string)
    requires Matches(a) && '"' !in value
    ensures MatchLine(Opened(a.key, a.before, a.after, Closed(Escape(value), a.rest))) == Some(a.(value := Escape(value)))
  {
    EscapeAddsNoChar(value, '"');
    MatchComplete(a.(value := Escape(value)));
  }

  lemma QuotedTail(key: string, before: string, after: string, value: string, rest: string)
    requires '"' in value
    ensures var m := MatchTail(key, before, after, Closed(value, rest));
            m.Some? && m.value == Assignment(key, before, after, m.value.value, m.value.rest) && |m.value.rest| > |rest|
  {
    var tail := Closed(value, rest);
    var j :| 0 <= j < |value| && value[j] == '"';
    assert tail[j] == '"';
    assert Index(tail, '"') <= j;
  }

  lemma RematchQuoted(a: Assignment, value: string)
    requires Matches(a) && '"' in value
    ensures var m := MatchLine(Opened(a.key, a.before, a.after, Closed(Escape(value), a.rest)));
            && m.Some? && m.value == Assignment(a.key, a.before, a.after, m.value.value, m.value.rest)
            && |m.value.rest| > |a.rest|
  {
    EscapeAddsNoChar(value, '"');
    OpenedMatches(a.key, a.before, a.after, Closed(Escape(value), a.rest));
    QuotedTail(a.key, a.before, a.after, Escape(value), a.rest);
  }

  /** On one line a second substitution overrides the first exactly when the first value has no quote;
      otherwise pieces of the first value stay behind. */
  lemma SubstituteTwice(line: string, bc1: string, wid1: string, bc2: string, wid2: string)
    ensures var once := Substitute(Substitute(line, bc1, wid1), bc2, wid2);
            && (FreeWhereUsed('"', line, bc1, wid1) ==> once == Substitute(line, bc2, wid2))
            && (!FreeWhereUsed('"', line, bc1, wid1) ==> |once| > |Substitute(line, bc2, wid2)|)
  {
    if MatchLine(line).Some? {
      var a := MatchLine(line).value;
      var value := ValueFor(a.key, bc1, wid1);
      MatchSound(line, a);
      if '"' in value { RematchQuoted(a, value); } else { RematchQuoteFree(a, value); }
    }
  }

  function TotalLength(lines: seq<string>): nat {
    if lines == [] then 0 else |lines[0]| + TotalLength(lines[1..])
  }

  lemma {:induction false} JoinLength(lines: seq<string>)
    requires lines != []
    ensures |Join(lines)| == TotalLength(lines) + |lines| - 1
  {
    if |lines| > 1 { JoinLength(lines[1..]); }
  }

  lemma {:induction false} LongerLine(a: seq<string>, b: seq<string>)
    requires |a| == |b| && forall i | 0 <= i < |a| :: |a[i]| >= |b[i]|
    ensures TotalLength(a) >= TotalLength(b)
    ensures (exists i :: 0 <= i < |a| && |a[i]| > |b[i]|) ==> TotalLength(a) > TotalLength(b)
  {
    if a != [] {
      LongerLine(a[1..], b[1..]);
      if i :| 0 <= i < |a| && |a[i]| > |b[i]| && i > 0 {
        assert |a[1..][i - 1]| > |b[1..][i - 1]|;
      }
    }
  }

  lemma SubstituteAllTwice(lines: seq<string>, bc1: string, wid1: string, bc2: string, wid2: string)
    ensures var twice := SubstituteAll(SubstituteAll(lines, bc1, wid1), bc2, wid2);
            var direct := SubstituteAll(lines, bc2, wid2);
            && |twice| == |direct| == |lines|
            && (forall i | 0 <= i < |lines| && FreeWhereUsed('"', lines[i], bc1, wid1) :: twice[i] == direct[i])
            && (forall i | 0 <= i < |lines| && !FreeWhereUsed('"', lines[i], bc1, wid1) :: |twice[i]| > |direct[i]|)
  {
    forall i | 0 <= i < |lines|
      ensures var once := Substitute(Substitute(lines[i], bc1, wid1), bc2, wid2);
              && (FreeWhereUsed('"', lines[i], bc1, wid1) ==> once == Substitute(lines[i], bc2, wid2))
              && (!FreeWhereUsed('"', lines[i], bc1, wid1) ==> |once| > |Substitute(lines[i], bc2, wid2)|)
    {
      SubstituteTwice(lines[i], bc1, wid1, bc2, wid2);
    }
  }

  lemma LongerJoin(a: seq<string>, b: seq<string>, i: nat)
    requires |a| == |b| && i < |a| && |a[i]| > |b[i]|
    requires forall j | 0 <= j < |a| :: |a[j]| >= |b[j]|
    ensures Join(a) != Join(b)
  {
    LongerLine(a, b);
    JoinLength(a);
    JoinLength(b);
  }

  /** A second rewrite overrides the first if and only if no value the first one wrote has a double quote;
      with equal values this says when the rewrite is idempotent. */
  lemma RewriteTwice(source: string, bc1: string, wid1: string, bc2: string, wid2: string)
    requires forall line | line in Split(source) :: FreeWhereUsed('\n', line, bc1, wid1)
    ensures Rewrite(Rewrite(source, bc1, wid1), bc2, wid2) == Rewrite(source, bc2, wid2)
       <==> forall line | line in Split(source) :: FreeWhereUsed('"', line, bc1, wid1)
  {
    var lines := Split(source);
    var twice := SubstituteAll(SubstituteAll(lines, bc1, wid1), bc2, wid2);
    var direct := SubstituteAll(lines, bc2, wid2);
    RewriteKeepsLines(source, bc1, wid1);
    SubstituteAllTwice(lines, bc1, wid1, bc2, wid2);
    if i :| 0 <= i < |lines| && !FreeWhereUsed('"', lines[i], bc1, wid1) {
      LongerJoin(twice, direct, i);
    } else {
      assert twice == direct;
    }
  }

  /** For every first identity, and a second one without newlines: the second rewrite overrides the first if and
      only if no value the first one wrote has a newline or a double quote. */
  lemma RewriteTwiceIff(source: string, bc1: string, wid1: string, bc2: string, wid2: string)
    requires '\n' !in bc2 && '\n' !in wid2
    ensures Rewrite(Rewrite(source, bc1, wid1), bc2, wid2) == Rewrite(source, bc2, wid2)
       <==> forall line | line in Split(source) ::
              FreeWhereUsed('\n', line, bc1, wid1) && FreeWhereUsed('"', line, bc1, wid1)
  {
    LineCountKeptIff(source, bc1, wid1);
    LineCountKeptIff(source, bc2, wid2);
    LineCountKeptIff(Rewrite(source, bc1, wid1), bc2, wid2);
    if forall line | line in Split(source) :: FreeWhereUsed('\n', line, bc1, wid1) {
      RewriteTwice(source, bc1, wid1, bc2, wid2);
    }
  }
}
