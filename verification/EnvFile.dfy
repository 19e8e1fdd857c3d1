/** The env-file parser: KEY=VALUE lines, comments, `export`, quoted and multi-line quoted values. */
module EnvFile {
  import opened Text

  predicate IsQuote(c: char) {
    c == '\'' || c == '"'
  }

  /** `_is_closed_quote` */
  predicate IsClosedQuote(value: string) {
    |value| >= 2 && IsQuote(value[0]) && value[|value| - 1] == value[0]
  }

  // ----- what the parser computes

  /** The continuation of an open quote from line `i` on: the text gained, the next line to read, and
      whether the quote was closed. */
  datatype Tail = Tail(text: string, next: nat, closed: bool)

  function Continue(quote: char, lines: seq<string>, i: nat): (t: Tail)
    requires i <= |lines|
    ensures i <= t.next <= |lines| && (!t.closed ==> t.next == |lines|)
    decreases |lines| - i
  {
    if i == |lines| then Tail("", i, false)
    else if quote in lines[i] then Tail("\n" + lines[i][..Index(lines[i], quote)], i + 1, true)
    else
      var t := Continue(quote, lines, i + 1);
      t.(text := "\n" + lines[i] + t.text)
  }

  /** One logical entry: an assignment, or no key; the next line to read; and whether the input ended
      inside a quote. */
  datatype Step = Step(key: string, value: string, next: nat, open: bool)

  /** The part before the first `=` and the part after it, stripped. */
  function KeyPart(line: string): string
    requires '=' in line
  {
    Strip(line[..Index(line, '=')])
  }

  function ValuePart(line: string): string
    requires '=' in line
  {
    Strip(line[Index(line, '=') + 1..])
  }

  predicate OpensQuote(value: string) {
    value != "" && IsQuote(value[0]) && !IsClosedQuote(value)
  }

  /** The assignment `key=value`, where `i` is the line after it. */
  function Assigned(key: string, value: string, lines: seq<string>, i: nat): (s: Step)
    requires i <= |lines|
    ensures i <= s.next <= |lines| && (s.open ==> s.next == |lines|)
  {
    if OpensQuote(value) then
      var t := Continue(value[0], lines, i);
      Step(key, value[1..] + t.text, t.next, !t.closed)
    else if IsClosedQuote(value) then Step(key, value[1..|value| - 1], i, false)
    else Step(key, value, i, false)
  }

  function DropExport(line: string): string {
    if "export " <= line then LStrip(line[7..]) else line
  }

  function EntryAt(lines: seq<string>, i: nat): (s: Step)
    requires i < |lines|
    ensures i < s.next <= |lines| && (s.open ==> s.next == |lines|)
  {
    var line := Strip(lines[i]);
    if line == "" || line[0] == '#' || '=' !in DropExport(line) then Step("", "", i + 1, false)
    else Assigned(KeyPart(DropExport(line)), ValuePart(DropExport(line)), lines, i + 1)
  }

  /** What each line would yield if an entry started there. */
  function Entries(lines: seq<string>): (steps: seq<Step>)
    ensures |steps| == |lines| && Forward(steps)
  {
    seq(|lines|, i requires 0 <= i < |lines| => EntryAt(lines, i))
  }

  /** Every entry consumes its own line, and none reads past the end. */
  predicate Forward(steps: seq<Step>) {
    forall i | 0 <= i < |steps| :: i < steps[i].next <= |steps|
  }

  datatype Pair = Pair(key: string, value: string)

  /** The assignments of the entries from line `i` on, in order. */
  function Pairs(steps: seq<Step>, i: nat): seq<Pair>
    requires Forward(steps) && i <= |steps|
    decreases |steps| - i
  {
    if i == |steps| then [] else [Pair(steps[i].key, steps[i].value)] + Pairs(steps, steps[i].next)
  }

  lemma PairsStep(steps: seq<Step>, i: nat, p: Pair, rest: seq<Pair>)
    requires Forward(steps) && i < |steps|
    requires p == Pair(steps[i].key, steps[i].value) && rest == Pairs(steps, steps[i].next)
    ensures Pairs(steps, i) == [p] + rest
  {
  }

  /** An assignment without a key is dropped. */
  function One(p: Pair): map<string, string> {
    if p.key == "" then map[] else map[p.key := p.value]
  }

  /** A later assignment overrides an earlier one. */
  function Meaning(pairs: seq<Pair>): map<string, string> {
    if pairs == [] then map[] else One(pairs[0]) + Meaning(pairs[1..])
  }

  function Parse(lines: seq<string>): map<string, string> {
    Meaning(Pairs(Entries(lines), 0))
  }

  // ----- the code

  /** The inner loop: collect physical lines until the quote closes. */
  method CollectQuoted(lines: seq<string>, start: nat, quote: char, first: string)
    returns (collected: string, i: nat, closed: bool)
    requires start <= |lines|
    ensures first <= collected && Continue(quote, lines, start) == Tail(collected[|first|..], i, closed)
  {
    collected, i, closed := first, start, false;
    ghost var t := Continue(quote, lines, start);
    while i < |lines|
      invariant start <= i <= |lines| && first <= collected
      invariant var u := Continue(quote, lines, i);
                collected + u.text == first + t.text && u.next == t.next && u.closed == t.closed
    {
      var nxt := lines[i];
      ghost var u := Continue(quote, lines, i);
      ghost var before := collected;
      i := i + 1;
      if quote in nxt {
        var closing := Index(nxt, quote);
        collected, closed := collected + "\n" + nxt[..closing], true;
        assert collected == before + u.text;
        return;
      }
      collected := collected + "\n" + nxt;
      Reassociate(before, "\n", nxt, Continue(quote, lines, i).text);
    }
    assert collected + "" == collected;
  }

  lemma Reassociate(a: string, b: string, c: string, d: string)
    ensures a + (b + c + d) == a + b + c + d
  {
  }

  /** The entry made of one assignment. */
  method TakeAssignment(lines: seq<string>, i: nat, key: string, raw: string) returns (e: Step)
    requires i <= |lines|
    ensures e == Assigned(key, raw, lines, i)
  {
    if raw != "" && IsQuote(raw[0]) && !IsClosedQuote(raw) {
      var value, next, closed := CollectQuoted(lines, i, raw[0], raw[1..]);
      e := Step(key, value, next, !closed);
    } else if IsClosedQuote(raw) {
      e := Step(key, raw[1..|raw| - 1], i, false);
    } else {
      e := Step(key, raw, i, false);
    }
  }

  /** The next logical entry; a skipped line has no key. */
  method ReadEntry(lines: seq<string>, i: nat) returns (e: Step)
    requires i < |lines|
    ensures e == EntryAt(lines, i)
  {
    e := Step("", "", i + 1, false);
    var line := Strip(lines[i]);
    if line == "" || line[0] == '#' { return; }
    if "export " <= line { line := LStrip(line[7..]); }
    if '=' !in line { return; }
    var at := Index(line, '=');
    var key := Strip(line[..at]);
    var value := Strip(line[at + 1..]);
    e := TakeAssignment(lines, i + 1, key, value);
  }

  method ParseEnvFile(lines: seq<string>) returns (result: map<string, string>)
    ensures result == Parse(lines)
  {
    result := map[];
    var i := 0;
    while i < |lines|
      invariant 0 <= i <= |lines|
      invariant result + Meaning(Pairs(Entries(lines), i)) == Parse(lines)
    {
      var e := ReadEntry(lines, i);
      AssignStep(lines, i, result);
      if e.key != "" { result := result[e.key := e.value]; }
      i := e.next;
    }
    assert result + map[] == result;
  }

  lemma MeaningHead(done: map<string, string>, p: Pair, rest: seq<Pair>)
    ensures done + Meaning([p] + rest) == (if p.key != "" then done[p.key := p.value] else done) + Meaning(rest)
  {
    assert ([p] + rest)[1..] == rest;
  }

  /** Assigning the entry at line `i` leaves the rest to assign. */
  lemma AssignStep(lines: seq<string>, i: nat, done: map<string, string>)
    requires i < |lines|
    ensures var e := EntryAt(lines, i);
            done + Meaning(Pairs(Entries(lines), i))
            == (if e.key != "" then done[e.key := e.value] else done) + Meaning(Pairs(Entries(lines), e.next))
  {
    var steps := Entries(lines);
    var e := steps[i];
    var p, rest := Pair(e.key, e.value), Pairs(steps, e.next);
    PairsStep(steps, i, p, rest);
    MeaningHead(done, p, rest);
  }

  // ----- which lines assign what

  lemma {:induction false} LStripPad(pad: string, rest: string)
    requires Blank(pad) && (rest == "" || !IsSpace(rest[0]))
    ensures LStrip(pad + rest) == rest
    decreases |pad|
  {
    if pad == "" {
      assert pad + rest == rest;
    } else {
      assert (pad + rest)[0] == pad[0] && (pad + rest)[1..] == pad[1..] + rest;
      LStripPad(pad[1..], rest);
    }
  }

  lemma {:induction false} RStripPad(front: string, pad: string)
    requires Blank(pad) && (front == "" || !IsSpace(front[|front| - 1]))
    ensures RStrip(front + pad) == front
    decreases |pad|
  {
    if pad == "" {
      assert front + pad == front;
    } else {
      var n := |pad| - 1;
      assert (front + pad)[|front| + n] == pad[n] && (front + pad)[..|front| + n] == front + pad[..n];
      RStripPad(front, pad[..n]);
    }
  }

  /** White space around a trimmed text is stripped. */
  lemma StripPads(lead: string, core: string, trail: string)
    requires Blank(lead) && Blank(trail) && Trimmed(core)
    ensures Strip(lead + (core + trail)) == core
  {
    if core == "" {
      assert core + trail == trail;
      StripEmptyIffBlank(lead + trail);
    } else {
      LStripPad(lead, core + trail);
      RStripPad(core, trail);
    }
  }

  /** `key = value` with white space around the `=`. */
  function Equation(key: string, before: string, after: string, value: string): string {
    key + before + ['='] + (after + value)
  }

  lemma EquationParts(key: string, before: string, after: string, value: string)
    requires '=' !in key + before
    ensures var line := Equation(key, before, after, value);
            '=' in line && line[..Index(line, '=')] == key + before && line[Index(line, '=') + 1..] == after + value
  {
    var front, back := key + before, after + value;
    var line := front + ['='] + back;
    assert line[|front|] == '=';
    assert forall j | 0 <= j < |front| :: line[j] == front[j];
    assert Index(line, '=') == |front|;
  }

  predicate ReadableKey(key: string) {
    key != "" && Trimmed(key) && key[0] != '#' && '=' !in key
  }

  lemma BlankHasNoEquals(pad: string)
    requires Blank(pad)
    ensures '=' !in pad
  {
    forall c | c in pad ensures c != '=' {
      assert IsSpace(c);
    }
  }

  lemma EquationReads(key: string, before: string, after: string, value: string)
    requires ReadableKey(key) && Trimmed(value) && Blank(before) && Blank(after)
    ensures var line := Equation(key, before, after, value);
            '=' in line && KeyPart(line) == key && ValuePart(line) == value
  {
    BlankHasNoEquals(before);
    EquationParts(key, before, after, value);
    StripPads("", key, before);
    assert "" + (key + before) == key + before;
    StripPads(after, value, "");
    assert after + (value + "") == after + value;
  }

  lemma EquationEnds(key: string, before: string, after: string, value: string)
    requires ReadableKey(key) && Trimmed(value) && (value == "" ==> after == "")
    ensures var line := Equation(key, before, after, value);
            line != "" && Trimmed(line) && line[0] == key[0]
  {
    var line := Equation(key, before, after, value);
    assert line[|line| - 1] == if value == "" then '=' else value[|value| - 1];
  }

  lemma EntryOf(lines: seq<string>, i: nat, line: string, core: string)
    requires i < |lines| && Strip(lines[i]) == line && line != "" && line[0] != '#'
    requires DropExport(line) == core && '=' in core
    ensures EntryAt(lines, i) == Assigned(KeyPart(core), ValuePart(core), lines, i + 1)
  {
  }

  /** A text on one line and the value it stands for: itself when it does not start with a quote, and what is
      between two equal quotes. */
  predicate StandsFor(raw: string, v: string) {
    || (raw == v && (v == "" || (v[0] != '\'' && v[0] != '"')))
    || raw == "'" + v + "'"
    || raw == "\"" + v + "\""
  }

  lemma AssignedValue(key: string, raw: string, lines: seq<string>, i: nat)
    requires i <= |lines|
    ensures forall v | StandsFor(raw, v) :: Assigned(key, raw, lines, i) == Step(key, v, i, false)
  {
    forall v | StandsFor(raw, v) ensures Assigned(key, raw, lines, i) == Step(key, v, i, false) {
      if raw == "'" + v + "'" || raw == "\"" + v + "\"" {
        assert raw[0] == raw[|raw| - 1] && raw[1..|raw| - 1] == v;
      }
    }
  }

  /** White space around the key, the value and the whole line does not change what the line assigns.  (White
      space behind an empty value counts as the end of the line, and a key cannot be `export`.) */
  lemma PaddedEntry(lines: seq<string>, i: nat, lead: string, key: string, before: string, after: string,
                    value: string, trail: string)
    requires i < |lines| && lines[i] == lead + (Equation(key, before, after, value) + trail)
    requires ReadableKey(key) && !("export " <= key + before) && Trimmed(value) && (value == "" ==> after == "")
    requires Blank(lead) && Blank(before) && Blank(after) && Blank(trail)
    ensures EntryAt(lines, i) == Assigned(key, value, lines, i + 1)
    ensures forall v | StandsFor(value, v) :: EntryAt(lines, i) == Step(key, v, i + 1, false)
  {
    var core := Equation(key, before, after, value);
    EquationReads(key, before, after, value);
    EquationEnds(key, before, after, value);
    StripPads(lead, core, trail);
    BlankHasNoEquals(before);
    NotExported(key + before, after + value);
    EntryOf(lines, i, core, core);
    AssignedValue(key, value, lines, i + 1);
  }

  lemma NotExported(front: string, back: string)
    requires '=' !in front && !("export " <= front)
    ensures DropExport(front + ['='] + back) == front + ['='] + back
  {
    NoPrefix("export ", front, back);
    assert front + "=" + back == front + ['='] + back;
  }

  /** Neither does `export` in front, with any white space behind it. */
  lemma ExportedEntry(lines: seq<string>, i: nat, lead: string, pad: string, key: string, before: string, after: string,
                      value: string, trail: string)
    requires i < |lines| && lines[i] == lead + ("export " + pad + Equation(key, before, after, value) + trail)
    requires ReadableKey(key) && Trimmed(value) && (value == "" ==> after == "")
    requires Blank(lead) && Blank(pad) && Blank(before) && Blank(after) && Blank(trail)
    ensures EntryAt(lines, i) == Assigned(key, value, lines, i + 1)
    ensures forall v | StandsFor(value, v) :: EntryAt(lines, i) == Step(key, v, i + 1, false)
  {
    var core := Equation(key, before, after, value);
    var line := "export " + pad + core;
    EquationReads(key, before, after, value);
    EquationEnds(key, before, after, value);
    ExportEnds(pad, core);
    StripPads(lead, line, trail);
    DropsExport(pad, core);
    EntryOf(lines, i, line, core);
    AssignedValue(key, value, lines, i + 1);
  }

  lemma ExportEnds(pad: string, core: string)
    requires core != "" && Trimmed(core)
    ensures var line := "export " + pad + core; Trimmed(line) && line[0] == 'e'
  {
    var line := "export " + pad + core;
    assert line[|line| - 1] == core[|core| - 1];
  }

  lemma DropsExport(pad: string, core: string)
    requires Blank(pad) && core != "" && !IsSpace(core[0])
    ensures DropExport("export " + pad + core) == core
  {
    var line := "export " + pad + core;
    assert line[..7] == "export " && line[7..] == pad + core;
    LStripPad(pad, core);
  }

  /** Blank lines, comments and lines without `=` assign nothing. */
  lemma SkippedLine(lines: seq<string>, i: nat, lead: string, comment: string)
    requires i < |lines|
    requires Blank(lines[i]) || '=' !in lines[i] || (Blank(lead) && lines[i] == lead + ['#'] + comment)
    ensures EntryAt(lines, i) == Step("", "", i + 1, false)
  {
    var line := lines[i];
    if Blank(line) {
      StripEmptyIffBlank(line);
    } else if '=' !in line {
      StripKeeps(line);
    } else {
      assert line == lead + (['#'] + comment);
      LStripPad(lead, ['#'] + comment);
      RStripIsPrefix(['#'] + comment);
      RStripKeepsInk(['#'] + comment);
    }
  }

  lemma {:induction false} LStripIsSuffix(s: string)
    ensures forall c | c in LStrip(s) :: c in s
    decreases |s|
  {
    if s != "" && IsSpace(s[0]) { LStripIsSuffix(s[1..]); }
  }

  /** Stripping and dropping `export` bring in no new character. */
  lemma StripKeeps(line: string)
    ensures forall c | c in DropExport(Strip(line)) :: c in line
  {
    var s := Strip(line);
    LStripIsSuffix(line);
    RStripIsPrefix(LStrip(line));
    assert forall c | c in s :: c in LStrip(line);
    if "export " <= s { LStripIsSuffix(s[7..]); }
  }

  // ----- concatenation

  /** The lines from `i` on end inside an open quote. */
  predicate EndsOpen(steps: seq<Step>, i: nat)
    requires Forward(steps) && i <= |steps|
    decreases |steps| - i
  {
    i < |steps| && (steps[i].open || EndsOpen(steps, steps[i].next))
  }

  lemma {:induction false} ContinueInPrefix(quote: char, a: seq<string>, b: seq<string>, i: nat)
    requires i <= |a| && Continue(quote, a, i).closed
    ensures Continue(quote, a + b, i) == Continue(quote, a, i)
    decreases |a| - i
  {
    assert (a + b)[i] == a[i];
    if quote !in a[i] { ContinueInPrefix(quote, a, b, i + 1); }
  }

  /** `all` is some lines followed by `b`. */
  predicate EndsWith(all: seq<string>, n: nat, b: seq<string>) {
    n + |b| == |all| && forall j | 0 <= j < |b| :: all[n + j] == b[j]
  }

  lemma {:induction false} ContinueShifted(quote: char, all: seq<string>, n: nat, b: seq<string>, i: nat)
    requires EndsWith(all, n, b) && i <= |b|
    ensures var t := Continue(quote, b, i); Continue(quote, all, n + i) == Tail(t.text, n + t.next, t.closed)
    decreases |b| - i
  {
    if i < |b| {
      assert all[n + i] == b[i];
      if quote !in b[i] { ContinueShifted(quote, all, n, b, i + 1); }
    }
  }

  lemma EntryInPrefix(a: seq<string>, b: seq<string>, i: nat)
    requires i < |a| && !EntryAt(a, i).open
    ensures EntryAt(a + b, i) == EntryAt(a, i)
  {
    assert (a + b)[i] == a[i];
    var line := Strip(a[i]);
    if line != "" && line[0] != '#' && '=' in DropExport(line) {
      var value := ValuePart(DropExport(line));
      if OpensQuote(value) { ContinueInPrefix(value[0], a, b, i + 1); }
    }
  }

  function Shift(s: Step, n: nat): Step {
    Step(s.key, s.value, n + s.next, s.open)
  }

  lemma EntryShifted(all: seq<string>, n: nat, b: seq<string>, i: nat)
    requires EndsWith(all, n, b) && i < |b|
    ensures EntryAt(all, n + i) == Shift(EntryAt(b, i), n)
  {
    assert all[n + i] == b[i];
    var line := Strip(b[i]);
    if line != "" && line[0] != '#' && '=' in DropExport(line) {
      var value := ValuePart(DropExport(line));
      if OpensQuote(value) { ContinueShifted(value[0], all, n, b, i + 1); }
    }
  }

  /** From line `n` on, `all` is `steps` moved by `n` lines. */
  predicate MovedBy(all: seq<Step>, n: nat, steps: seq<Step>) {
    |all| == n + |steps| && forall j | 0 <= j < |steps| :: all[n + j] == Shift(steps[j], n)
  }

  lemma OpenStep(steps: seq<Step>, i: nat)
    requires Forward(steps) && i < |steps|
    ensures EndsOpen(steps, i) <==> steps[i].open || EndsOpen(steps, steps[i].next)
  {
  }

  lemma {:induction false} PairsMoved(all: seq<Step>, n: nat, steps: seq<Step>, i: nat)
    requires Forward(all) && Forward(steps) && MovedBy(all, n, steps) && i <= |steps|
    ensures Pairs(all, n + i) == Pairs(steps, i)
    decreases |steps| - i
  {
    if i < |steps| {
      var s := steps[i];
      assert all[n + i] == Shift(s, n);
      PairsMoved(all, n, steps, s.next);
      var p, rest := Pair(s.key, s.value), Pairs(steps, s.next);
      PairsStep(steps, i, p, rest);
      PairsStep(all, n + i, p, rest);
    }
  }

  lemma {:induction false} OpenMoved(all: seq<Step>, n: nat, steps: seq<Step>, i: nat)
    requires Forward(all) && Forward(steps) && MovedBy(all, n, steps) && i <= |steps|
    ensures EndsOpen(all, n + i) <==> EndsOpen(steps, i)
    decreases |steps| - i
  {
    if i < |steps| {
      assert all[n + i] == Shift(steps[i], n);
      OpenMoved(all, n, steps, steps[i].next);
      OpenStep(steps, i);
      OpenStep(all, n + i);
    }
  }

  /** As long as no quote stays open, entries of a prefix are entries of the whole. */
  predicate StartsWith(all: seq<Step>, first: seq<Step>) {
    |first| <= |all| && forall j | 0 <= j < |first| && !first[j].open :: all[j] == first[j]
  }

  lemma {:induction false} PairsConcat(all: seq<Step>, first: seq<Step>, second: seq<Step>, i: nat)
    requires Forward(all) && Forward(first) && Forward(second) && MovedBy(all, |first|, second)
    requires StartsWith(all, first) && i <= |first| && !EndsOpen(first, i)
    ensures Pairs(all, i) == Pairs(first, i) + Pairs(second, 0)
    decreases |first| - i
  {
    if i == |first| {
      PairsMoved(all, |first|, second, 0);
    } else {
      var s := first[i];
      OpenStep(first, i);
      assert all[i] == s;
      PairsConcat(all, first, second, s.next);
      var p, rest, more := Pair(s.key, s.value), Pairs(first, s.next), Pairs(second, 0);
      PairsStep(first, i, p, rest);
      PairsStep(all, i, p, rest + more);
      assert [p] + (rest + more) == [p] + rest + more;
    }
  }

  lemma {:induction false} OpenConcat(all: seq<Step>, first: seq<Step>, second: seq<Step>, i: nat)
    requires Forward(all) && Forward(first) && Forward(second) && MovedBy(all, |first|, second)
    requires StartsWith(all, first) && i <= |first| && !EndsOpen(first, i)
    ensures EndsOpen(all, i) <==> EndsOpen(second, 0)
    decreases |first| - i
  {
    if i == |first| {
      OpenMoved(all, |first|, second, 0);
    } else {
      OpenStep(first, i);
      assert all[i] == first[i];
      OpenConcat(all, first, second, first[i].next);
      OpenStep(all, i);
    }
  }

  lemma {:induction false} MeaningAppend(p: seq<Pair>, q: seq<Pair>)
    ensures Meaning(p + q) == Meaning(p) + Meaning(q)
    decreases |p|
  {
    if p == [] {
      assert p + q == q;
    } else {
      var rest, m := p[1..], Meaning(q);
      assert p + q == [p[0]] + (rest + q);
      MeaningAppend(rest, q);
      MeaningStep(p[0], rest + q, Meaning(rest) + m);
      MergeAssociates(One(p[0]), Meaning(rest), m);
    }
  }

  lemma MeaningStep(p: Pair, rest: seq<Pair>, meaning: map<string, string>)
    requires Meaning(rest) == meaning
    ensures Meaning([p] + rest) == One(p) + meaning
  {
    assert ([p] + rest)[1..] == rest;
  }

  lemma MergeAssociates(a: map<string, string>, b: map<string, string>, c: map<string, string>)
    ensures a + (b + c) == a + b + c
  {
  }

  lemma EntriesConcat(a: seq<string>, b: seq<string>)
    ensures MovedBy(Entries(a + b), |a|, Entries(b))
    ensures forall j | 0 <= j < |a| && !Entries(a)[j].open :: Entries(a + b)[j] == Entries(a)[j]
  {
    forall j | 0 <= j < |b| ensures Entries(a + b)[|a| + j] == Shift(Entries(b)[j], |a|) {
      EntryShifted(a + b, |a|, b, j);
    }
    forall j | 0 <= j < |a| && !Entries(a)[j].open ensures Entries(a + b)[j] == Entries(a)[j] {
      EntryInPrefix(a, b, j);
    }
  }

  /** The lines end inside an open quote. */
  predicate LeavesQuoteOpen(lines: seq<string>) {
    EndsOpen(Entries(lines), 0)
  }

  /** Outside an open quote parsing splits over concatenation, and later assignments win. */
  lemma ParseConcat(a: seq<string>, b: seq<string>)
    requires !LeavesQuoteOpen(a)
    ensures Parse(a + b) == Parse(a) + Parse(b)
    ensures LeavesQuoteOpen(a + b) <==> LeavesQuoteOpen(b)
  {
    EntriesConcat(a, b);
    PairsConcat(Entries(a + b), Entries(a), Entries(b), 0);
    OpenConcat(Entries(a + b), Entries(a), Entries(b), 0);
    MeaningAppend(Pairs(Entries(a), 0), Pairs(Entries(b), 0));
  }

  // ----- printing

  /** The lines of a value after the first, each led by its newline. */
  function NlJoin(tail: seq<string>): string {
    if tail == [] then "" else "\n" + tail[0] + NlJoin(tail[1..])
  }

  /** A value given by its lines. */
  function Value(lines: seq<string>): string
    requires lines != []
  {
    lines[0] + NlJoin(lines[1..])
  }

  /** The lines with a closing quote after the last one. */
  function Closing(q: char, tail: seq<string>): seq<string>
    requires tail != []
  {
    if |tail| == 1 then [tail[0] + [q]] else [tail[0]] + Closing(q, tail[1..])
  }

  /** The key, `=`, the opening quote, and the first line of the value. */
  function First(q: char, key: string, body: string): string {
    key + "=" + ([q] + body)
  }

  /** The key, `=`, and the value in quotes, over as many physical lines as the value has. */
  function Print(q: char, key: string, lines: seq<string>): seq<string>
    requires lines != []
  {
    Closing(q, [First(q, key, lines[0])] + lines[1..])
  }

  predicate NoBreak(s: string) {
    forall c | c in s :: !IsBreak(c)
  }

  predicate NoBreaks(lines: seq<string>) {
    forall l | l in lines :: NoBreak(l)
  }

  predicate PrintableKey(key: string) {
    && key != "" && Trimmed(key) && key[0] != '#'
    && '=' !in key && !("export " <= key)
    && NoBreak(key)
  }

  predicate NoNewlines(lines: seq<string>) {
    forall l | l in lines :: '\n' !in l
  }

  /** One line is always printable.  Of several, the first must not end in white space or in the quote, and
      no later one may hold the quote. */
  predicate PrintableValue(q: char, lines: seq<string>) {
    && lines != []
    && (|lines| > 1 ==>
          && (lines[0] != "" ==> !IsSpace(lines[0][|lines[0]| - 1]) && lines[0][|lines[0]| - 1] != q)
          && (forall l | l in lines[1..] :: q !in l))
  }

  /** Reading the continuation lines of a printed value back. */
  lemma {:induction false} ContinueRoundTrip(q: char, physical: seq<string>, i: nat, tail: seq<string>)
    requires tail != [] && i <= |physical| && physical[i..] == Closing(q, tail)
    ensures Continue(q, physical, i) == Tail(NlJoin(tail), |physical|, true) <==> forall l | l in tail :: q !in l
    decreases |tail|
  {
    ClosingLength(q, tail);
    assert physical[i] == Closing(q, tail)[0];
    if |tail| == 1 {
      LastLine(q, physical[i], tail[0]);
      assert NlJoin(tail) == "\n" + tail[0] by { assert NlJoin(tail[1..]) == ""; }
      assert forall l | l in tail :: l == tail[0];
    } else {
      assert physical[i + 1..] == Closing(q, tail[1..]);
      ContinueRoundTrip(q, physical, i + 1, tail[1..]);
      assert forall l | l in tail :: l == tail[0] || l in tail[1..];
      if q !in tail[0] {
        PrefixCancel("\n" + tail[0], Continue(q, physical, i + 1).text, NlJoin(tail[1..]));
      }
    }
  }

  lemma LastLine(q: char, physical: string, line: string)
    requires physical == line + [q]
    ensures q in physical
    ensures "\n" + physical[..Index(physical, q)] == "\n" + line <==> q !in line
  {
    assert physical[|line|] == q;
    var at := Index(physical, q);
    if q !in line { assert forall j | 0 <= j < |line| :: physical[j] == line[j]; }
    if q in line {
      var j :| 0 <= j < |line| && line[j] == q;
      assert physical[j] == q;
      assert |physical[..at]| < |line|;
    }
  }

  lemma {:induction false} ClosingLength(q: char, tail: seq<string>)
    requires tail != []
    ensures |Closing(q, tail)| == |tail|
  {
    if |tail| > 1 { ClosingLength(q, tail[1..]); }
  }

  lemma PrefixCancel(p: string, a: string, b: string)
    ensures p + a == p + b <==> a == b
  {
    if p + a == p + b {
      assert (p + a)[|p|..] == a && (p + b)[|p|..] == b;
    }
  }

  // ----- the first physical line

  lemma {:induction false} RStripIsPrefix(s: string)
    ensures RStrip(s) <= s
    ensures RStrip(s) != "" ==> !IsSpace(RStrip(s)[|RStrip(s)| - 1])
    ensures forall j | |RStrip(s)| <= j < |s| :: IsSpace(s[j])
    decreases |s|
  {
    if s != "" && IsSpace(s[|s| - 1]) { RStripIsPrefix(s[..|s| - 1]); }
  }

  lemma SplitsAtEquals(key: string, raw: string)
    requires '=' !in key
    ensures var line := key + "=" + raw;
            '=' in line && Index(line, '=') == |key| && line[..|key|] == key && line[|key| + 1..] == raw
  {
    var line := key + "=" + raw;
    assert line[|key|] == '=';
    assert forall j | 0 <= j < |key| :: line[j] == key[j];
  }

  lemma NoPrefix(word: string, key: string, raw: string)
    requires '=' !in word && !(word <= key)
    ensures !(word <= key + "=" + raw)
  {
    var line := key + "=" + raw;
    if |word| <= |key| {
      assert line[..|word|] == key[..|word|];
    } else {
      assert line[|key|] == '=' && word[|key|] in word;
    }
  }

  /** The first line splits at the key's `=` into the key and the opened value. */
  lemma FirstLine(q: char, key: string, body: string)
    requires IsQuote(q)
    requires PrintableKey(key)
    requires body == "" || !IsSpace(body[|body| - 1])
    ensures var line := First(q, key, body);
            && Strip(line) == line && line != "" && line[0] != '#' && DropExport(line) == line
            && '=' in line && KeyPart(line) == key && ValuePart(line) == [q] + body
  {
    var raw := [q] + body;
    var line := First(q, key, body);
    assert line == key + "=" + raw;
    assert line[0] == key[0];
    assert raw[0] == q && raw[|raw| - 1] == if body == "" then q else body[|body| - 1];
    assert line[|line| - 1] == raw[|raw| - 1];
    StripTrimmed(line);
    StripTrimmed(raw);
    StripTrimmed(key);
    SplitsAtEquals(key, raw);
    NoPrefix("export ", key, raw);
  }

  /** Stripping the first line keeps the opening quote and drops white space from the end of the value. */
  lemma FirstLineStripped(q: char, key: string, body: string) returns (kept: string)
    requires IsQuote(q)
    requires PrintableKey(key)
    ensures kept <= body && (kept == "" || !IsSpace(kept[|kept| - 1]))
    ensures Strip(First(q, key, body)) == First(q, key, kept)
    ensures body != "" && IsSpace(body[|body| - 1]) ==> kept != body
  {
    var line := First(q, key, body);
    assert line[0] == key[0];
    var n := |key| + 2;
    assert line[n - 1] == q;
    RStripIsPrefix(line);
    var m := |RStrip(line)|;
    assert m >= n;
    kept := body[..m - n];
    assert RStrip(line) == line[..m] == First(q, key, kept);
    if kept != "" { assert kept[|kept| - 1] == line[m - 1]; }
  }

  lemma PhysicalLines(q: char, key: string, lines: seq<string>)
    requires |lines| > 1
    ensures Print(q, key, lines) == [First(q, key, lines[0])] + Closing(q, lines[1..]) && |Print(q, key, lines)| == |lines|
  {
    var front := [First(q, key, lines[0])] + lines[1..];
    assert front[1..] == lines[1..];
    ClosingLength(q, lines[1..]);
  }

  /** What the parser makes of a printed entry with several lines: the first line has lost the white space at
      its end. */
  lemma PrintedEntry(q: char, key: string, lines: seq<string>) returns (kept: string)
    requires IsQuote(q)
    requires PrintableKey(key) && |lines| > 1
    ensures kept <= lines[0] && (kept == "" || !IsSpace(kept[|kept| - 1]))
    ensures lines[0] != "" && IsSpace(lines[0][|lines[0]| - 1]) ==> kept != lines[0]
    ensures lines[0] == "" || !IsSpace(lines[0][|lines[0]| - 1]) ==> kept == lines[0]
    ensures |Print(q, key, lines)| == |lines|
    ensures EntryAt(Print(q, key, lines), 0) == Assigned(key, [q] + kept, Print(q, key, lines), 1)
  {
    PhysicalLines(q, key, lines);
    kept := FirstLineStripped(q, key, lines[0]);
    FirstLine(q, key, kept);
    if lines[0] == "" || !IsSpace(lines[0][|lines[0]| - 1]) {
      FirstLine(q, key, lines[0]);
      SameFirst(q, key, kept, lines[0]);
    }
  }

  lemma SameFirst(q: char, key: string, a: string, b: string)
    requires First(q, key, a) == First(q, key, b)
    ensures a == b
  {
    assert First(q, key, a)[|key| + 2..] == a && First(q, key, b)[|key| + 2..] == b;
  }

  /** A printed entry of one line. */
  lemma PrintedSingle(q: char, key: string, line: string)
    requires IsQuote(q)
    requires PrintableKey(key)
    ensures EntryAt(Print(q, key, [line]), 0) == Step(key, line, 1, false) && |Print(q, key, [line])| == 1
  {
    SinglePhysicalLine(q, key, line);
    FirstLine(q, key, line + [q]);
    SingleQuotedValue(q, key, line, Print(q, key, [line]));
  }

  lemma SinglePhysicalLine(q: char, key: string, line: string)
    ensures Print(q, key, [line]) == [First(q, key, line + [q])]
  {
    assert [First(q, key, line)] + [line][1..] == [First(q, key, line)];
    assert First(q, key, line) + [q] == First(q, key, line + [q]);
  }

  lemma SingleQuotedValue(q: char, key: string, line: string, lines: seq<string>)
    requires IsQuote(q)
    requires |lines| == 1
    ensures Assigned(key, [q] + (line + [q]), lines, 1) == Step(key, line, 1, false)
  {
    var value := [q] + (line + [q]);
    assert value[0] == q && value[|value| - 1] == q && value[1..|value| - 1] == line;
  }

  // ----- the round trip of one entry

  /** A first line that ends in white space loses it, so the value cannot come back. */
  lemma ShortenedIsDifferent(lines: seq<string>, kept: string, gained: string)
    requires |lines| > 1 && kept <= lines[0] && kept != lines[0] && '\n' !in lines[0]
    requires gained == "" || gained[0] == '\n'
    ensures kept + gained != Value(lines)
  {
    assert Value(lines)[|kept|] == lines[0][|kept|];
    assert |Value(lines)| > |kept|;
    if gained != "" { assert (kept + gained)[|kept|] == '\n'; }
  }

  lemma ContinueStart(quote: char, lines: seq<string>, i: nat)
    requires i <= |lines|
    ensures Continue(quote, lines, i).text == "" || Continue(quote, lines, i).text[0] == '\n'
  {
  }

  lemma MultiLineRoundTrip(q: char, key: string, lines: seq<string>)
    requires IsQuote(q)
    requires PrintableKey(key) && |lines| > 1 && NoNewlines(lines)
    ensures EntryAt(Print(q, key, lines), 0) == Step(key, Value(lines), |lines|, false) <==> PrintableValue(q, lines)
  {
    var kept := PrintedEntry(q, key, lines);
    var physical := Print(q, key, lines);
    PhysicalLines(q, key, lines);
    var value := [q] + kept;
    assert value[0] == q && value[1..] == kept;
    assert kept != "" ==> value[|value| - 1] == kept[|kept| - 1];
    assert lines[0] in lines;
    if kept != "" && kept[|kept| - 1] == q {
      assert IsClosedQuote(value);
      assert Assigned(key, value, physical, 1).next == 1;
    } else {
      assert OpensQuote(value);
      var t := Continue(q, physical, 1);
      assert physical[1..] == Closing(q, lines[1..]);
      ContinueRoundTrip(q, physical, 1, lines[1..]);
      if kept == lines[0] {
        PrefixCancel(kept, t.text, NlJoin(lines[1..]));
      } else {
        ContinueStart(q, physical, 1);
        ShortenedIsDifferent(lines, kept, t.text);
      }
    }
  }

  /** Parsing a printed entry gives back the key and the value, using exactly its lines, if and only if the
      value is printable. */
  lemma EntryRoundTrip(q: char, key: string, lines: seq<string>)
    requires q == '\'' || q == '"'
    requires PrintableKey(key) && lines != [] && NoNewlines(lines)
    ensures EntryAt(Print(q, key, lines), 0) == Step(key, Value(lines), |lines|, false) <==> PrintableValue(q, lines)
    ensures |Print(q, key, lines)| == |lines|
  {
    if |lines| == 1 {
      PrintedSingle(q, key, lines[0]);
      assert lines == [lines[0]];
      assert Value(lines) == lines[0];
    } else {
      MultiLineRoundTrip(q, key, lines);
      PhysicalLines(q, key, lines);
    }
  }

  // ----- the round trip of a whole file

  datatype Entry = Entry(quote: char, key: string, lines: seq<string>)

  predicate PrintableEntry(e: Entry) {
    && (e.quote == '\'' || e.quote == '"')
    && PrintableKey(e.key) && PrintableValue(e.quote, e.lines) && NoBreaks(e.lines)
  }

  function PrintAll(entries: seq<Entry>): seq<string>
    requires forall e | e in entries :: PrintableEntry(e)
  {
    if entries == [] then []
    else
      assert PrintableEntry(entries[0]);
      Print(entries[0].quote, entries[0].key, entries[0].lines) + PrintAll(entries[1..])
  }

  /** The map a list of entries denotes: later entries win. */
  function Denotes(entries: seq<Entry>): map<string, string>
    requires forall e | e in entries :: PrintableEntry(e)
  {
    if entries == [] then map[]
    else
      assert PrintableEntry(entries[0]);
      map[entries[0].key := Value(entries[0].lines)] + Denotes(entries[1..])
  }

  lemma {:induction false} ParsePrintAll(entries: seq<Entry>)
    requires forall e | e in entries :: PrintableEntry(e)
    ensures Parse(PrintAll(entries)) == Denotes(entries)
    decreases |entries|
  {
    if entries != [] {
      var e := entries[0];
      assert PrintableEntry(e);
      var lines := Print(e.quote, e.key, e.lines);
      EntryRoundTripIn(e);
      ParseWhole(lines, EntryAt(lines, 0));
      ParseConcat(lines, PrintAll(entries[1..]));
      ParsePrintAll(entries[1..]);
    }
  }

  lemma ParseWhole(lines: seq<string>, s: Step)
    requires lines != [] && EntryAt(lines, 0) == s && s.next == |lines| && !s.open
    ensures Parse(lines) == One(Pair(s.key, s.value))
    ensures !LeavesQuoteOpen(lines)
  {
    var steps := Entries(lines);
    assert steps[0] == s && Pairs(steps, |steps|) == [] && !EndsOpen(steps, |steps|);
    assert Pairs(steps, 0) == [Pair(s.key, s.value)] + [] == [Pair(s.key, s.value)];
    MeaningOfOne(Pair(s.key, s.value));
  }

  lemma MeaningOfOne(p: Pair)
    ensures Meaning([p]) == One(p)
  {
    assert [p][1..] == [];
  }

  lemma EntryRoundTripIn(e: Entry)
    requires PrintableEntry(e)
    ensures EntryAt(Print(e.quote, e.key, e.lines), 0) == Step(e.key, Value(e.lines), |e.lines|, false)
    ensures |Print(e.quote, e.key, e.lines)| == |e.lines|
  {
    assert NoNewlines(e.lines) by {
      forall l | l in e.lines ensures '\n' !in l {
        assert NoBreak(l);
      }
    }
    EntryRoundTrip(e.quote, e.key, e.lines);
  }

  // ----- down to the text of the file

  function FileText(lines: seq<string>): string {
    if lines == [] then "" else lines[0] + "\n" + FileText(lines[1..])
  }

  lemma {:induction false} LineEndAt(s: string, n: nat)
    requires n < |s| && s[n] == '\n' && forall i | 0 <= i < n :: !IsBreak(s[i])
    ensures LineEnd(s) == n
  {
  }

  /** One line and its newline split off. */
  lemma SplitFirst(l: string, rest: string)
    requires NoBreak(l)
    ensures SplitLines(l + "\n" + rest) == [l] + SplitLines(rest)
  {
    var s := l + "\n" + rest;
    assert s[|l|] == '\n';
    assert forall i | 0 <= i < |l| :: s[i] == l[i] && l[i] in l;
    LineEndAt(s, |l|);
    assert s[..|l|] == l;
    assert s[|l| + 1..] == rest;
    assert BreakWidth(s, |l|) == 1;
  }

  lemma {:induction false} SplitFileText(lines: seq<string>)
    requires NoBreaks(lines)
    ensures SplitLines(FileText(lines)) == lines
    decreases |lines|
  {
    if lines != [] {
      assert lines[0] in lines;
      SplitFirst(lines[0], FileText(lines[1..]));
      SplitFileText(lines[1..]);
      assert lines == [lines[0]] + lines[1..];
    }
  }

  lemma {:induction false} ClosingNoBreaks(q: char, tail: seq<string>)
    requires IsQuote(q)
    requires tail != [] && NoBreaks(tail)
    ensures NoBreaks(Closing(q, tail))
  {
    assert tail[0] in tail;
    if |tail| > 1 {
      assert NoBreaks(tail[1..]);
      ClosingNoBreaks(q, tail[1..]);
    }
  }

  lemma {:induction false} PrintAllNoBreaks(entries: seq<Entry>)
    requires forall e | e in entries :: PrintableEntry(e)
    ensures NoBreaks(PrintAll(entries))
    decreases |entries|
  {
    if entries != [] {
      var e := entries[0];
      assert PrintableEntry(e);
      assert e.lines[0] in e.lines;
      ClosingNoBreaks(e.quote, [First(e.quote, e.key, e.lines[0])] + e.lines[1..]);
      PrintAllNoBreaks(entries[1..]);
    }
  }

  /** Printing entries as text, splitting the text into lines and parsing it gives the map back. */
  lemma EnvFileRoundTrip(entries: seq<Entry>)
    requires forall e | e in entries :: PrintableEntry(e)
    ensures Parse(SplitLines(FileText(PrintAll(entries)))) == Denotes(entries)
  {
    PrintAllNoBreaks(entries);
    SplitFileText(PrintAll(entries));
    ParsePrintAll(entries);
  }
}
