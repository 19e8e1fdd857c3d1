/** The values that env-file lines give, written out: unquoted, quoted on one line, and quoted over several lines. */
module EnvValues {
  import opened Text
  import opened EnvFile

  /** A key that is not mistaken for `export`. */
  predicate PlainKey(key: string) {
    ReadableKey(key) && !("export " <= key)
  }

  // ----- one line

  lemma FlatEquation(lead: string, key: string, before: string, after: string, raw: string, trail: string)
    ensures lead + key + before + "=" + after + raw + trail == lead + (Equation(key, before, after, raw) + trail)
  {
    var e := Equation(key, before, after, raw);
    assert e == key + before + "=" + after + raw;
    assert lead + (e + trail) == lead + e + trail;
    assert lead + e == lead + key + before + "=" + after + raw;
  }

  /** `KEY=value` gives the value; so do single and double quotes around it, and white space anywhere around key and
      value. */
  lemma LineGivesValue(lines: seq<string>, lead: string, key: string, before: string, after: string, raw: string,
                       trail: string, v: string)
    requires |lines| == 1 && lines[0] == lead + key + before + "=" + after + raw + trail
    requires PlainKey(key) && !("export " <= key + before) && Trimmed(raw) && (raw == "" ==> after == "")
    requires Blank(lead) && Blank(before) && Blank(after) && Blank(trail) && StandsFor(raw, v)
    ensures Parse(lines) == map[key := v]
  {
    FlatEquation(lead, key, before, after, raw, trail);
    PaddedEntry(lines, 0, lead, key, before, after, raw, trail);
    ParseWhole(lines, EntryAt(lines, 0));
  }

  lemma Unpadded(key: string, raw: string)
    ensures "" + key + "" + "=" + "" + raw + "" == key + "=" + raw && key + "" == key
  {
  }

  lemma PlainLine(lines: seq<string>, key: string, raw: string, v: string)
    requires |lines| == 1 && lines[0] == key + "=" + raw
    requires PlainKey(key) && Trimmed(raw) && StandsFor(raw, v)
    ensures Parse(lines) == map[key := v]
  {
    Unpadded(key, raw);
    LineGivesValue(lines, "", key, "", "", raw, "", v);
  }

  /** In particular without any white space: a value that does not start with a quote ... */
  lemma UnquotedLine(key: string, value: string)
    requires PlainKey(key) && Trimmed(value) && (value == "" || (value[0] != '\'' && value[0] != '"'))
    ensures Parse([key + "=" + value]) == map[key := value]
  {
    PlainLine([key + "=" + value], key, value, value);
  }

  /** ... and any value at all between two single or two double quotes. */
  lemma QuotedLine(key: string, q: char, value: string)
    requires PlainKey(key) && (q == '\'' || q == '"')
    ensures Parse([key + "=" + [q] + value + [q]]) == map[key := value]
  {
    var raw := [q] + value + [q];
    QuotesStandFor(q, value, raw);
    QuotedFlat(key, q, value);
    PlainLine([key + "=" + [q] + value + [q]], key, raw, value);
  }

  lemma QuotesStandFor(q: char, value: string, raw: string)
    requires (q == '\'' || q == '"') && raw == [q] + value + [q]
    ensures StandsFor(raw, value) && Trimmed(raw)
  {
    assert raw[0] == q && raw[|raw| - 1] == q;
  }

  lemma QuotedFlat(key: string, q: char, value: string)
    ensures key + "=" + [q] + value + [q] == key + "=" + ([q] + value + [q])
  {
  }

  /** A leading `export` changes nothing. */
  lemma ExportGivesValue(lead: string, pad: string, key: string, before: string, after: string, raw: string, trail: string,
                         v: string)
    requires ReadableKey(key) && Trimmed(raw) && (raw == "" ==> after == "")
    requires Blank(lead) && Blank(pad) && Blank(before) && Blank(after) && Blank(trail) && StandsFor(raw, v)
    ensures Parse([lead + ("export " + pad + Equation(key, before, after, raw) + trail)]) == map[key := v]
  {
    var lines := [lead + ("export " + pad + Equation(key, before, after, raw) + trail)];
    ExportedEntry(lines, 0, lead, pad, key, before, after, raw, trail);
    ParseWhole(lines, EntryAt(lines, 0));
  }

  /** A value without a key is dropped. */
  lemma KeylessLine(lines: seq<string>, lead: string, raw: string)
    requires |lines| == 1 && lines[0] == lead + "=" + raw && Blank(lead)
    ensures Parse(lines) == map[]
  {
    var e := EntryAt(lines, 0);
    KeylessEntry(lines, lead, raw);
    PairsStep(Entries(lines), 0, Pair(e.key, e.value), []);
    MeaningOfOne(Pair(e.key, e.value));
  }

  lemma KeylessEntry(lines: seq<string>, lead: string, raw: string)
    requires |lines| == 1 && lines[0] == lead + "=" + raw && Blank(lead)
    ensures EntryAt(lines, 0).key == ""
  {
    var line := "=" + raw;
    RStripIsPrefix(line);
    RStripKeepsInk(line);
    LStripPad(lead, line);
    assert lines[0] == lead + line;
    var core := RStrip(line);
    assert core[0] == '=';
    assert Index(core, '=') == 0 && core[..0] == "";
    assert Strip("") == "";
  }

  // ----- several lines

  lemma {:induction false} ContinueCloses(q: char, lines: seq<string>, i: nat, j: nat, body: string, rest: string)
    requires i <= j < |lines| && lines[j] == body + [q] + rest && q !in body
    requires forall k | i <= k < j :: q !in lines[k]
    ensures Continue(q, lines, i) == Tail(NlJoin(lines[i..j] + [body]), j + 1, true)
    decreases j - i
  {
    if i == j {
      assert lines[j][|body|] == q;
      assert forall k | 0 <= k < |body| :: lines[j][k] == body[k];
      assert Index(lines[j], q) == |body| && lines[j][..|body|] == body;
      assert lines[i..j] + [body] == [body] && [body][1..] == [];
    } else {
      ContinueCloses(q, lines, i + 1, j, body, rest);
      var tail := lines[i + 1..j] + [body];
      assert lines[i..j] + [body] == [lines[i]] + tail;
      assert ([lines[i]] + tail)[1..] == tail;
    }
  }

  lemma {:induction false} ContinueStaysOpen(q: char, lines: seq<string>, i: nat)
    requires i <= |lines| && forall k | i <= k < |lines| :: q !in lines[k]
    ensures Continue(q, lines, i) == Tail(NlJoin(lines[i..]), |lines|, false)
    decreases |lines| - i
  {
    if i < |lines| {
      ContinueStaysOpen(q, lines, i + 1);
      assert lines[i..][1..] == lines[i + 1..];
    }
  }

  /** A line that opens a quote and does not close it. */
  predicate Opens(line: string, key: string, q: char, first: string) {
    && (q == '\'' || q == '"') && PlainKey(key) && line == key + "=" + [q] + first
    && (first != "" ==> !IsSpace(first[|first| - 1]) && first[|first| - 1] != q)
  }

  lemma OpenedEntry(lines: seq<string>, i: nat, key: string, q: char, first: string, t: Tail, v: string)
    requires i < |lines| && Opens(lines[i], key, q, first) && Continue(q, lines, i + 1) == t && v == first + t.text
    ensures EntryAt(lines, i) == Step(key, v, t.next, !t.closed)
  {
    var raw := [q] + first;
    assert raw[0] == q && raw[|raw| - 1] == if first == "" then q else first[|first| - 1];
    assert Trimmed(raw) && OpensQuote(raw) && raw[1..] == first;
    assert key + "" == key;
    FlatEquation("", key, "", "", raw, "");
    assert "" + key + "" + "=" + "" + raw + "" == key + "=" + raw == lines[i];
    PaddedEntry(lines, i, "", key, "", "", raw, "");
  }

  /** The value goes on, line by line, up to the first closing quote, and what is behind that on its line is dropped;
      when the quote is never closed it takes in all lines that are left. */
  lemma QuoteGoesOn(lines: seq<string>, i: nat, key: string, q: char, first: string, j: nat, body: string, rest: string)
    requires i < |lines| && Opens(lines[i], key, q, first)
    ensures i < j < |lines| && lines[j] == body + [q] + rest && q !in body && (forall k | i < k < j :: q !in lines[k]) ==>
              EntryAt(lines, i) == Step(key, first + NlJoin(lines[i + 1..j] + [body]), j + 1, false)
    ensures (forall k | i < k < |lines| :: q !in lines[k]) ==>
              EntryAt(lines, i) == Step(key, first + NlJoin(lines[i + 1..]), |lines|, true)
  {
    var t := Continue(q, lines, i + 1);
    OpenedEntry(lines, i, key, q, first, t, first + t.text);
    if i < j < |lines| && lines[j] == body + [q] + rest && q !in body && (forall k | i < k < j :: q !in lines[k]) {
      ContinueCloses(q, lines, i + 1, j, body, rest);
    }
    if forall k | i < k < |lines| :: q !in lines[k] { ContinueStaysOpen(q, lines, i + 1); }
  }

  lemma SecondLineCloses(lines: seq<string>, q: char, second: string, tail: string)
    requires |lines| == 2 && lines[1] == second + [q] && q !in second && tail == "\n" + second
    ensures Continue(q, lines, 1) == Tail(tail, 2, true)
  {
    var line := lines[1];
    assert line[|second|] == q;
    assert forall k | 0 <= k < |second| :: line[k] == second[k];
    assert Index(line, q) == |second| && line[..|second|] == second;
  }

  lemma TwoLineEntry(lines: seq<string>, key: string, q: char, first: string, second: string) returns (v: string)
    requires |lines| == 2 && Opens(lines[0], key, q, first) && lines[1] == second + [q] && q !in second
    ensures v == first + "\n" + second && EntryAt(lines, 0) == Step(key, v, 2, false)
  {
    var tail := "\n" + second;
    SecondLineCloses(lines, q, second, tail);
    v := first + tail;
    OpenedEntry(lines, 0, key, q, first, Tail(tail, 2, true), v);
    TailJoins(first, second, tail);
  }

  lemma TailJoins(first: string, second: string, tail: string)
    requires tail == "\n" + second
    ensures first + tail == first + "\n" + second
  {
  }

  /** Two lines are joined by one newline. */
  lemma TwoLineValue(lines: seq<string>, key: string, q: char, first: string, second: string)
    requires |lines| == 2 && Opens(lines[0], key, q, first) && lines[1] == second + [q] && q !in second
    ensures Parse(lines) == map[key := first + "\n" + second]
  {
    var v := TwoLineEntry(lines, key, q, first, second);
    ParseWhole(lines, EntryAt(lines, 0));
  }

  // ----- the text of a file

  /** The characters that break lines, and those that count as white space. */
  const BREAKS := {10, 11, 12, 13, 0x1c, 0x1d, 0x1e, 0x85, 0x2028, 0x2029}
  const SPACES := BREAKS + {9, 0x1f, 0x20, 0xa0, 0x1680, 0x202f, 0x205f, 0x3000}
                  + {0x2000, 0x2001, 0x2002, 0x2003, 0x2004, 0x2005, 0x2006, 0x2007, 0x2008, 0x2009, 0x200a}

  lemma CharsAre(c: char)
    ensures IsBreak(c) <==> c as int in BREAKS
    ensures IsSpace(c) <==> c as int in SPACES
  {
  }

  /** A text without breaks is one line, an empty one none ... */
  lemma OneLine(text: string)
    requires forall c | c in text :: c as int !in BREAKS
    ensures SplitLines(text) == if text == "" then [] else [text]
  {
    forall i | 0 <= i < |text| ensures !IsBreak(text[i]) {
      CharsAre(text[i]);
      assert text[i] in text;
    }
    assert LineEnd(text) == |text|;
    assert text[..|text|] == text && text[|text|..] == "";
  }

  /** ... and a break, where a carriage return and a line feed count as one, ends a line. */
  lemma BreakEndsLine(line: string, br: string, rest: string)
    requires forall c | c in line :: c as int !in BREAKS
    requires br == "\r\n" || (|br| == 1 && br[0] as int in BREAKS && !(br == "\r" && rest != "" && rest[0] == '\n'))
    ensures SplitLines(line + br + rest) == [line] + SplitLines(rest)
  {
    var text, n := line + br + rest, |line|;
    forall i | 0 <= i < n ensures !IsBreak(text[i]) {
      assert text[i] == line[i] && line[i] in line;
      CharsAre(text[i]);
    }
    CharsAre(br[0]);
    assert text[n] == br[0] && (|br| == 1 && rest != "" ==> text[n + 1] == rest[0]) && (|br| == 2 ==> text[n + 1] == br[1]);
    BreakAt(text, n);
    assert BreakWidth(text, n) == |br|;
    assert text[..n] == line && text[n + |br|..] == rest;
  }

  lemma {:induction false} BreakAt(text: string, n: nat)
    requires n < |text| && IsBreak(text[n]) && forall i | 0 <= i < n :: !IsBreak(text[i])
    ensures LineEnd(text) == n
  {
  }

  lemma SpacesAreBlank(pad: string)
    requires forall c | c in pad :: c as int in SPACES
    ensures Blank(pad)
  {
    forall i | 0 <= i < |pad| ensures IsSpace(pad[i]) {
      assert pad[i] in pad;
      CharsAre(pad[i]);
    }
  }

  /** White space at both ends is stripped, and nothing else. */
  lemma SpacesAreStripped(lead: string, core: string, trail: string)
    requires forall c | c in lead || c in trail :: c as int in SPACES
    requires core != "" ==> core[0] as int !in SPACES && core[|core| - 1] as int !in SPACES
    ensures Strip(lead + (core + trail)) == core
  {
    SpacesAreBlank(lead);
    SpacesAreBlank(trail);
    if core != "" {
      CharsAre(core[0]);
      CharsAre(core[|core| - 1]);
    }
    StripPads(lead, core, trail);
  }
}
