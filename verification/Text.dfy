/** The few Python `str` operations the modelled code uses. */
module Text {

  predicate OccursAt(text: string, pattern: string, i: int) {
    0 <= i <= |text| - |pattern| && text[i..i + |pattern|] == pattern
  }

  /** `pattern in text` */
  predicate Contains(text: string, pattern: string) {
    exists i | 0 <= i <= |text| :: OccursAt(text, pattern, i)
  }

  lemma OccurrenceChar(text: string, pattern: string, i: int, k: nat)
    requires OccursAt(text, pattern, i) && k < |pattern|
    ensures text[i + k] == pattern[k]
  {
    assert text[i..i + |pattern|][k] == text[i + k];
  }

  lemma AbsentChar(text: string, pattern: string, k: nat)
    requires k < |pattern| && pattern[k] !in text
    ensures !Contains(text, pattern)
  {
    forall i ensures !OccursAt(text, pattern, i) {
      if OccursAt(text, pattern, i) { OccurrenceChar(text, pattern, i, k); }
    }
  }

  lemma OccursBehind(front: string, text: string, pattern: string)
    requires Contains(text, pattern)
    ensures Contains(front + text, pattern)
  {
    var i :| 0 <= i <= |text| && OccursAt(text, pattern, i);
    assert (front + text)[|front| + i..|front| + i + |pattern|] == text[i..i + |pattern|];
    assert OccursAt(front + text, pattern, |front| + i);
  }

  lemma ContainsItself(text: string)
    ensures Contains(text, text)
  {
    assert OccursAt(text, text, 0);
  }

  /** The first index of `c`. */
  function Index(s: string, c: char): (n: nat)
    requires c in s
    ensures n < |s| && s[n] == c && forall j | 0 <= j < n :: s[j] != c
  {
    if s[0] == c then 0 else 1 + Index(s[1..], c)
  }

  function LowerChar(c: char): char {
    if 'A' <= c <= 'Z' then (c as int + 32) as char else c
  }

  /** `text.lower()`, for the ASCII letters. */
  function Lower(text: string): string {
    seq(|text|, i requires 0 <= i < |text| => LowerChar(text[i]))
  }

  lemma LowerAlphabet()
    ensures Lower("ABCDEFGHIJKLMNOPQRSTUVWXYZ") == "abcdefghijklmnopqrstuvwxyz"
  {
  }

  lemma LowerAppend(a: string, b: string)
    ensures Lower(a + b) == Lower(a) + Lower(b)
  {
  }

  /** The characters `splitlines` breaks at. */
  predicate IsBreak(c: char) {
    var n := c as int;
    0x0a <= n <= 0x0d || 0x1c <= n <= 0x1e || n == 0x85 || n == 0x2028 || n == 0x2029
  }

  /** `str.isspace` */
  predicate IsSpace(c: char) {
    var n := c as int;
    0x09 <= n <= 0x0d || 0x1c <= n <= 0x20 || n == 0x85 || n == 0xa0 || n == 0x1680
    || 0x2000 <= n <= 0x200a || n == 0x2028 || n == 0x2029 || n == 0x202f || n == 0x205f || n == 0x3000
  }

  function LStrip(s: string): string {
    if s != "" && IsSpace(s[0]) then LStrip(s[1..]) else s
  }

  function RStrip(s: string): string {
    if s != "" && IsSpace(s[|s| - 1]) then RStrip(s[..|s| - 1]) else s
  }

  function Strip(s: string): string {
    RStrip(LStrip(s))
  }

  /** Nothing to strip: empty, or no white space at either end. */
  predicate Trimmed(s: string) {
    s != "" ==> !IsSpace(s[0]) && !IsSpace(s[|s| - 1])
  }

  lemma StripTrimmed(s: string)
    requires Trimmed(s)
    ensures Strip(s) == s
  {
  }

  /** Index of the first line break, or the length. */
  function LineEnd(s: string): (n: nat)
    ensures n <= |s|
    ensures forall i | 0 <= i < n :: !IsBreak(s[i])
    ensures n < |s| ==> IsBreak(s[n])
  {
    if s == "" || IsBreak(s[0]) then 0 else 1 + LineEnd(s[1..])
  }

  /** A carriage return and a line feed count as one break. */
  function BreakWidth(s: string, n: nat): (w: nat)
    requires n <= |s|
    ensures n + w <= |s| && (n < |s| ==> w >= 1)
  {
    if n == |s| then 0
    else if s[n] == '\r' && n + 1 < |s| && s[n + 1] == '\n' then 2
    else 1
  }

  /** `text.splitlines()` */
  function SplitLines(s: string): seq<string> {
    if s == "" then []
    else
      var n := LineEnd(s);
      [s[..n]] + SplitLines(s[n + BreakWidth(s, n)..])
  }

  predicate Blank(s: string) {
    forall i | 0 <= i < |s| :: IsSpace(s[i])
  }

  lemma {:induction false} LStripKeepsInk(s: string)
    ensures LStrip(s) == "" <==> Blank(s)
    ensures Blank(LStrip(s)) <==> Blank(s)
  {
    if s != "" && IsSpace(s[0]) {
      LStripKeepsInk(s[1..]);
      assert forall i | 1 <= i < |s| :: s[1..][i - 1] == s[i];
      assert Blank(s[1..]) <==> Blank(s);
    }
  }

  lemma {:induction false} RStripKeepsInk(s: string)
    ensures RStrip(s) == "" <==> Blank(s)
    decreases |s|
  {
    if s != "" && IsSpace(s[|s| - 1]) {
      RStripKeepsInk(s[..|s| - 1]);
      assert Blank(s[..|s| - 1]) <==> Blank(s);
    }
  }

  lemma StripEmptyIffBlank(s: string)
    ensures Strip(s) == "" <==> Blank(s)
  {
    LStripKeepsInk(s);
    RStripKeepsInk(LStrip(s));
  }

  lemma {:induction false} LStripCuts(s: string) returns (k: nat)
    ensures k <= |s| && Blank(s[..k]) && LStrip(s) == s[k..]
    ensures k < |s| ==> !IsSpace(s[k])
  {
    if s != "" && IsSpace(s[0]) {
      k := LStripCuts(s[1..]);
      forall i | 0 <= i < k + 1 ensures IsSpace(s[i]) {
        if i > 0 { assert s[i] == s[1..][..k][i - 1]; }
      }
      k := k + 1;
    } else {
      k := 0;
    }
  }

  lemma {:induction false} RStripCuts(s: string) returns (k: nat)
    ensures k <= |s| && Blank(s[k..]) && RStrip(s) == s[..k]
    ensures k > 0 ==> !IsSpace(s[k - 1])
    decreases |s|
  {
    if s != "" && IsSpace(s[|s| - 1]) {
      var front := s[..|s| - 1];
      k := RStripCuts(front);
      forall i | k <= i < |s| ensures IsSpace(s[i]) {
        if i < |front| { assert s[i] == front[k..][i - k]; }
      }
    } else {
      k := |s|;
    }
  }

  /** The text without the white space at its ends: what is cut off is blank, what is left is trimmed. */
  predicate StripsTo(text: string, core: string) {
    Trimmed(core) && exists k | 0 <= k <= |text| - |core| ::
      OccursAt(text, core, k) && Blank(text[..k]) && Blank(text[k + |core|..])
  }

  lemma StripIsTheCore(text: string)
    ensures StripsTo(text, Strip(text))
  {
    var core := Strip(text);
    var k := LStripCuts(text);
    var rest := text[k..];
    var n := RStripCuts(rest);
    assert core == rest[..n] == text[k..k + n];
    assert text[k + n..] == rest[n..];
    if n > 0 { assert core[0] == text[k] && core[n - 1] == rest[n - 1]; }
    assert OccursAt(text, core, k);
  }

  /** Some line has a visible character. */
  predicate SomeInk(lines: seq<string>) {
    exists j | 0 <= j < |lines| :: !Blank(lines[j])
  }

  lemma InkIsOnFirstLine(s: string, n: nat, rest: seq<string>, at: nat)
    requires at < n <= |s| && !IsSpace(s[at])
    ensures SomeInk([s[..n]] + rest)
  {
    assert s[..n][at] == s[at];
    assert !Blank(([s[..n]] + rest)[0]);
  }

  lemma InkIsFurtherDown(line: string, rest: seq<string>)
    requires SomeInk(rest)
    ensures SomeInk([line] + rest)
  {
    var j :| 0 <= j < |rest| && !Blank(rest[j]);
    assert ([line] + rest)[j + 1] == rest[j];
  }

  lemma BreaksAreSpace(c: char)
    ensures IsBreak(c) ==> IsSpace(c)
  {
  }

  lemma BreakHasNoInk(s: string, n: nat, at: nat)
    requires n <= at < |s| && IsBreak(s[n]) && !IsSpace(s[at])
    ensures n + BreakWidth(s, n) <= at
  {
    BreaksAreSpace(s[n]);
    BreaksAreSpace('\n');
  }

  /** A text with a visible character has a line with one. */
  lemma {:induction false} InkIsOnSomeLine(s: string, at: nat)
    requires at < |s| && !IsSpace(s[at])
    ensures SomeInk(SplitLines(s))
    decreases |s|
  {
    var n := LineEnd(s);
    var skip := n + BreakWidth(s, n);
    var rest := s[skip..];
    if at < n {
      InkIsOnFirstLine(s, n, SplitLines(rest), at);
    } else {
      BreakHasNoInk(s, n, at);
      assert rest[at - skip] == s[at];
      InkIsOnSomeLine(rest, at - skip);
      InkIsFurtherDown(s[..n], SplitLines(rest));
    }
  }
}
