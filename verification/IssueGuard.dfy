/** The pre-heal subset guard: does the committed jsonl hold every exported issue? */
module IssueGuard {
  import opened Basics

  /** One line of a beads jsonl file after JSON parsing; `id` is empty when the record has none. */
  datatype Line = BlankLine | Record(kind: string, id: string) | Malformed

  predicate IsIssue(l: Line) {
    l.Record? && l.kind == "issue" && l.id != ""
  }

  function IssueIds(lines: seq<Line>): set<string> {
    set l | l in lines && IsIssue(l) :: l.id
  }

  /** The ids of the records of kind "issue" that have one. */
  lemma IssueIdsAre(lines: seq<Line>, id: string)
    ensures id in IssueIds(lines) <==> id != "" && Record("issue", id) in lines
  {
    if id in IssueIds(lines) {
      var l :| l in lines && IsIssue(l) && l.id == id;
      assert l == Record("issue", id);
    }
    if id != "" && Record("issue", id) in lines { assert IsIssue(Record("issue", id)); }
  }

  predicate Parses(lines: seq<Line>) {
    Malformed !in lines
  }

  /** `ids(p)`: collect the ids line by line; `None` when a line does not parse. */
  method CollectIds(lines: seq<Line>) returns (ids: Option<set<string>>)
    ensures ids.Some? <==> Parses(lines)
    ensures ids.Some? ==> ids.value == IssueIds(lines)
  {
    var s: set<string> := {};
    for i := 0 to |lines|
      invariant Malformed !in lines[..i]
      invariant s == IssueIds(lines[..i])
    {
      assert lines[..i + 1] == lines[..i] + [lines[i]];
      assert IssueIds(lines[..i + 1]) == IssueIds(lines[..i]) + (if IsIssue(lines[i]) then {lines[i].id} else {});
      if lines[i].Malformed? {
        return None;
      }
      if lines[i].Record? && lines[i].kind == "issue" && lines[i].id != "" {
        s := s + {lines[i].id};
      }
    }
    assert lines[..|lines|] == lines;
    ids := Some(s);
  }

  /** The guard exits zero exactly when both files are readable, both parse, and no exported issue is
      missing from the committed file. */
  method SubsetGuard(exported: Option<seq<Line>>, committed: Option<seq<Line>>) returns (passes: bool)
    ensures passes <==> Lossless(exported, committed)
    // only records of kind "issue" with an id count
    ensures passes <==>
              && exported.Some? && committed.Some? && Malformed !in exported.value && Malformed !in committed.value
              && forall id: string | id != "" && Record("issue", id) in exported.value :: Record("issue", id) in committed.value
  {
    if exported.None? || committed.None? {
      return false;
    }
    SubsetOfIssues(exported.value, committed.value);
    var e := CollectIds(exported.value);
    var c := CollectIds(committed.value);
    if e.None? || c.None? {
      return false;
    }
    var dropped := e.value - c.value;
    passes := dropped == {};
    assert passes <==> e.value <= c.value by {
      if e.value <= c.value { assert dropped == {}; }
      if dropped == {} {
        forall id | id in e.value ensures id in c.value { assert id !in dropped; }
      }
    }
  }

  lemma SubsetOfIssues(exported: seq<Line>, committed: seq<Line>)
    ensures IssueIds(exported) <= IssueIds(committed)
       <==> forall id: string | id != "" && Record("issue", id) in exported :: Record("issue", id) in committed
  {
    forall id: string
      ensures id in IssueIds(exported) <==> id != "" && Record("issue", id) in exported
      ensures id in IssueIds(committed) <==> id != "" && Record("issue", id) in committed
    {
      IssueIdsAre(exported, id);
      IssueIdsAre(committed, id);
    }
  }

  predicate Lossless(exported: Option<seq<Line>>, committed: Option<seq<Line>>) {
    && exported.Some? && committed.Some?
    && Parses(exported.value) && Parses(committed.value)
    && IssueIds(exported.value) <= IssueIds(committed.value)
  }
}
