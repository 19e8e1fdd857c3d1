/** The sequential dispatcher the shell supervisor replaced: `decide`, `DispatchTracker` and the
    session-prompt handler of `dispatch_acp_agent.py`. */
module Tracker {

  type Id = string

  datatype Action = SPAWN | SKIP
  datatype Decision = Decision(workId: Id, action: Action)

  // ----- one cycle, as functions of the poll context

  function Decisions(pending: seq<Id>, known: set<Id>): seq<Decision> {
    seq(|pending|, i requires 0 <= i < |pending| =>
      Decision(pending[i], if pending[i] in known then SKIP else SPAWN))
  }

  /** The work ids of the SPAWN decisions, in order. */
  function Spawned(ds: seq<Decision>): seq<Id> {
    if ds == [] then []
    else (if ds[0].action == SPAWN then [ds[0].workId] else []) + Spawned(ds[1..])
  }

  datatype Op = Cycle(pending: seq<Id>, observed: set<Id>) | Retire(wid: Id)

  function OpDecisions(inFlight: set<Id>, op: Op): seq<Decision> {
    match op
    case Cycle(pending, observed) => Decisions(pending, inFlight + observed)
    case Retire(_) => []
  }

  function After(inFlight: set<Id>, op: Op): set<Id> {
    match op
    case Cycle(pending, observed) => inFlight + (set w | w in Spawned(OpDecisions(inFlight, op)))
    case Retire(wid) => inFlight - {wid}
  }

  // ----- the code

  method Decide(pending: seq<Id>, inFlight: set<Id>) returns (decisions: seq<Decision>)
    ensures |decisions| == |pending|
    ensures forall i | 0 <= i < |pending| :: decisions[i].workId == pending[i]
    ensures forall i | 0 <= i < |pending| :: decisions[i].action == SKIP <==> pending[i] in inFlight
    ensures decisions == Decisions(pending, inFlight)
  {
    decisions := [];
    for i := 0 to |pending|
      invariant decisions == Decisions(pending, inFlight)[..i]
    {
      var action := if pending[i] in inFlight then SKIP else SPAWN;
      decisions := decisions + [Decision(pending[i], action)];
    }
  }

  lemma {:induction false} SpawnedAppend(ds: seq<Decision>, d: Decision)
    ensures Spawned(ds + [d]) == Spawned(ds) + (if d.action == SPAWN then [d.workId] else [])
  {
    if ds == [] {
      assert ds + [d] == [d];
    } else {
      assert (ds + [d])[0] == ds[0] && (ds + [d])[1..] == ds[1..] + [d];
      SpawnedAppend(ds[1..], d);
    }
  }

  class DispatchTracker {
    var inFlight: set<Id>

    constructor ()
      ensures inFlight == {}
    {
      inFlight := {};
    }

    method Cycle(pending: seq<Id>, observed: set<Id>) returns (decisions: seq<Decision>)
      modifies this
      ensures decisions == OpDecisions(old(inFlight), Op.Cycle(pending, observed))
      ensures inFlight == After(old(inFlight), Op.Cycle(pending, observed))
      // one decision per listing, and exactly the listed ids that were unknown join the set
      ensures |decisions| == |pending| && forall i | 0 <= i < |pending| ::
                decisions[i] == Decision(pending[i], if pending[i] in old(inFlight) || pending[i] in observed then SKIP else SPAWN)
      ensures forall w :: w in inFlight <==> w in old(inFlight) || (w in pending && w !in observed)
    {
      var known := inFlight + observed;
      decisions := Decide(pending, known);
      for i := 0 to |decisions|
        invariant inFlight == old(inFlight) + (set w | w in Spawned(decisions[..i]))
      {
        assert decisions[..i + 1] == decisions[..i] + [decisions[i]];
        SpawnedAppend(decisions[..i], decisions[i]);
        if decisions[i].action == SPAWN {
          inFlight := inFlight + {decisions[i].workId};
        }
      }
      assert decisions[..|decisions|] == decisions;
      forall w ensures w in Spawned(decisions) <==> w in pending && w !in known {
        SpawnedIffUnknown(pending, known, w);
      }
    }

    /** Retiring an id that is not in flight changes nothing. */
    method Retire(wid: Id)
      modifies this
      ensures inFlight == After(old(inFlight), Op.Retire(wid))
      ensures forall w :: w in inFlight <==> w in old(inFlight) && w != wid
    {
      inFlight := inFlight - {wid};
    }
  }

  /** `handle_session_prompt` on a parsed poll context; without a tracker only the observed
      in-flight state counts. */
  method HandleSessionPrompt(tracker: DispatchTracker?, pending: seq<Id>, observed: set<Id>)
    returns (decisions: seq<Decision>, spawned: seq<Id>)
    modifies tracker
    ensures decisions == Decisions(pending, observed + (if tracker == null then {} else old(tracker.inFlight)))
    ensures spawned == Spawned(decisions)
    ensures tracker != null ==> tracker.inFlight == old(tracker.inFlight) + (set w | w in spawned)
  {
    if tracker == null {
      decisions := Decide(pending, observed);
      assert observed + {} == observed;
    } else {
      decisions := tracker.Cycle(pending, observed);
      assert observed + old(tracker.inFlight) == old(tracker.inFlight) + observed;
      assert decisions == OpDecisions(old(tracker.inFlight), Op.Cycle(pending, observed));
      assert tracker.inFlight == old(tracker.inFlight) + (set w | w in Spawned(decisions));
    }
    spawned := [];
    for i := 0 to |decisions|
      invariant spawned == Spawned(decisions[..i])
      invariant tracker != null ==> tracker.inFlight == old(tracker.inFlight) + (set w | w in Spawned(decisions))
    {
      assert decisions[..i + 1] == decisions[..i] + [decisions[i]];
      SpawnedAppend(decisions[..i], decisions[i]);
      if decisions[i].action == SPAWN {
        spawned := spawned + [decisions[i].workId];
      }
    }
    assert decisions[..|decisions|] == decisions;
  }

  // ----- what the cycles guarantee

  /** A known id is not spawned at all; every other id is spawned once per listing. */
  lemma {:induction false} SpawnMultiplicity(pending: seq<Id>, known: set<Id>, w: Id)
    ensures multiset(Spawned(Decisions(pending, known)))[w] == if w in known then 0 else multiset(pending)[w]
  {
    var ds := Decisions(pending, known);
    if pending != [] {
      assert ds[1..] == Decisions(pending[1..], known);
      SpawnMultiplicity(pending[1..], known, w);
      assert pending == [pending[0]] + pending[1..];
      assert Spawned(ds) == (if ds[0].action == SPAWN then [ds[0].workId] else []) + Spawned(ds[1..]);
    }
  }

  lemma SpawnedIffUnknown(pending: seq<Id>, known: set<Id>, w: Id)
    ensures w in Spawned(Decisions(pending, known)) <==> w in pending && w !in known
  {
    SpawnMultiplicity(pending, known, w);
    assert w in Spawned(Decisions(pending, known)) <==> w in multiset(Spawned(Decisions(pending, known)));
    assert w in pending <==> w in multiset(pending);
  }

  /** One cycle spawns an id twice exactly when the id is unknown and listed twice. */
  lemma DoubleSpawnIffListedTwice(pending: seq<Id>, known: set<Id>, w: Id)
    ensures multiset(Spawned(Decisions(pending, known)))[w] >= 2 <==> w !in known && multiset(pending)[w] >= 2
  {
    SpawnMultiplicity(pending, known, w);
  }

  /** An id that was only observed in flight is not remembered: the next cycle may spawn it. */
  lemma ObservedIsNotRemembered(inFlight: set<Id>, pending: seq<Id>, observed: set<Id>, w: Id)
    requires w in observed && w !in inFlight
    ensures w !in After(inFlight, Op.Cycle(pending, observed))
    ensures w in Spawned(OpDecisions(After(inFlight, Op.Cycle(pending, observed)), Op.Cycle([w], {})))
  {
    SpawnMultiplicity(pending, inFlight + observed, w);
    assert w !in multiset(Spawned(Decisions(pending, inFlight + observed)));
    SpawnMultiplicity([w], After(inFlight, Op.Cycle(pending, observed)) + {}, w);
    assert w in multiset(Spawned(Decisions([w], After(inFlight, Op.Cycle(pending, observed)) + {})));
  }

  // ----- whole histories

  /** The tracker's in-flight set before operation `i` of a history. */
  function Before(ops: seq<Op>, i: nat): set<Id>
    requires i <= |ops|
  {
    if i == 0 then {} else After(Before(ops, i - 1), ops[i - 1])
  }

  function SpawnsAt(ops: seq<Op>, i: nat, w: Id): nat
    requires i < |ops|
  {
    multiset(Spawned(OpDecisions(Before(ops, i), ops[i])))[w]
  }

  function SpawnsBetween(ops: seq<Op>, lo: nat, hi: nat, w: Id): nat
    requires lo <= hi <= |ops|
    decreases hi - lo
  {
    if lo == hi then 0 else SpawnsAt(ops, hi - 1, w) + SpawnsBetween(ops, lo, hi - 1, w)
  }

  /** Operation `i` is a cycle that lists `w` while it is neither in flight nor observed. */
  predicate PicksUp(ops: seq<Op>, i: nat, w: Id)
    requires i < |ops|
  {
    ops[i].Cycle? && w in ops[i].pending && w !in ops[i].observed
  }

  /** Over any history: an id is in flight if and only if some cycle that did not observe it listed it, and it was
      not retired after that. */
  lemma {:induction false} InFlightIffListed(ops: seq<Op>, n: nat, w: Id)
    requires n <= |ops|
    ensures w in Before(ops, n)
       <==> exists i | 0 <= i < n :: PicksUp(ops, i, w) && forall r | i < r < n :: ops[r] != Op.Retire(w)
  {
    if n > 0 {
      InFlightIffListed(ops, n - 1, w);
      var op := ops[n - 1];
      if op.Cycle? { SpawnedIffUnknown(op.pending, Before(ops, n - 1) + op.observed, w); }
      if op.Cycle? && PicksUp(ops, n - 1, w) {
        assert w in Before(ops, n);
      } else if w in Before(ops, n) {
        var i :| 0 <= i < n - 1 && PicksUp(ops, i, w) && forall r | i < r < n - 1 :: ops[r] != Op.Retire(w);
        assert forall r | i < r < n :: ops[r] != Op.Retire(w);
      }
    }
  }

  predicate Distinct(pending: seq<Id>) {
    forall i, j | 0 <= i < j < |pending| :: pending[i] != pending[j]
  }

  lemma {:induction false} StaysInFlight(ops: seq<Op>, i: nat, j: nat, w: Id)
    requires i <= j <= |ops| && w in Before(ops, i)
    requires forall r | i <= r < j :: ops[r] != Op.Retire(w)
    ensures w in Before(ops, j)
    decreases j - i
  {
    if i < j { StaysInFlight(ops, i, j - 1, w); }
  }

  lemma SpawnPutsInFlight(ops: seq<Op>, i: nat, w: Id)
    requires i < |ops| && SpawnsAt(ops, i, w) > 0
    ensures w !in Before(ops, i) && w in Before(ops, i + 1)
    ensures ops[i].Cycle? && w in ops[i].pending && w !in ops[i].observed
  {
    var known := Before(ops, i) + (if ops[i].Cycle? then ops[i].observed else {});
    assert ops[i].Cycle?;
    SpawnMultiplicity(ops[i].pending, known, w);
    assert w in multiset(Spawned(OpDecisions(Before(ops, i), ops[i])));
    assert w in multiset(ops[i].pending);
  }

  /** Two cycles that both spawn an id have a retirement of that id between them. */
  lemma RespawnNeedsRetire(ops: seq<Op>, i: nat, j: nat, w: Id)
    requires i < j < |ops| && SpawnsAt(ops, i, w) > 0 && SpawnsAt(ops, j, w) > 0
    ensures exists r :: i < r < j && ops[r] == Op.Retire(w)
  {
    SpawnPutsInFlight(ops, i, w);
    SpawnPutsInFlight(ops, j, w);
    if forall r | i < r < j :: ops[r] != Op.Retire(w) {
      StaysInFlight(ops, i + 1, j, w);
    }
  }

  /** A list is distinct if and only if it lists nothing twice. */
  lemma DistinctIffListedOnce(pending: seq<Id>)
    ensures Distinct(pending) <==> forall w :: multiset(pending)[w] <= 1
  {
    if Distinct(pending) {
      forall w ensures multiset(pending)[w] <= 1 { DistinctMultiplicity(pending, w); }
    } else {
      var i, j :| 0 <= i < j < |pending| && pending[i] == pending[j];
      ListedTwice(pending, i, j);
    }
  }

  lemma ListedTwice(pending: seq<Id>, i: nat, j: nat)
    requires i < j < |pending| && pending[i] == pending[j]
    ensures multiset(pending)[pending[i]] >= 2
  {
    var front, back := pending[..j], pending[j..];
    assert pending == front + back;
    assert front[i] in multiset(front) && back[0] in multiset(back);
  }

  lemma {:induction false} DistinctMultiplicity(pending: seq<Id>, w: Id)
    requires Distinct(pending)
    ensures multiset(pending)[w] <= 1
  {
    if pending != [] {
      assert pending == [pending[0]] + pending[1..];
      DistinctMultiplicity(pending[1..], w);
      if pending[0] == w {
        assert forall j | 1 <= j < |pending| :: pending[j] != w;
        assert w !in pending[1..];
      }
    }
  }

  /** 1 when `w` enters flight between two points of a history. */
  function Entry(ops: seq<Op>, lo: nat, hi: nat, w: Id): nat
    requires lo <= |ops| && hi <= |ops|
  {
    if w !in Before(ops, lo) && w in Before(ops, hi) then 1 else 0
  }

  /** An operation that does not retire `w` keeps it in flight; it spawns `w` at most once, and exactly when
      it puts `w` in flight. */
  lemma SpawnIsEntry(ops: seq<Op>, i: nat, w: Id)
    requires i < |ops| && ops[i] != Op.Retire(w) && (ops[i].Cycle? ==> Distinct(ops[i].pending))
    ensures w in Before(ops, i) ==> w in Before(ops, i + 1)
    ensures SpawnsAt(ops, i, w) == Entry(ops, i, i + 1, w)
  {
    var ids := Spawned(OpDecisions(Before(ops, i), ops[i]));
    assert w in ids <==> w in multiset(ids);
    if SpawnsAt(ops, i, w) > 0 {
      SpawnPutsInFlight(ops, i, w);
      SpawnMultiplicity(ops[i].pending, Before(ops, i) + ops[i].observed, w);
      DistinctMultiplicity(ops[i].pending, w);
    }
  }

  lemma EntriesAdd(ops: seq<Op>, lo: nat, mid: nat, hi: nat, w: Id)
    requires lo <= |ops| && mid <= |ops| && hi <= |ops|
    requires w in Before(ops, lo) ==> w in Before(ops, mid)
    requires w in Before(ops, mid) ==> w in Before(ops, hi)
    ensures Entry(ops, lo, mid, w) + Entry(ops, mid, hi, w) == Entry(ops, lo, hi, w)
  {
  }

  lemma OneMoreSpawn(ops: seq<Op>, lo: nat, mid: nat, w: Id, n: nat, m: nat)
    requires lo <= mid < |ops| && SpawnsBetween(ops, lo, mid, w) == n && SpawnsAt(ops, mid, w) == m
    ensures SpawnsBetween(ops, lo, mid + 1, w) == m + n
  {
  }

  /** Over a stretch without a retirement of `w`, and with distinct pending lists, `w` is spawned
      at most once; it is spawned exactly when it enters flight during the stretch. */
  lemma {:induction false} SpawnedAtMostOncePerLife(ops: seq<Op>, lo: nat, hi: nat, w: Id)
    requires lo <= hi <= |ops|
    requires forall r | lo <= r < hi :: ops[r] != Op.Retire(w) && (ops[r].Cycle? ==> Distinct(ops[r].pending))
    ensures SpawnsBetween(ops, lo, hi, w) == Entry(ops, lo, hi, w) <= 1
    decreases hi - lo
  {
    if lo < hi {
      var mid := hi - 1;
      SpawnedAtMostOncePerLife(ops, lo, mid, w);
      SpawnIsEntry(ops, mid, w);
      if w in Before(ops, lo) { StaysInFlight(ops, lo, mid, w); }
      EntriesAdd(ops, lo, mid, hi, w);
      OneMoreSpawn(ops, lo, mid, w, Entry(ops, lo, mid, w), Entry(ops, mid, hi, w));
    }
  }
}
