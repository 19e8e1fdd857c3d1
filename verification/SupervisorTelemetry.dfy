/** The telemetry sample: `active_runs` is the number of names `ls -1` lists in the lock directory. */
module SupervisorTelemetry {
  import opened Supervisor
  import opened SupervisorKeys

  /** `ls -1` does not list names starting with a dot. */
  predicate Listed(k: Key) {
    k != "" && k[0] != '.'
  }

  function ActiveRuns(s: State): nat {
    |set k | k in s.locks && Listed(k)|
  }

  function LiveListed(ws: seq<Worker>): nat {
    if ws == [] then 0
    else LiveListed(ws[..|ws| - 1]) + (if Shows(ws[|ws| - 1]) then 1 else 0)
  }

  predicate Shows(w: Worker) {
    w.stage != Done && Listed(KeyOf(w.wid))
  }

  ghost function ShownKeys(ws: seq<Worker>): set<Key> {
    set i | 0 <= i < |ws| && Shows(ws[i]) :: KeyOf(ws[i].wid)
  }

  predicate DistinctKeys(ws: seq<Worker>) {
    forall i, j | 0 <= i < |ws| && 0 <= j < |ws| && Shows(ws[i]) && Shows(ws[j]) && KeyOf(ws[i].wid) == KeyOf(ws[j].wid) :: i == j
  }

  lemma ShownKeysOfFront(ws: seq<Worker>, n: nat, k: Key)
    requires |ws| == n + 1
    ensures k in ShownKeys(ws) <==> k in ShownKeys(ws[..n]) || (Shows(ws[n]) && k == KeyOf(ws[n].wid))
  {
    var front := ws[..n];
    if k in ShownKeys(front) {
      var i :| 0 <= i < |front| && Shows(front[i]) && KeyOf(front[i].wid) == k;
      assert front[i] == ws[i];
    }
    if k in ShownKeys(ws) {
      var i :| 0 <= i < |ws| && Shows(ws[i]) && KeyOf(ws[i].wid) == k;
      assert i < n ==> front[i] == ws[i];
    }
  }

  lemma FrontHasOtherKeys(ws: seq<Worker>, n: nat)
    requires |ws| == n + 1 && DistinctKeys(ws)
    ensures DistinctKeys(ws[..n])
    ensures Shows(ws[n]) ==> KeyOf(ws[n].wid) !in ShownKeys(ws[..n])
  {
    var front := ws[..n];
    assert forall i | 0 <= i < n :: front[i] == ws[i];
    forall k | k in ShownKeys(front) ensures Shows(ws[n]) ==> k != KeyOf(ws[n].wid) {
      var i :| 0 <= i < |front| && Shows(front[i]) && KeyOf(front[i].wid) == k;
      assert Shows(ws[i]) && i != n;
    }
  }

  lemma {:induction false} ShownKeysCount(ws: seq<Worker>)
    requires DistinctKeys(ws)
    ensures |ShownKeys(ws)| == LiveListed(ws)
  {
    if ws != [] {
      var n := |ws| - 1;
      var front := ShownKeys(ws[..n]);
      FrontHasOtherKeys(ws, n);
      ShownKeysCount(ws[..n]);
      forall k ensures k in ShownKeys(ws) <==> k in front || (Shows(ws[n]) && k == KeyOf(ws[n].wid)) {
        ShownKeysOfFront(ws, n, k);
      }
      var extra := if Shows(ws[n]) then {KeyOf(ws[n].wid)} else {};
      assert ShownKeys(ws) == front + extra;
      assert |front + extra| == |front| + |extra|;
    }
  }

  /** The sampled `active_runs` is the number of live workers with a listed key plus the number of
      listed stuck locks, in every reachable state. */
  lemma ActiveRunsCountsLiveWorkers(s: State)
    requires Reachable(s)
    ensures ActiveRuns(s) == LiveListed(s.workers) + |set k | k in s.stuck && Listed(k)|
  {
    ReachableInv(s);
    forall i, j | 0 <= i < |s.workers| && 0 <= j < |s.workers| && Shows(s.workers[i]) && Shows(s.workers[j])
                 && KeyOf(s.workers[i].wid) == KeyOf(s.workers[j].wid)
      ensures i == j
    {
      assert Owns(s, i, KeyOf(s.workers[i].wid)) && Owns(s, j, KeyOf(s.workers[i].wid));
    }
    ShownKeysCount(s.workers);
    var shown := ShownKeys(s.workers);
    var stuck := set k | k in s.stuck && Listed(k);
    forall k ensures k in s.locks && Listed(k) <==> k in shown || k in stuck {
      if k in shown {
        var i :| 0 <= i < |s.workers| && Shows(s.workers[i]) && KeyOf(s.workers[i].wid) == k;
        assert Owns(s, i, k);
      }
      if k in s.locks && Listed(k) && k !in s.stuck {
        var i :| Owns(s, i, k);
        assert Shows(s.workers[i]);
      }
    }
    assert (set k | k in s.locks && Listed(k)) == shown + stuck;
    forall k | k in shown ensures k !in stuck {
      var i :| 0 <= i < |s.workers| && Shows(s.workers[i]) && KeyOf(s.workers[i].wid) == k;
      assert Owns(s, i, k);
    }
  }

  /** A live worker is listed if and only if its id does not start with a dot: no other character becomes one. */
  lemma ShownUnlessDotted(w: Worker)
    requires w.stage != Done
    ensures Shows(w) <==> w.wid != "" && !("." <= w.wid)
  {
    if w.wid != "" { KeyChars(w.wid, 0); }
  }
}
