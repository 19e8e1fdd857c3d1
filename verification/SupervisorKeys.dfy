/** What the lock keys keep of the work ids, and which ids block each other. */
module SupervisorKeys {
  import opened Basics
  import opened Supervisor

  /** An id made of ASCII letters, digits, dots, underscores and hyphens only. */
  predicate Plain(wid: Id) {
    forall c | c in wid :: 'A' <= c <= 'Z' || 'a' <= c <= 'z' || '0' <= c <= '9' || c in "._-"
  }

  /** The character is an underscore, or becomes one. */
  predicate Blurred(c: char) {
    !('A' <= c <= 'Z' || 'a' <= c <= 'z' || '0' <= c <= '9' || c in ".-")
  }

  lemma KeyChars(wid: Id, i: nat)
    requires i < |wid|
    ensures |KeyOf(wid)| == |wid|
    ensures KeyOf(wid)[i] == if Blurred(wid[i]) then '_' else wid[i]
  {
    var c := wid[i];
    assert "._-"[0] == '.' && "._-"[1] == '_' && "._-"[2] == '-' && ".-"[0] == '.' && ".-"[1] == '-';
    assert c in ".-" <==> c == '.' || c == '-';
  }

  /** A key is plain and as long as its id. */
  lemma KeyIsPlain(wid: Id)
    ensures |KeyOf(wid)| == |wid| && Plain(KeyOf(wid))
  {
    var key := KeyOf(wid);
    assert "._-"[0] == '.' && "._-"[1] == '_' && "._-"[2] == '-';
    forall i | 0 <= i < |key|
      ensures 'A' <= key[i] <= 'Z' || 'a' <= key[i] <= 'z' || '0' <= key[i] <= '9' || key[i] in "._-"
    {
      assert KeyChar(key[i]);
    }
  }

  /** It is the id itself if and only if the id is plain. */
  lemma KeyIsIdIffPlain(wid: Id)
    ensures KeyOf(wid) == wid <==> Plain(wid)
  {
    KeyIsPlain(wid);
    if Plain(wid) {
      forall i | 0 <= i < |wid| ensures KeyOf(wid)[i] == wid[i] {
        KeyChars(wid, i);
        assert wid[i] in wid;
      }
    }
  }

  /** Two ids look alike: equally long, and wherever they differ both have an underscore or a character that
      becomes one. */
  predicate Alike(v: Id, w: Id) {
    |v| == |w| && forall i | 0 <= i < |v| :: v[i] == w[i] || (Blurred(v[i]) && Blurred(w[i]))
  }

  /** Two ids share a key if and only if they look alike. */
  lemma SameKeyIffAlike(v: Id, w: Id)
    ensures KeyOf(v) == KeyOf(w) <==> Alike(v, w)
  {
    assert |KeyOf(v)| == |v| && |KeyOf(w)| == |w|;
    if |v| == |w| {
      forall i | 0 <= i < |v|
        ensures KeyOf(v)[i] == KeyOf(w)[i] <==> v[i] == w[i] || (Blurred(v[i]) && Blurred(w[i]))
      {
        KeyChars(v, i);
        KeyChars(w, i);
      }
    }
  }

  /** An underscore is allowed, and is also what other characters become. */
  lemma UnderscoreCollides()
    ensures KeyOf("a_b") == KeyOf("a/b") && "a_b" != "a/b" && Plain("a_b")
  {
    SameKeyIffAlike("a_b", "a/b");
    KeyIsIdIffPlain("a_b");
    assert KeyOf("a_b") == "a_b";
  }

  // ----- which ids block a dispatch

  predicate Live(s: State, i: int) {
    0 <= i < |s.workers| && s.workers[i].stage != Done
  }

  /** A dispatch of this id would start a worker for it, and otherwise change nothing. */
  predicate Starts(s: State, wid: Id) {
    var t := DispatchStep(s, wid);
    t.workers == s.workers + [Worker(wid, Claimed)]
  }

  lemma StartsOrStays(s: State, wid: Id)
    ensures Starts(s, wid) <==> wid != "" && KeyOf(wid) !in s.locks
    ensures !Starts(s, wid) ==> DispatchStep(s, wid) == s
  {
    assert |s.workers + [Worker(wid, Claimed)]| == |s.workers| + 1;
  }

  /** A dispatch starts a worker if and only if the id is not empty, its key is not stuck, and no live worker has
      an id that looks like it. */
  lemma DispatchStartsIff(s: State, wid: Id)
    requires Reachable(s)
    ensures Starts(s, wid)
       <==> wid != "" && KeyOf(wid) !in s.stuck && forall i | Live(s, i) :: !Alike(s.workers[i].wid, wid)
  {
    var k := KeyOf(wid);
    forall i | Live(s, i) ensures Alike(s.workers[i].wid, wid) <==> Owns(s, i, k) {
      SameKeyIffAlike(s.workers[i].wid, wid);
    }
    LockIffOwned(s, k);
    if Owned(s, k) {
      var i :| Owns(s, i, k);
      assert Live(s, i);
    }
    StartsOrStays(s, wid);
  }

  /** The ids `.` and `..` are never started: their keys are the entries every directory has. */
  lemma DotIdsNeverStart(s: State, wid: Id)
    requires Reachable(s) && (wid == "." || wid == "..")
    ensures !Starts(s, wid)
  {
    ReachableInv(s);
    assert Plain(wid) by { assert "._-"[0] == '.'; }
    KeyIsIdIffPlain(wid);
    StartsOrStays(s, wid);
  }

  /** A start with any locks left over, or none, is a fresh start. */
  lemma FreshStart(bc: string, left: set<Key>)
    ensures var locks := {".", ".."} + left; Reachable(State(bc, locks, locks, map[], None, {}, [], true))
  {
    var locks := {".", ".."} + left;
    var s := State(bc, locks, locks, map[], None, {}, [], true);
    assert Init(s) && Exec(s, []) == Some(s);
  }

  /** Plain ids never block each other: among them a dispatch is refused only while the same id is live, or when a
      stuck lock bears its name. */
  lemma PlainIdsDoNotBlock(s: State, wid: Id)
    requires Reachable(s) && Plain(wid) && wid != ""
    requires forall i | Live(s, i) :: Plain(s.workers[i].wid)
    ensures Starts(s, wid) <==> wid !in s.stuck && forall i | Live(s, i) :: s.workers[i].wid != wid
  {
    DispatchStartsIff(s, wid);
    KeyIsIdIffPlain(wid);
    forall i | Live(s, i) ensures Alike(s.workers[i].wid, wid) <==> s.workers[i].wid == wid {
      SameKeyIffAlike(s.workers[i].wid, wid);
      KeyIsIdIffPlain(s.workers[i].wid);
    }
  }
}
