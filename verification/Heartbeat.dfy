/** The presence heartbeat loop: upsert, bounded watch, liveness check, sleep, and again.
    Time is real; the upsert is the first action of each watch. */
module Heartbeat {
  import opened Basics

  /** `lag` is the scheduling delay before the upsert, `watch` how long the watch then runs. */
  datatype Beat = Beat(lag: real, watch: real)

  /** The constants, in whole seconds: `sleep interval`, `timeout bound`, and the online window. */
  datatype Cadence = Cadence(interval: int, bound: int, window: int)

  /** The guard that refuses to build a stale-cadence engage. */
  predicate Admitted(c: Cadence) {
    0 < c.interval + c.bound < c.window
  }

  /** A behaviour of the environment: no delay exceeds `maxLag`, and `timeout` stops each watch after
      `bound` seconds; `timeout 0` does not stop it at all. */
  ghost predicate Behaves(beats: nat -> Beat, c: Cadence, maxLag: real) {
    forall n: nat ::
      && 0.0 <= beats(n).lag <= maxLag
      && 0.0 <= beats(n).watch
      && (c.bound > 0 ==> beats(n).watch <= c.bound as real)
  }

  /** When upsert `n` happens, if the loop gets that far. */
  function UpsertAt(beats: nat -> Beat, c: Cadence, n: nat): real
    decreases n, 0
  {
    if n == 0 then beats(0).lag
    else CheckAt(beats, c, n - 1) + c.interval as real + beats(n).lag
  }

  /** When the `kill -0` after watch `n` looks at the server. */
  function CheckAt(beats: nat -> Beat, c: Cadence, n: nat): real
    decreases n, 1
  {
    UpsertAt(beats, c, n) + beats(n).watch
  }

  /** The server is alive before `death`, and for ever when there is none. */
  predicate Alive(death: Option<real>, t: real) {
    death.Some? ==> t < death.value
  }

  /** Upsert `n` happens: the first one unconditionally, each later one after a successful check. */
  predicate Fires(beats: nat -> Beat, c: Cadence, death: Option<real>, n: nat) {
    n == 0 || (Fires(beats, c, death, n - 1) && Alive(death, CheckAt(beats, c, n - 1)))
  }

  /** The loop, observed for at most `horizon` rounds. */
  method HeartbeatLoop(beats: nat -> Beat, c: Cadence, death: Option<real>, horizon: nat) returns (upserts: seq<real>)
    ensures 1 <= |upserts| <= horizon + 1 && upserts[0] == beats(0).lag
    ensures forall n | 0 <= n < |upserts| :: Fires(beats, c, death, n) && upserts[n] == UpsertAt(beats, c, n)
    ensures |upserts| <= horizon ==> !Fires(beats, c, death, |upserts|)
  {
    var now := beats(0).lag;
    upserts := [now];
    now := now + beats(0).watch;
    var n := 0;
    while n < horizon && Alive(death, now)
      invariant n <= horizon && |upserts| == n + 1
      invariant now == CheckAt(beats, c, n)
      invariant forall m | 0 <= m <= n :: Fires(beats, c, death, m) && upserts[m] == UpsertAt(beats, c, m)
    {
      now := now + c.interval as real;
      n := n + 1;
      now := now + beats(n).lag;
      assert now == UpsertAt(beats, c, n) && Fires(beats, c, death, n);
      upserts := upserts + [now];
      now := now + beats(n).watch;
    }
  }

  /** Two successive upserts are one watch, one whole sleep and one delay apart. */
  lemma UpsertsApart(beats: nat -> Beat, c: Cadence, maxLag: real, n: nat)
    requires Behaves(beats, c, maxLag)
    ensures UpsertAt(beats, c, n + 1) - UpsertAt(beats, c, n) == beats(n).watch + c.interval as real + beats(n + 1).lag
    ensures UpsertAt(beats, c, n + 1) - UpsertAt(beats, c, n) >= c.interval as real
    ensures c.bound > 0 ==> UpsertAt(beats, c, n + 1) - UpsertAt(beats, c, n) <= (c.interval + c.bound) as real + maxLag
  {
    var first, second := beats(n), beats(n + 1);
    assert 0.0 <= second.lag <= maxLag && 0.0 <= first.watch && (c.bound > 0 ==> first.watch <= c.bound as real);
    assert UpsertAt(beats, c, n + 1) == CheckAt(beats, c, n) + c.interval as real + second.lag;
  }

  /** The shortest rounds are one sleep long: a watch may end at once. */
  lemma ShortestRound(c: Cadence) returns (beats: nat -> Beat)
    ensures Behaves(beats, c, 0.0)
    ensures UpsertAt(beats, c, 0) == 0.0 && UpsertAt(beats, c, 1) == c.interval as real
  {
    beats := _ => Beat(0.0, 0.0);
    assert UpsertAt(beats, c, 1) == CheckAt(beats, c, 0) + c.interval as real + beats(1).lag;
  }

  /** So that many rounds take at least that many whole sleeps, early or late. */
  lemma {:induction false} UpsertsSpaced(beats: nat -> Beat, c: Cadence, maxLag: real, m: nat, rounds: nat)
    requires Behaves(beats, c, maxLag)
    ensures UpsertAt(beats, c, m + rounds) >= UpsertAt(beats, c, m) + (rounds * c.interval) as real
    decreases rounds
  {
    if rounds > 0 {
      var before := rounds - 1;
      UpsertsSpaced(beats, c, maxLag, m, before);
      UpsertsApart(beats, c, maxLag, m + before);
      assert rounds * c.interval == before * c.interval + c.interval;
    }
  }

  // ----- the age of the presence record

  /** Upsert `n` is the latest one at time `t`. */
  ghost predicate Latest(beats: nat -> Beat, c: Cadence, death: Option<real>, n: nat, t: real) {
    && Fires(beats, c, death, n) && UpsertAt(beats, c, n) <= t
    && (Fires(beats, c, death, n + 1) ==> t < UpsertAt(beats, c, n + 1))
  }

  /** While the server lives, the record is younger than sleep plus bounded watch plus delay. */
  lemma AgeBound(beats: nat -> Beat, c: Cadence, maxLag: real, death: Option<real>, n: nat, t: real)
    requires Behaves(beats, c, maxLag) && c.interval >= 0 && c.bound > 0
    requires Latest(beats, c, death, n, t) && Alive(death, t)
    ensures t - UpsertAt(beats, c, n) < (c.interval + c.bound) as real + maxLag
  {
    assert beats(n).watch <= c.bound as real && beats(n + 1).lag <= maxLag && 0.0 <= beats(n + 1).lag;
    assert UpsertAt(beats, c, n + 1) == CheckAt(beats, c, n) + c.interval as real + beats(n + 1).lag;
  }

  lemma {:induction false} UpsertsSpread(beats: nat -> Beat, c: Cadence, maxLag: real, n: nat)
    requires Behaves(beats, c, maxLag) && c.interval > 0
    ensures UpsertAt(beats, c, n) >= n as real
  {
    assert beats(n).lag >= 0.0;
    if n > 0 {
      assert beats(n - 1).watch >= 0.0;
      UpsertsSpread(beats, c, maxLag, n - 1);
      assert CheckAt(beats, c, n - 1) == UpsertAt(beats, c, n - 1) + beats(n - 1).watch;
      assert UpsertAt(beats, c, n) == CheckAt(beats, c, n - 1) + c.interval as real + beats(n).lag;
    }
  }

  /** From the first upsert on there is always a latest one. */
  lemma LatestExists(beats: nat -> Beat, c: Cadence, maxLag: real, death: Option<real>, t: real) returns (n: nat)
    requires Behaves(beats, c, maxLag) && c.interval > 0
    requires UpsertAt(beats, c, 0) <= t
    ensures Latest(beats, c, death, n, t)
  {
    n := 0;
    while Fires(beats, c, death, n + 1) && UpsertAt(beats, c, n + 1) <= t
      invariant Fires(beats, c, death, n) && UpsertAt(beats, c, n) <= t
      decreases t.Floor - n
    {
      UpsertsSpread(beats, c, maxLag, n + 1);
      n := n + 1;
    }
  }

  /** For every admitted cadence with a positive sleep and a positive bound, and without scheduling
      delay, a live BC's record never reaches the online window. */
  lemma LiveStaysOnline(beats: nat -> Beat, c: Cadence, death: Option<real>, t: real) returns (n: nat)
    requires Admitted(c) && c.interval > 0 && c.bound > 0
    requires Behaves(beats, c, 0.0) && UpsertAt(beats, c, 0) <= t && Alive(death, t)
    ensures Latest(beats, c, death, n, t)
    ensures t - UpsertAt(beats, c, n) < (c.interval + c.bound) as real < c.window as real
  {
    n := LatestExists(beats, c, 0.0, death, t);
    AgeBound(beats, c, 0.0, death, n, t);
  }

  // ----- the guard against what is needed

  /** Every run without delay keeps every age below the window. */
  ghost predicate AlwaysOnline(c: Cadence) {
    forall beats: nat -> Beat, n: nat, t: real ::
      Behaves(beats, c, 0.0) && Latest(beats, c, None, n, t) ==> t - UpsertAt(beats, c, n) < c.window as real
  }

  /** The exact condition: the period fits the window and the watch is bounded at all. */
  lemma OnlineIffPeriodFits(c: Cadence)
    requires c.interval >= 0 && c.bound >= 0 && c.window > 0
    ensures AlwaysOnline(c) <==> c.bound > 0 && c.interval + c.bound <= c.window
  {
    if c.bound > 0 && c.interval + c.bound <= c.window {
      forall beats: nat -> Beat, n: nat, t: real | Behaves(beats, c, 0.0) && Latest(beats, c, None, n, t)
        ensures t - UpsertAt(beats, c, n) < c.window as real
      {
        AgeBound(beats, c, 0.0, None, n, t);
      }
    } else {
      LongWatchGoesStale(c);
    }
  }

  /** So with a bounded watch the guard admits exactly the cadences that keep a BC online, but for those whose period
      is the window itself; and it admits no period of zero. */
  lemma GuardIffOnline(c: Cadence)
    requires c.interval >= 0 && c.bound >= 0 && c.window > 0
    ensures Admitted(c) && c.bound > 0 <==> AlwaysOnline(c) && c.interval + c.bound != c.window
    ensures !Admitted(Cadence(0, 0, c.window))
  {
    OnlineIffPeriodFits(c);
  }

  lemma LongWatchGoesStale(c: Cadence)
    requires c.interval >= 0 && c.bound >= 0 && c.window > 0
    requires c.bound == 0 || c.interval + c.bound > c.window
    ensures !AlwaysOnline(c)
  {
    var long := if c.bound == 0 then (c.window + 1) as real else c.bound as real;
    var beats: nat -> Beat := _ => Beat(0.0, long);
    assert UpsertAt(beats, c, 1) == CheckAt(beats, c, 0) + c.interval as real + beats(1).lag;
    assert Behaves(beats, c, 0.0);
    assert Latest(beats, c, None, 0, c.window as real);
  }

  /** `timeout 0` sets no limit: the guard admits a zero bound although an idle BC can then age past
      any window. */
  lemma ZeroBoundIsAdmittedButStale()
    ensures Admitted(Cadence(30, 0, 90)) && !AlwaysOnline(Cadence(30, 0, 90))
  {
    LongWatchGoesStale(Cadence(30, 0, 90));
  }

  // ----- after the server dies

  lemma {:induction false} EarlierChecksPassed(beats: nat -> Beat, c: Cadence, death: Option<real>, m: nat, n: nat)
    requires m < n && Fires(beats, c, death, n)
    ensures Fires(beats, c, death, m + 1) && Alive(death, CheckAt(beats, c, m))
  {
    if m + 1 < n { EarlierChecksPassed(beats, c, death, m, n - 1); }
  }

  /** At most one upsert happens at or after the server's death, and it comes before the death plus
      one sleep and one delay. */
  lemma AtMostOneUpsertAfterDeath(beats: nat -> Beat, c: Cadence, maxLag: real, death: real, m: nat, n: nat)
    requires Behaves(beats, c, maxLag) && c.interval >= 0
    requires Fires(beats, c, Some(death), m) && death <= UpsertAt(beats, c, m)
    requires Fires(beats, c, Some(death), n) && death <= UpsertAt(beats, c, n)
    ensures m == n
    ensures 0.0 <= death ==> UpsertAt(beats, c, n) <= death + c.interval as real + maxLag
  {
    assert beats(m).watch >= 0.0 && beats(n).watch >= 0.0;
    if m < n { EarlierChecksPassed(beats, c, Some(death), m, n); }
    if n < m { EarlierChecksPassed(beats, c, Some(death), n, m); }
    assert beats(n).lag <= maxLag;
  }
}
