/** The crash-loop brake and the resume fallback of the respawn watcher (bin/agent-server.py).
    Times are seconds of one monotonic clock, as exact reals. */
module Respawn {
  import opened Ordering

  const RESPAWN_WINDOW_SECONDS := 300.0
  const RESPAWN_MAX_IN_WINDOW := 3
  const RESUME_FAIL_GIVEUP := 3
  const RESUME_FAST_DEATH_SECONDS := 120.0

  type ShardId = string

  /** What the server remembers about one shard's process. `resumedAt` is the spawn time of a
      process started with a resumed session, `started` whether the session has begun. */
  datatype Shard = Shard(history: seq<real>, streak: nat, resumedAt: Option<real>, started: bool, alive: bool)

  function Recent(history: seq<real>, now: real): (r: seq<real>)
    ensures forall t :: t in r <==> t in history && now - t < RESPAWN_WINDOW_SECONDS
  {
    if history == [] then []
    else (if now - history[0] < RESPAWN_WINDOW_SECONDS then [history[0]] else []) + Recent(history[1..], now)
  }

  predicate FastResumedDeath(s: Shard, died: real) {
    s.resumedAt.Some? && died - s.resumedAt.value < RESUME_FAST_DEATH_SECONDS
  }

  /** This death makes the resume fallback pin a fresh session and forget the crash history. */
  predicate FallsBack(s: Shard, died: real) {
    FastResumedDeath(s, died) && s.streak + 1 >= RESUME_FAIL_GIVEUP
  }

  function Noted(s: Shard, died: real): Shard {
    var falls := FallsBack(s, died);
    Shard(if falls then [] else s.history, if FastResumedDeath(s, died) && !falls then s.streak + 1 else 0,
          None, s.started && !falls, false)
  }

  predicate Brakes(s: Shard, died: real, now: real) {
    |Recent(Noted(s, died).history, now)| >= RESPAWN_MAX_IN_WINDOW
  }

  function AfterExit(s: Shard, died: real, now: real, spawned: real, spawnOk: bool): Shard {
    var noted := Noted(s, died);
    var up := spawnOk && !Brakes(s, died, now);
    noted.(history := Recent(noted.history, now) + [now], alive := up,
           resumedAt := if up && noted.started then Some(spawned) else None)
  }

  /** The crashes of a history that lie in the window that ends at `now`. */
  function InWindow(history: seq<real>, now: real): set<nat> {
    set i: nat | i < |history| && now - history[i] < RESPAWN_WINDOW_SECONDS
  }

  lemma {:induction false} RecentSnoc(history: seq<real>, t: real, now: real)
    ensures Recent(history + [t], now) ==
            Recent(history, now) + if now - t < RESPAWN_WINDOW_SECONDS then [t] else []
  {
    if history != [] {
      RecentSnoc(history[1..], t, now);
      assert (history + [t])[1..] == history[1..] + [t];
    }
  }

  lemma {:induction false} RecentCounts(history: seq<real>, now: real)
    ensures |Recent(history, now)| == |InWindow(history, now)|
    decreases |history|
  {
    if history != [] {
      var n := |history| - 1;
      var rest := history[..n];
      RecentCounts(rest, now);
      RecentSnoc(rest, history[n], now);
      assert rest + [history[n]] == history;
      assert InWindow(history, now) ==
        InWindow(rest, now) + if now - history[n] < RESPAWN_WINDOW_SECONDS then {n} else {};
    }
  }

  class AgentServer {
    var respawnHistory: map<ShardId, seq<real>>
    var resumeFailStreak: map<ShardId, nat>
    var resumeSpawnInfo: map<ShardId, real>
    var sessionStarted: set<ShardId>
    var processes: set<ShardId>

    constructor ()
      ensures forall id :: View(id) == Shard([], 0, None, false, false)
    {
      respawnHistory, resumeFailStreak, resumeSpawnInfo := map[], map[], map[];
      sessionStarted, processes := {}, {};
    }

    function View(id: ShardId): Shard
      reads this
    {
      Shard(if id in respawnHistory then respawnHistory[id] else [],
            if id in resumeFailStreak then resumeFailStreak[id] else 0,
            if id in resumeSpawnInfo then Some(resumeSpawnInfo[id]) else None,
            id in sessionStarted, id in processes)
    }

    twostate predicate OthersUnchanged(id: ShardId)
      reads this
    {
      forall other :: other != id ==> View(other) == old(View(other))
    }

    method ClearSession(id: ShardId)
      modifies this
      ensures View(id) == old(View(id)).(streak := 0, resumedAt := None, started := false)
      ensures OthersUnchanged(id)
    {
      sessionStarted := sessionStarted - {id};
      resumeFailStreak := resumeFailStreak - {id};
      resumeSpawnInfo := resumeSpawnInfo - {id};
    }

    method MarkSessionStarted(id: ShardId)
      modifies this
      ensures View(id) == old(View(id)).(started := true)
      ensures OthersUnchanged(id)
    {
      sessionStarted := sessionStarted + {id};
    }

    /** `spawnOk` says whether the process could be created. */
    method StartSubprocess(id: ShardId, spawned: real, spawnOk: bool)
      modifies this
      ensures View(id) == if !spawnOk then old(View(id)) else
                old(View(id)).(resumedAt := if old(View(id)).started then Some(spawned) else None, alive := true)
      ensures OthersUnchanged(id)
    {
      if spawnOk {
        processes := processes + {id};
        if id in sessionStarted {
          resumeSpawnInfo := resumeSpawnInfo[id := spawned];
        } else {
          resumeSpawnInfo := resumeSpawnInfo - {id};
        }
      }
    }

    /** Resume bookkeeping: count a fast death of a resumed process; at RESUME_FAIL_GIVEUP in a
        row pin a fresh session and forget the crash history. */
    method NoteDeath(id: ShardId, died: real)
      requires View(id).alive
      modifies this
      ensures View(id) == Noted(old(View(id)), died)
      ensures var s := old(View(id));
              var fast := s.resumedAt.Some? && died < s.resumedAt.value + RESUME_FAST_DEATH_SECONDS;
              View(id) == if fast && s.streak + 1 >= RESUME_FAIL_GIVEUP then Shard([], 0, None, false, false)
                          else s.(streak := if fast then s.streak + 1 else 0, resumedAt := None, alive := false)
      ensures OthersUnchanged(id)
    {
      processes := processes - {id};
      var info := if id in resumeSpawnInfo then Some(resumeSpawnInfo[id]) else None;
      resumeSpawnInfo := resumeSpawnInfo - {id};
      if info.Some? && died - info.value < RESUME_FAST_DEATH_SECONDS {
        var n := if id in resumeFailStreak then resumeFailStreak[id] else 0;
        resumeFailStreak := resumeFailStreak[id := n + 1];
      } else {
        resumeFailStreak := resumeFailStreak - {id};
      }
      assert OthersUnchanged(id);
      if id in resumeFailStreak && resumeFailStreak[id] >= RESUME_FAIL_GIVEUP {
        ClearSession(id);
        respawnHistory := respawnHistory[id := []];
      }
    }

    /** The watcher's reaction to an exit nobody asked for: the resume bookkeeping reads the clock
        at `died`, the brake at `now`, the new process at `spawned`. */
    method OnExit(id: ShardId, died: real, now: real, spawned: real, spawnOk: bool) returns (respawned: bool)
      requires View(id).alive
      modifies this
      ensures View(id) == AfterExit(old(View(id)), died, now, spawned, spawnOk)
      ensures var s := old(View(id));
              var fast := s.resumedAt.Some? && died < s.resumedAt.value + RESUME_FAST_DEATH_SECONDS;
              var wiped := fast && s.streak + 1 >= RESUME_FAIL_GIVEUP;
              var history := if wiped then [] else s.history;
              && (respawned <==> |InWindow(history, now)| < RESPAWN_MAX_IN_WINDOW)
              && View(id).history == Recent(history, now) + [now]
              && View(id).streak == (if fast && !wiped then s.streak + 1 else 0)
              && View(id).started == (s.started && !wiped) && View(id).alive == (respawned && spawnOk)
              && View(id).resumedAt == if respawned && spawnOk && s.started && !wiped then Some(spawned) else None
      ensures respawned == !Brakes(old(View(id)), died, now)
      ensures OthersUnchanged(id)
    {
      NoteDeath(id, died);
      RecentCounts(View(id).history, now);
      var recent := Recent(if id in respawnHistory then respawnHistory[id] else [], now) + [now];
      respawnHistory := respawnHistory[id := recent];
      if |recent| > RESPAWN_MAX_IN_WINDOW {
        return false;
      }
      StartSubprocess(id, spawned, spawnOk);
      return true;
    }
  }

  // ---- runs of one shard that only the watcher restarts ----

  datatype Event = Exit(died: real, now: real, spawned: real, spawnOk: bool) | SessionBegins

  datatype Respawned = Respawned(at: real, fellBack: bool)

  datatype World = World(shard: Shard, log: seq<Respawned>, clock: real)

  predicate Possible(w: World, e: Event) {
    w.shard.alive && (e.Exit? ==> w.clock <= e.died <= e.now <= e.spawned)
  }

  function Next(w: World, e: Event): World
    requires Possible(w, e)
  {
    match e
    case SessionBegins => w.(shard := w.shard.(started := true))
    case Exit(died, now, spawned, ok) =>
      World(AfterExit(w.shard, died, now, spawned, ok),
            if Brakes(w.shard, died, now) then w.log else w.log + [Respawned(now, FallsBack(w.shard, died))],
            spawned)
  }

  ghost predicate Boot(w: World) {
    w.shard.history == [] && w.shard.streak == 0 && w.log == []
  }

  ghost predicate IsRun(ws: seq<World>, es: seq<Event>) {
    && |ws| == |es| + 1 && Boot(ws[0])
    && forall i :: 0 <= i < |es| ==> Possible(ws[i], es[i]) && ws[i + 1] == Next(ws[i], es[i])
  }

  function Times(log: seq<Respawned>): seq<real> {
    seq(|log|, i requires 0 <= i < |log| => log[i].at)
  }

  ghost predicate Quiet(log: seq<Respawned>, i: int, j: int)
    requires 0 <= i && j <= |log|
  {
    forall m :: i <= m < j ==> !log[m].fellBack
  }

  /** Without a fallback in between, respawns RESPAWN_MAX_IN_WINDOW apart are a window apart. */
  ghost predicate BrakeHeld(log: seq<Respawned>) {
    forall i, j :: 0 <= i && i + RESPAWN_MAX_IN_WINDOW <= j < |log| && Quiet(log, i + 1, j + 1) ==>
      log[j].at - log[i].at >= RESPAWN_WINDOW_SECONDS
  }

  /** More than RESUME_FAIL_GIVEUP respawns separate two fallbacks. */
  ghost predicate FallbacksApart(log: seq<Respawned>) {
    forall p, q :: 0 <= p < q < |log| && log[p].fellBack && log[q].fellBack ==> q - p > RESUME_FAIL_GIVEUP
  }

  ghost predicate Chronological(log: seq<Respawned>, clock: real) {
    forall i, j :: 0 <= i <= j < |log| ==> log[i].at <= log[j].at <= clock
  }

  /** The crash history is the end of the log from index `k` on; respawns from the last fallback
      `f` up to `k` have left the window. */
  ghost predicate Remembers(w: World, f: nat, k: nat) {
    && f <= k <= |w.log| && w.shard.history == Times(w.log[k..])
    && (f == 0 || (f < |w.log| && w.log[f].fellBack)) && Quiet(w.log, f + 1, |w.log|)
    && (forall j :: f <= j < k ==> w.clock - w.log[j].at >= RESPAWN_WINDOW_SECONDS)
  }

  /** A fresh session cannot have counted towards the next fallback yet. */
  ghost predicate StreakOk(w: World, f: nat) {
    f < |w.log| && w.log[f].fellBack ==>
      var since := |w.log| - 1 - f;
      if since == 0 then w.shard.resumedAt == None && w.shard.streak == 0 else w.shard.streak < since
  }

  ghost predicate Inv(w: World) {
    && BrakeHeld(w.log) && FallbacksApart(w.log) && Chronological(w.log, w.clock)
    && (w.shard.alive ==> exists f: nat, k: nat :: Remembers(w, f, k) && StreakOk(w, f))
  }

  lemma {:induction false} RecentIsSuffix(history: seq<real>, now: real) returns (cut: nat)
    requires forall i, j :: 0 <= i <= j < |history| ==> history[i] <= history[j]
    ensures cut <= |history| && Recent(history, now) == history[cut..]
    ensures forall i :: 0 <= i < cut ==> now - history[i] >= RESPAWN_WINDOW_SECONDS
    ensures forall i :: cut <= i < |history| ==> now - history[i] < RESPAWN_WINDOW_SECONDS
  {
    if history == [] {
      cut := 0;
    } else {
      var c := RecentIsSuffix(history[1..], now);
      if now - history[0] < RESPAWN_WINDOW_SECONDS {
        assert |history| > 1 ==> history[1..][0] == history[1] && history[0] <= history[1];
        assert c == 0 && [history[0]] + history[1..] == history;
        cut := 0;
      } else {
        assert history[1..][c..] == history[c + 1..];
        assert forall i :: 0 < i <= c ==> history[i] == history[1..][i - 1];
        cut := c + 1;
      }
    }
  }

  lemma TimesSuffix(log: seq<Respawned>, k: nat, cut: nat)
    requires k + cut <= |log|
    ensures Times(log[k..])[cut..] == Times(log[k + cut..])
  {
  }

  /** What trimming at an exit finds: the end of the log from some later index on. */
  lemma TrimmedHistory(w: World, f: nat, k: nat, now: real) returns (k': nat)
    requires Remembers(w, f, k) && Chronological(w.log, w.clock) && now >= w.clock
    ensures k <= k' <= |w.log| && Recent(w.shard.history, now) == Times(w.log[k'..])
    ensures forall j :: f <= j < k' ==> now - w.log[j].at >= RESPAWN_WINDOW_SECONDS
  {
    var history := w.shard.history;
    assert forall i :: 0 <= i < |history| ==> history[i] == w.log[k + i].at;
    var cut := RecentIsSuffix(history, now);
    TimesSuffix(w.log, k, cut);
    k' := k + cut;
    forall j | f <= j < k' ensures now - w.log[j].at >= RESPAWN_WINDOW_SECONDS {
      if j >= k {
        assert history[j - k] == w.log[j].at;
      }
    }
  }

  lemma BrakeHolds(w: World, f: nat, k: nat, e: Event)
    requires Possible(w, e) && e.Exit? && !Brakes(w.shard, e.died, e.now)
    requires BrakeHeld(w.log) && Chronological(w.log, w.clock) && Remembers(w, f, k)
    ensures BrakeHeld(Next(w, e).log)
  {
    var log := Next(w, e).log;
    var k' := TrimmedHistory(w, f, k, e.now);
    forall i, j | 0 <= i && i + RESPAWN_MAX_IN_WINDOW <= j < |log| && Quiet(log, i + 1, j + 1)
      ensures log[j].at - log[i].at >= RESPAWN_WINDOW_SECONDS
    {
      if j < |w.log| {
        assert Quiet(w.log, i + 1, j + 1) by {
          assert forall m :: i + 1 <= m < j + 1 ==> log[m] == w.log[m];
        }
      } else {
        assert !log[j].fellBack && i < k';
        assert f < |w.log| ==> log[f] == w.log[f];
        assert log[i] == w.log[i];
      }
    }
  }

  lemma FallbacksStayApart(w: World, f: nat, k: nat, e: Event)
    requires Possible(w, e) && e.Exit? && !Brakes(w.shard, e.died, e.now)
    requires BrakeHeld(w.log) && FallbacksApart(w.log) && Chronological(w.log, w.clock)
    requires Remembers(w, f, k) && StreakOk(w, f)
    ensures FallbacksApart(Next(w, e).log)
  {
    var log := Next(w, e).log;
    forall p, q | 0 <= p < q < |log| && log[p].fellBack && log[q].fellBack ensures q - p > RESUME_FAIL_GIVEUP {
      if q < |w.log| {
        assert log[p] == w.log[p] && log[q] == w.log[q];
      } else {
        assert log[p] == w.log[p] && FallsBack(w.shard, e.died);
        assert p <= f;
        assert w.log[f].fellBack;
      }
    }
  }

  lemma StillRemembers(w: World, f: nat, k: nat, e: Event) returns (f': nat, k': nat)
    requires Possible(w, e) && e.Exit? && !Brakes(w.shard, e.died, e.now)
    requires Chronological(w.log, w.clock) && Remembers(w, f, k) && StreakOk(w, f)
    ensures Remembers(Next(w, e), f', k') && StreakOk(Next(w, e), f')
  {
    var w' := Next(w, e);
    assert forall m :: 0 <= m < |w.log| ==> w'.log[m] == w.log[m];
    if FallsBack(w.shard, e.died) {
      f', k' := |w.log|, |w.log|;
      assert Times(w'.log[k'..]) == [e.now];
    } else {
      f' := f;
      k' := TrimmedHistory(w, f, k, e.now);
      assert w'.log[k'..] == w.log[k'..] + [w'.log[|w.log|]];
      assert Times(w'.log[k'..]) == Times(w.log[k'..]) + [e.now];
      assert Quiet(w'.log, f + 1, |w'.log|);
    }
  }

  lemma StillChronological(w: World, e: Event)
    requires Possible(w, e) && Chronological(w.log, w.clock)
    ensures Chronological(Next(w, e).log, Next(w, e).clock)
  {
  }

  lemma NextKeepsInv(w: World, e: Event)
    requires Inv(w) && Possible(w, e)
    ensures Inv(Next(w, e))
  {
    var f: nat, k: nat :| Remembers(w, f, k) && StreakOk(w, f);
    StillChronological(w, e);
    if e.SessionBegins? {
      assert Remembers(Next(w, e), f, k) && StreakOk(Next(w, e), f);
    } else if !Brakes(w.shard, e.died, e.now) {
      BrakeHolds(w, f, k, e);
      FallbacksStayApart(w, f, k, e);
      var f', k' := StillRemembers(w, f, k, e);
    }
  }

  lemma {:induction false} EveryRun(ws: seq<World>, es: seq<Event>, n: nat)
    requires IsRun(ws, es) && n <= |es|
    ensures Inv(ws[n])
    decreases n
  {
    if n == 0 {
      assert Remembers(ws[0], 0, 0) && StreakOk(ws[0], 0);
    } else {
      EveryRun(ws, es, n - 1);
      NextKeepsInv(ws[n - 1], es[n - 1]);
    }
  }

  /** Two fallbacks never fall into one window. */
  lemma FallbacksSpaced(log: seq<Respawned>, clock: real, p: nat, q: nat)
    requires BrakeHeld(log) && FallbacksApart(log) && Chronological(log, clock)
    requires p < q < |log| && log[p].fellBack && log[q].fellBack
    ensures log[q].at - log[p].at >= RESPAWN_WINDOW_SECONDS
    decreases q - p
  {
    if m: nat :| p < m < q && log[m].fellBack {
      FallbacksSpaced(log, clock, p, m);
    } else {
      assert Quiet(log, p + 1, p + RESPAWN_MAX_IN_WINDOW + 1);
      assert log[q].at >= log[p + RESPAWN_MAX_IN_WINDOW].at;
    }
  }

  /** Over every run, any 2 * RESPAWN_MAX_IN_WINDOW + 1 consecutive respawns take at least a
      window: no window shorter than that holds more than twice the brake's limit. */
  lemma RespawnBound(ws: seq<World>, es: seq<Event>, i: nat)
    requires IsRun(ws, es)
    requires i + 2 * RESPAWN_MAX_IN_WINDOW < |ws[|es|].log|
    ensures ws[|es|].log[i + 2 * RESPAWN_MAX_IN_WINDOW].at - ws[|es|].log[i].at >= RESPAWN_WINDOW_SECONDS
  {
    EveryRun(ws, es, |es|);
    var log, clock := ws[|es|].log, ws[|es|].clock;
    var m := i + RESPAWN_MAX_IN_WINDOW;
    var j := i + 2 * RESPAWN_MAX_IN_WINDOW;
    if Quiet(log, i + 1, m + 1) || Quiet(log, m + 1, j + 1) {
      assert log[i].at <= log[m].at <= log[j].at;
    } else {
      var p :| i + 1 <= p < m + 1 && log[p].fellBack;
      var q :| m + 1 <= q < j + 1 && log[q].fellBack;
      FallbacksSpaced(log, clock, p, q);
      assert log[i].at <= log[p].at && log[q].at <= log[j].at;
    }
  }

  lemma {:induction false} RecentAll(history: seq<real>, now: real)
    requires forall i :: 0 <= i < |history| ==> now - history[i] < RESPAWN_WINDOW_SECONDS
    ensures Recent(history, now) == history
  {
    if history != [] {
      RecentAll(history[1..], now);
    }
  }

  ghost predicate Reached(ws: seq<World>, es: seq<Event>, shard: Shard, respawns: seq<real>, clock: real) {
    && IsRun(ws, es) && ws[|es|].shard == shard && shard.alive
    && Times(ws[|es|].log) == respawns && ws[|es|].clock == clock
  }

  /** Extends a run with a crash at `t` that the brake lets pass. */
  lemma CrashAt(ws: seq<World>, es: seq<Event>, shard: Shard, respawns: seq<real>, clock: real, t: real)
    returns (ws': seq<World>, es': seq<Event>, shard': Shard)
    requires Reached(ws, es, shard, respawns, clock) && clock <= t
    requires |Noted(shard, t).history| < RESPAWN_MAX_IN_WINDOW
    requires forall i :: 0 <= i < |shard.history| ==> t - shard.history[i] < RESPAWN_WINDOW_SECONDS
    ensures shard' == Noted(shard, t).(history := Noted(shard, t).history + [t], alive := true,
                                       resumedAt := if Noted(shard, t).started then Some(t) else None)
    ensures Reached(ws', es', shard', respawns + [t], t)
  {
    RecentAll(Noted(shard, t).history, t);
    es' := es + [Exit(t, t, t, true)];
    ws' := ws + [Next(ws[|es|], es'[|es|])];
    shard' := ws'[|es'|].shard;
  }

  lemma ThreeCrashes() returns (ws: seq<World>, es: seq<Event>)
    ensures Reached(ws, es, Shard([0.0, 1.0, 2.0], 2, Some(2.0), true, true), [0.0, 1.0, 2.0], 2.0)
  {
    var s := Shard([], 0, None, true, true);
    ws, es := [World(s.(started := false), [], 0.0), World(s, [], 0.0)], [SessionBegins];
    assert Reached(ws, es, s, [], 0.0);
    ws, es, s := CrashAt(ws, es, s, [], 0.0, 0.0);
    ws, es, s := CrashAt(ws, es, s, [0.0], 0.0, 1.0);
    ws, es, s := CrashAt(ws, es, s, [0.0, 1.0], 1.0, 2.0);
  }

  /** The bound is met: a first crash, then three refused resumes, then two more crashes, one
      second apart, are all respawned. */
  lemma RespawnBoundIsMet() returns (ws: seq<World>, es: seq<Event>)
    ensures IsRun(ws, es) && Times(ws[|es|].log) == [0.0, 1.0, 2.0, 3.0, 4.0, 5.0]
  {
    var s := Shard([0.0, 1.0, 2.0], 2, Some(2.0), true, true);
    ws, es := ThreeCrashes();
    ws, es, s := CrashAt(ws, es, s, [0.0, 1.0, 2.0], 2.0, 3.0);
    ws, es, s := CrashAt(ws, es, s, [0.0, 1.0, 2.0, 3.0], 3.0, 4.0);
    ws, es, s := CrashAt(ws, es, s, [0.0, 1.0, 2.0, 3.0, 4.0], 4.0, 5.0);
  }
}
