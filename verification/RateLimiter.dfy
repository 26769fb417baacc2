/** The rolling send limit per agent (lib/cross_send.py). Times are exact reals. */
module RateLimiting {

  type Agent = string

  /** What trimming leaves of a deque: everything from the first hit younger than the window. */
  function Live(q: seq<real>, now: real, window: real): (r: seq<real>) {
    if q != [] && now - q[0] >= window then Live(q[1..], now, window) else q
  }

  class RateLimiter {
    const window: real
    var hits: map<Agent, seq<real>>

    constructor (window: real)
      ensures this.window == window && hits == map[]
    {
      this.window := window;
      hits := map[];
    }

    function Deque(agent: Agent): seq<real>
      reads this
    {
      if agent in hits then hits[agent] else []
    }

    method Trim(agent: Agent, now: real) returns (q: seq<real>)
      modifies this
      ensures q == Live(old(Deque(agent)), now, window)
      ensures hits == old(hits)[agent := q]
    {
      q := Deque(agent);
      while q != [] && now - q[0] >= window
        invariant Live(q, now, window) == Live(old(Deque(agent)), now, window)
        decreases |q|
      {
        q := q[1..];
      }
      hits := hits[agent := q];
    }

    /** Counts the send when it is allowed; otherwise says how long until a slot frees. */
    method Allow(agent: Agent, limit: int, now: real) returns (allowed: bool, wait: real)
      requires limit >= 1
      modifies this
      ensures Attempt(old(Deque(agent)), limit, now, window) == (allowed, wait, Deque(agent))
      ensures hits == old(hits)[agent := Deque(agent)]
    {
      var q := Trim(agent, now);
      if |q| >= limit {
        var left := window - (now - q[0]);
        return false, if left > 0.0 then left else 0.0;
      }
      hits := hits[agent := q + [now]];
      return true, 0.0;
    }
  }

  /** One attempt on a deque: the verdict, the wait, and the deque afterwards. */
  function Attempt(q: seq<real>, limit: int, now: real, window: real): (bool, real, seq<real>)
    requires limit >= 1
  {
    var live := Live(q, now, window);
    if |live| >= limit then
      (false, if window - (now - live[0]) > 0.0 then window - (now - live[0]) else 0.0, live)
    else
      (true, 0.0, live + [now])
  }

  predicate Nondecreasing(s: seq<real>) {
    forall i, j :: 0 <= i < j < |s| ==> s[i] <= s[j]
  }

  /** The deque and the accepted send times after the given attempts. */
  function Play(times: seq<real>, limit: int, window: real): (r: (seq<real>, seq<real>))
    requires limit >= 1
  {
    if times == [] then
      ([], [])
    else
      var n := |times| - 1;
      var (q, log) := Play(times[..n], limit, window);
      var (ok, _, q') := Attempt(q, limit, times[n], window);
      (q', if ok then log + [times[n]] else log)
  }

  /** How many of `log` lie in the window that ends at `now`. */
  function InWindow(log: seq<real>, now: real, window: real): (n: nat)
    ensures n <= |log|
  {
    if log == [] then 0
    else InWindow(log[..|log| - 1], now, window) + if now - log[|log| - 1] < window then 1 else 0
  }

  ghost predicate AllIn(s: seq<real>, now: real, window: real) {
    forall i :: 0 <= i < |s| ==> now - s[i] < window
  }

  ghost predicate AllOut(s: seq<real>, now: real, window: real) {
    forall i :: 0 <= i < |s| ==> now - s[i] >= window
  }

  ghost predicate NoneAfter(s: seq<real>, last: real) {
    forall i :: 0 <= i < |s| ==> s[i] <= last
  }

  /** Accepted sends `limit` apart in the log are a full window apart in time. */
  ghost predicate Spaced(log: seq<real>, limit: int, window: real)
    requires limit >= 1
  {
    forall i, j :: 0 <= i && i + limit <= j < |log| ==> log[j] - log[i] >= window
  }

  /** The log is what was cut off, all out of the window by `last`, followed by the deque. */
  ghost predicate Tracks(gone: seq<real>, q: seq<real>, limit: int, window: real, last: real)
    requires limit >= 1
  {
    && |q| <= limit
    && Nondecreasing(q) && NoneAfter(q, last)
    && AllOut(gone, last, window)
    && Spaced(gone + q, limit, window)
  }

  lemma SuffixNondecreasing(a: seq<real>, b: seq<real>)
    requires Nondecreasing(a + b)
    ensures Nondecreasing(b)
  {
    assert forall i :: 0 <= i < |b| ==> b[i] == (a + b)[|a| + i];
  }

  /** Trimming removes a prefix of hits that have left the window ... */
  lemma {:induction false} LiveCuts(q: seq<real>, now: real, window: real) returns (cut: seq<real>)
    ensures q == cut + Live(q, now, window) && AllOut(cut, now, window)
  {
    cut := [];
    if q != [] && now - q[0] >= window {
      cut := LiveCuts(q[1..], now, window);
      cut := [q[0]] + cut;
    }
  }

  /** ... and leaves only hits still in it. */
  lemma {:induction false} LiveIsIn(q: seq<real>, now: real, window: real)
    requires Nondecreasing(q)
    ensures AllIn(Live(q, now, window), now, window) && Nondecreasing(Live(q, now, window))
  {
    if q != [] && now - q[0] >= window {
      assert q == [q[0]] + q[1..];
      SuffixNondecreasing([q[0]], q[1..]);
      LiveIsIn(q[1..], now, window);
    } else {
      assert forall i :: 0 < i < |q| ==> q[0] <= q[i];
    }
  }

  lemma Regroup(a: seq<real>, b: seq<real>, c: seq<real>)
    ensures (a + b) + c == a + (b + c)
  {
  }

  lemma StillOut(gone: seq<real>, cut: seq<real>, window: real, last: real, now: real)
    requires AllOut(gone, last, window) && last <= now && AllOut(cut, now, window)
    ensures AllOut(gone + cut, now, window)
  {
  }

  lemma NoneLater(cut: seq<real>, live: seq<real>, last: real, now: real)
    requires NoneAfter(cut + live, last) && last <= now
    ensures NoneAfter(live, now) && NoneAfter(live + [now], now)
    ensures Nondecreasing(live) ==> Nondecreasing(live + [now])
  {
    assert forall i :: 0 <= i < |live| ==> live[i] == (cut + live)[|cut| + i];
  }

  lemma AppendSpaced(gone: seq<real>, live: seq<real>, limit: int, window: real, now: real)
    requires limit >= 1 && |live| < limit && Spaced(gone + live, limit, window)
    requires AllOut(gone, now, window)
    ensures Spaced(gone + (live + [now]), limit, window)
  {
    var log := gone + (live + [now]);
    forall i, j | 0 <= i && i + limit <= j < |log| ensures log[j] - log[i] >= window {
      if j < |log| - 1 {
        assert (gone + live)[j] - (gone + live)[i] >= window;
      } else {
        assert log[i] == gone[i];
      }
    }
  }

  lemma AttemptTracks(gone: seq<real>, q: seq<real>, limit: int, window: real, last: real, now: real)
    returns (gone': seq<real>)
    requires limit >= 1 && last <= now && Tracks(gone, q, limit, window, last)
    ensures var (ok, _, q') := Attempt(q, limit, now, window);
            && Tracks(gone', q', limit, window, now)
            && gone' + q' == if ok then gone + q + [now] else gone + q
  {
    var live := Live(q, now, window);
    var cut := LiveCuts(q, now, window);
    LiveIsIn(q, now, window);
    gone' := gone + cut;
    Regroup(gone, cut, live);
    StillOut(gone, cut, window, last, now);
    NoneLater(cut, live, last, now);
    if |live| < limit {
      AppendSpaced(gone', live, limit, window, now);
      Regroup(gone', live, [now]);
    }
  }

  lemma {:induction false} PlayTracks(times: seq<real>, limit: int, window: real) returns (gone: seq<real>)
    requires limit >= 1 && Nondecreasing(times) && times != []
    ensures var (q, log) := Play(times, limit, window);
            log == gone + q && Tracks(gone, q, limit, window, times[|times| - 1])
  {
    var n := |times| - 1;
    if n > 0 {
      gone := PlayTracks(times[..n], limit, window);
      gone := AttemptTracks(gone, Play(times[..n], limit, window).0, limit, window, times[n - 1], times[n]);
    } else {
      gone := AttemptTracks([], [], limit, window, times[0], times[0]);
    }
  }

  lemma {:induction false} WindowCounts(gone: seq<real>, live: seq<real>, now: real, window: real)
    requires AllOut(gone, now, window)
    requires AllIn(live, now, window)
    ensures InWindow(gone + live, now, window) == |live|
    decreases |gone| + |live|
  {
    if live != [] {
      WindowCounts(gone, live[..|live| - 1], now, window);
      assert (gone + live)[..|gone + live| - 1] == gone + live[..|live| - 1];
    } else if gone != [] {
      WindowCounts(gone[..|gone| - 1], live, now, window);
      assert (gone + live)[..|gone + live| - 1] == gone[..|gone| - 1] + live;
    }
  }

  /** What an attempt at `now` finds after any history: the end of the accepted log, which is exactly
      the accepted sends still in the window, at most `limit` of them. */
  lemma DequeNow(times: seq<real>, limit: int, window: real, now: real)
    requires limit >= 1 && Nondecreasing(times) && NoneAfter(times, now)
    ensures var (q, log) := Play(times, limit, window);
            var live := Live(q, now, window);
            && |live| <= limit && Nondecreasing(live)
            && |live| <= |log| && live == log[|log| - |live|..]
            && AllIn(live, now, window) && AllOut(log[..|log| - |live|], now, window)
            && InWindow(log, now, window) == |live|
  {
    if times != [] {
      var gone := PlayTracks(times, limit, window);
      var (q, log) := Play(times, limit, window);
      LiveIsIn(q, now, window);
      var cut := LiveCuts(q, now, window);
      Regroup(gone, cut, Live(q, now, window));
      StillOut(gone, cut, window, times[|times| - 1], now);
      WindowCounts(gone + cut, Live(q, now, window), now, window);
      assert log == (gone + cut) + Live(q, now, window);
    }
  }

  /** Over any nondecreasing attempts under one limit, accepted send i + limit is at least a
      window after accepted send i. */
  lemma RollingLimit(times: seq<real>, limit: int, window: real)
    requires limit >= 1 && Nondecreasing(times)
    ensures Spaced(Play(times, limit, window).1, limit, window)
  {
    if times != [] {
      var gone := PlayTracks(times, limit, window);
    }
  }

  /** After any history, a send is refused exactly when `limit` accepted sends lie in the window
      that ends now; there are never more. */
  lemma RefusedIffFull(times: seq<real>, limit: int, window: real, now: real)
    requires limit >= 1 && Nondecreasing(times) && NoneAfter(times, now)
    ensures var (q, log) := Play(times, limit, window);
            && InWindow(log, now, window) <= limit
            && (!Attempt(q, limit, now, window).0 <==> InWindow(log, now, window) == limit)
  {
    DequeNow(times, limit, window, now);
  }

  /** A refusal's wait is exact: with nothing else sent, an attempt at any later time succeeds
      if and only if that wait has passed. */
  lemma WaitIsExact(times: seq<real>, limit: int, window: real, now: real, later: real)
    requires limit >= 1 && Nondecreasing(times) && NoneAfter(times, now) && later >= now
    requires !Attempt(Play(times, limit, window).0, limit, now, window).0
    ensures var (_, wait, q') := Attempt(Play(times, limit, window).0, limit, now, window);
            && wait > 0.0
            && (Attempt(q', limit, later, window).0 <==> later >= now + wait)
  {
    DequeNow(times, limit, window, now);
    var q := Play(times, limit, window).0;
    var live := Live(q, now, window);
    LiveIsIn(live, later, window);
    var cut := LiveCuts(live, later, window);
    if later >= now + (window - (now - live[0])) {
      assert Live(live, later, window) == Live(live[1..], later, window);
    }
  }
}
