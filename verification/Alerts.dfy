/** Alert routing (lib/alerts.py): `Plan` builds the next state as if every post were delivered,
    `Commit` rolls the failed ones back; ticks of the health monitor (lib/monitor_tick.py) chain them. */
module Alerts {
  import opened Ordering

  const RECENT_S := 600

  type AlertKey = string

  datatype Severity = Info | Warn | Critical
  datatype Finding = Finding(key: AlertKey, severity: Severity)
  datatype Entry = Entry(severity: Severity, last: int, repeats: int)
  type Keys = map<AlertKey, Entry>
  datatype State = State(keys: Keys, recent: seq<int>)
  datatype Config = Config(maxRepeats: int, repeatCriticalS: int, maxPosts: int)

  datatype Kind = NewWarn | FirstCritical | RepeatCritical | Resolved
  datatype Candidate = Candidate(kind: Kind, key: AlertKey)
  datatype Post = Single(cand: Candidate) | MoreFindings(rest: seq<Candidate>)

  function Lookup<T>(m: map<AlertKey, T>, k: AlertKey): Option<T> {
    if k in m then Some(m[k]) else None
  }

  /** The posts of the last ten minutes. */
  function Fresh(recent: seq<int>, t: int): seq<int> {
    if recent == [] then []
    else (if t - recent[0] < RECENT_S then [recent[0]] else []) + Fresh(recent[1..], t)
  }

  /** Of the posts so far and one more, each one of the last ten minutes is kept, in its order. */
  lemma {:induction false} FreshKeepsOrder(recent: seq<int>, x: int, t: int)
    ensures Fresh(recent + [x], t) == Fresh(recent, t) + if t < x + RECENT_S then [x] else []
  {
    if recent != [] {
      FreshKeepsOrder(recent[1..], x, t);
      assert (recent + [x])[1..] == recent[1..] + [x];
    }
  }

  lemma {:induction false} FreshIsRecent(recent: seq<int>, t: int)
    ensures forall x :: x in Fresh(recent, t) <==> x in recent && t < x + RECENT_S
  {
    if recent != [] {
      FreshIsRecent(recent[1..], t);
      assert forall x :: x in recent <==> x == recent[0] || x in recent[1..];
    }
  }

  /** The findings that alert, by key; the last one of a key wins. */
  function Current(findings: seq<Finding>): map<AlertKey, Severity> {
    if findings == [] then
      map[]
    else
      var f := findings[|findings| - 1];
      var before := Current(findings[..|findings| - 1]);
      if f.severity.Info? then before else before[f.key := f.severity]
  }

  /** What one key's alert would be, from its stored entry and its current severity. */
  function Alert(e: Option<Entry>, cur: Option<Severity>, t: int, cfg: Config): Option<Kind> {
    match cur
    case None => if e.Some? then Some(Resolved) else None
    case Some(Critical) =>
      if e.None? || !e.value.severity.Critical? then Some(FirstCritical)
      else if e.value.repeats < cfg.maxRepeats && t - e.value.last >= cfg.repeatCriticalS then Some(RepeatCritical)
      else None
    case Some(_) => if e.None? || e.value.severity.Info? then Some(NewWarn) else None
  }

  /** The key's entry once that alert is out. */
  function After(e: Option<Entry>, alert: Option<Kind>, t: int): Option<Entry> {
    match alert
    case None => e
    case Some(NewWarn) => Some(Entry(Warn, t, 0))
    case Some(FirstCritical) => Some(Entry(Critical, t, 0))
    case Some(RepeatCritical) => Some(Entry(Critical, t, if e.Some? then e.value.repeats + 1 else 1))
    case Some(Resolved) => None
  }

  function AlertOf(was: Keys, cur: map<AlertKey, Severity>, t: int, cfg: Config, k: AlertKey): Option<Kind> {
    Alert(Lookup(was, k), Lookup(cur, k), t, cfg)
  }

  ghost predicate DistinctCands(cands: seq<Candidate>) {
    forall i, j :: 0 <= i < j < |cands| ==> cands[i].key != cands[j].key
  }

  /** `cands` lists the alert of every key that has one, each key once. */
  ghost predicate Lists(cands: seq<Candidate>, was: Keys, cur: map<AlertKey, Severity>, t: int, cfg: Config) {
    && DistinctCands(cands)
    && forall kind, k :: Candidate(kind, k) in cands <==> AlertOf(was, cur, t, cfg, k) == Some(kind)
  }

  function Budget(recent: seq<int>, cfg: Config): nat {
    if cfg.maxPosts > |recent| then cfg.maxPosts - |recent| else 0
  }

  /** One post per alert while the budget lasts; past it, the last post stands for all the rest. */
  function Collapse(cands: seq<Candidate>, budget: nat): (posts: seq<Post>)
    ensures |posts| <= if budget > 1 then budget else 1
    ensures |cands| <= budget ==> |posts| == |cands|
  {
    if |cands| > budget then
      var kept := if budget > 0 then budget - 1 else 0;
      seq(kept, i requires 0 <= i < kept => Single(cands[i])) + [MoreFindings(cands[kept..])]
    else
      seq(|cands|, i requires 0 <= i < |cands| => Single(cands[i]))
  }

  predicate Covers(p: Post, k: AlertKey) {
    match p
    case Single(c) => c.key == k
    case MoreFindings(rest) => exists c :: c in rest && c.key == k
  }

  ghost predicate PlanOk(findings: seq<Finding>, was: State, cfg: Config, t: int, posts: seq<Post>, new': State) {
    var cur := Current(findings);
    && (exists cands :: Lists(cands, was.keys, cur, t, cfg)
                        && posts == Collapse(cands, Budget(Fresh(was.recent, t), cfg)))
    && (forall k :: Lookup(new'.keys, k) == After(Lookup(was.keys, k), AlertOf(was.keys, cur, t, cfg, k), t))
    && new'.recent == Fresh(was.recent, t) + seq(|posts|, _ => t)
  }

  /** The alerting findings in order of first appearance, and their severities. */
  method Gather(findings: seq<Finding>) returns (order: seq<AlertKey>, current: map<AlertKey, Severity>)
    ensures current == Current(findings)
    ensures forall k :: k in order <==> k in current
    ensures forall j, l :: 0 <= j < l < |order| ==> order[j] != order[l]
    ensures forall k :: k in current ==> !current[k].Info?
  {
    order, current := [], map[];
    for i := 0 to |findings|
      invariant current == Current(findings[..i])
      invariant forall k :: k in order <==> k in current
      invariant forall j, l :: 0 <= j < l < |order| ==> order[j] != order[l]
      invariant forall k :: k in current ==> !current[k].Info?
    {
      assert findings[..i + 1][..i] == findings[..i];
      var f := findings[i];
      if !f.severity.Info? {
        if f.key !in current {
          order := order + [f.key];
        }
        current := current[f.key := f.severity];
      }
    }
    assert findings[..|findings|] == findings;
  }

  /** The planned state when the alerts of exactly the keys in `done` have been planned. */
  ghost predicate Planned(was: Keys, cur: map<AlertKey, Severity>, t: int, cfg: Config,
                          done: set<AlertKey>, keys: Keys, cands: seq<Candidate>) {
    && DistinctCands(cands)
    && (forall kind, k :: Candidate(kind, k) in cands <==> k in done && AlertOf(was, cur, t, cfg, k) == Some(kind))
    && (forall k :: Lookup(keys, k) == if k in done then After(Lookup(was, k), AlertOf(was, cur, t, cfg, k), t)
                                       else Lookup(was, k))
  }

  /** One more key: its alert, if any, is appended and its entry replaced. */
  lemma PlannedMore(was: Keys, cur: map<AlertKey, Severity>, t: int, cfg: Config, done: set<AlertKey>,
                    keys: Keys, cands: seq<Candidate>, key: AlertKey, keys': Keys, cands': seq<Candidate>)
    requires Planned(was, cur, t, cfg, done, keys, cands) && key !in done
    requires var alert := AlertOf(was, cur, t, cfg, key);
             && cands' == (if alert.Some? then cands + [Candidate(alert.value, key)] else cands)
             && Lookup(keys', key) == After(Lookup(was, key), alert, t)
             && forall k :: k != key ==> Lookup(keys', k) == Lookup(keys, k)
    ensures Planned(was, cur, t, cfg, done + {key}, keys', cands')
  {
    forall i | 0 <= i < |cands| ensures cands[i].key != key {
      assert Candidate(cands[i].kind, cands[i].key) in cands;
    }
  }

  ghost function Elements(s: seq<AlertKey>): set<AlertKey> {
    set k | k in s
  }

  lemma OneMore(s: seq<AlertKey>, i: nat)
    requires i < |s| && forall j, l :: 0 <= j < l < |s| ==> s[j] != s[l]
    ensures s[i] in s && s[i] !in Elements(s[..i]) && Elements(s[..i + 1]) == Elements(s[..i]) + {s[i]}
  {
    assert s[..i + 1] == s[..i] + [s[i]];
  }

  /** The body of the loop over the findings. */
  method RaiseOne(key: AlertKey, severity: Severity, keys0: Keys, cands0: seq<Candidate>, t: int, cfg: Config)
    returns (keys: Keys, cands: seq<Candidate>)
    requires !severity.Info?
    ensures var alert := Alert(Lookup(keys0, key), Some(severity), t, cfg);
            && cands == (if alert.Some? then cands0 + [Candidate(alert.value, key)] else cands0)
            && Lookup(keys, key) == After(Lookup(keys0, key), alert, t)
    ensures forall k :: k != key ==> Lookup(keys, k) == Lookup(keys0, k)
  {
    keys, cands := keys0, cands0;
    var e := Lookup(keys, key);
    if severity.Warn? {
      if e.None? || !e.value.severity.Warn? {
        if e.None? || !e.value.severity.Critical? {
          cands := cands + [Candidate(NewWarn, key)];
          keys := keys[key := Entry(Warn, t, 0)];
        }
      }
    } else if e.None? || !e.value.severity.Critical? {
      cands := cands + [Candidate(FirstCritical, key)];
      keys := keys[key := Entry(Critical, t, 0)];
    } else if e.value.repeats < cfg.maxRepeats && t - e.value.last >= cfg.repeatCriticalS {
      cands := cands + [Candidate(RepeatCritical, key)];
      keys := keys[key := Entry(Critical, t, e.value.repeats + 1)];
    }
  }

  method RaiseAlerts(order: seq<AlertKey>, current: map<AlertKey, Severity>, was: Keys, t: int, cfg: Config)
    returns (keys: Keys, cands: seq<Candidate>)
    requires forall k :: k in order <==> k in current
    requires forall j, l :: 0 <= j < l < |order| ==> order[j] != order[l]
    requires forall k :: k in current ==> !current[k].Info?
    ensures Planned(was, current, t, cfg, current.Keys, keys, cands)
  {
    keys, cands := was, [];
    for i := 0 to |order|
      invariant Planned(was, current, t, cfg, Elements(order[..i]), keys, cands)
    {
      var key := order[i];
      OneMore(order, i);
      ghost var keys0, cands0 := keys, cands;
      keys, cands := RaiseOne(key, current[key], keys, cands, t, cfg);
      PlannedMore(was, current, t, cfg, Elements(order[..i]), keys0, cands0, key, keys, cands);
    }
    assert order[..|order|] == order && Elements(order) == current.Keys;
  }

  lemma DoneGrows(cur: set<AlertKey>, all: set<AlertKey>, left: set<AlertKey>, key: AlertKey)
    requires left <= all && key in left
    ensures cur + (all - (left - {key})) == cur + (all - left) + {key}
    ensures key !in cur ==> key !in cur + (all - left)
  {
  }

  /** One remembered key: if nothing is found for it, it is announced and dropped. */
  method ResolveOne(key: AlertKey, current: map<AlertKey, Severity>, keys0: Keys, cands0: seq<Candidate>)
    returns (keys: Keys, cands: seq<Candidate>)
    requires key in current || key in keys0
    ensures key in current ==> keys == keys0 && cands == cands0
    ensures key !in current ==> cands == cands0 + [Candidate(Resolved, key)] && Lookup(keys, key) == None
    ensures forall k :: k != key ==> Lookup(keys, k) == Lookup(keys0, k)
  {
    keys, cands := keys0, cands0;
    if key !in current {
      cands := cands + [Candidate(Resolved, key)];
      keys := keys - {key};
    }
  }

  method ResolveGone(current: map<AlertKey, Severity>, was: Keys, t: int, cfg: Config,
                     keys0: Keys, cands0: seq<Candidate>)
    returns (keys: Keys, cands: seq<Candidate>)
    requires Planned(was, current, t, cfg, current.Keys, keys0, cands0)
    ensures Planned(was, current, t, cfg, current.Keys + keys0.Keys, keys, cands)
  {
    keys, cands := keys0, cands0;
    var left := keys0.Keys;
    while left != {}
      invariant left <= keys0.Keys
      invariant Planned(was, current, t, cfg, current.Keys + (keys0.Keys - left), keys, cands)
    {
      var key :| key in left;
      DoneGrows(current.Keys, keys0.Keys, left, key);
      ghost var before, posted, done := keys, cands, current.Keys + (keys0.Keys - left);
      assert key !in current ==> Lookup(before, key) == Lookup(was, key) == Lookup(keys0, key);
      keys, cands := ResolveOne(key, current, keys, cands);
      if key !in current {
        PlannedMore(was, current, t, cfg, done, before, posted, key, keys, cands);
      } else {
        assert done + {key} == done;
      }
      left := left - {key};
    }
    assert keys0.Keys - left == keys0.Keys;
  }

  method Emit(cands: seq<Candidate>, budget: nat) returns (posts: seq<Post>)
    ensures posts == Collapse(cands, budget)
  {
    var kept := if |cands| <= budget then |cands| else if budget > 0 then budget - 1 else 0;
    posts := [];
    for i := 0 to kept
      invariant posts == seq(i, j requires 0 <= j < i => Single(cands[j]))
    {
      posts := posts + [Single(cands[i])];
    }
    if |cands| > budget {
      posts := posts + [MoreFindings(cands[kept..])];
    }
  }

  method Plan(findings: seq<Finding>, was: State, cfg: Config, t: int) returns (posts: seq<Post>, new': State)
    ensures PlanOk(findings, was, cfg, t, posts, new')
  {
    var recent := Fresh(was.recent, t);
    var order, current := Gather(findings);
    var keys0, cands0 := RaiseAlerts(order, current, was.keys, t, cfg);
    var keys, cands := ResolveGone(current, was.keys, t, cfg, keys0, cands0);
    ghost var done := current.Keys + keys0.Keys;
    forall k | k !in done ensures AlertOf(was.keys, current, t, cfg, k) == None {
      assert Lookup(keys0, k) == Lookup(was.keys, k);
    }
    assert Lists(cands, was.keys, current, t, cfg);
    var room := cfg.maxPosts - |recent|;
    posts := Emit(cands, if room < 0 then 0 else room);
    new' := State(keys, recent + seq(|posts|, _ => t));
  }

  // ---- commit ----

  /** How many of the first `n` posts failed. */
  function Failures(results: seq<bool>, n: nat): (f: nat)
    requires n <= |results|
    ensures f <= n
  {
    if n == 0 then 0 else Failures(results, n - 1) + if results[n - 1] then 0 else 1
  }

  ghost predicate RolledBack(posts: seq<Post>, results: seq<bool>, n: nat, k: AlertKey)
    requires n <= |posts| && n <= |results|
  {
    exists i :: 0 <= i < n && !results[i] && Covers(posts[i], k)
  }

  ghost predicate CommitOk(was: State, new': State, posts: seq<Post>, results: seq<bool>, out: State)
    requires |posts| == |results|
  {
    && (forall k :: Lookup(out.keys, k) ==
                    Lookup(if RolledBack(posts, results, |posts|, k) then was.keys else new'.keys, k))
    && out.recent == DropLast(new'.recent, Failures(results, |results|))
  }

  function DropLast(s: seq<int>, n: nat): seq<int> {
    if n >= |s| then [] else s[..|s| - n]
  }

  function KeysOf(p: Post): seq<AlertKey> {
    match p
    case Single(c) => [c.key]
    case MoreFindings(rest) => seq(|rest|, i requires 0 <= i < |rest| => rest[i].key)
  }

  lemma KeysOfCovers(p: Post)
    ensures forall k :: k in KeysOf(p) <==> Covers(p, k)
  {
    forall k ensures k in KeysOf(p) <==> Covers(p, k) {
      if p.MoreFindings? {
        if c :| c in p.rest && c.key == k {
          var i :| 0 <= i < |p.rest| && p.rest[i] == c;
          assert KeysOf(p)[i] == k;
        }
      }
    }
  }

  method Commit(was: State, new': State, posts: seq<Post>, results: seq<bool>) returns (out: State)
    requires |posts| == |results|
    ensures CommitOk(was, new', posts, results, out)
  {
    var keys, recent := new'.keys, new'.recent;
    for i := 0 to |posts|
      invariant forall k ::
          Lookup(keys, k) == Lookup(if RolledBack(posts, results, i, k) then was.keys else new'.keys, k)
      invariant recent == DropLast(new'.recent, Failures(results, i))
    {
      ghost var before := keys;
      if !results[i] {
        if recent != [] {
          recent := recent[..|recent| - 1];
        }
        var ks := KeysOf(posts[i]);
        KeysOfCovers(posts[i]);
        for j := 0 to |ks|
          invariant forall k :: Lookup(keys, k) == Lookup(if k in ks[..j] then was.keys else before, k)
        {
          var k := ks[j];
          assert ks[..j + 1] == ks[..j] + [k];
          keys := if k in was.keys then keys[k := was.keys[k]] else keys - {k};
        }
        assert ks[..|ks|] == ks;
      }
      assert forall k :: RolledBack(posts, results, i + 1, k) <==>
          RolledBack(posts, results, i, k) || (!results[i] && Covers(posts[i], k));
    }
    out := State(keys, recent);
  }

  // ---- one tick: plan, send, commit ----

  datatype Tick = Tick(findings: seq<Finding>, t: int, posts: seq<Post>, planned: State, results: seq<bool>)

  ghost predicate TickOk(was: State, tick: Tick, cfg: Config, out: State) {
    && PlanOk(tick.findings, was, cfg, tick.t, tick.posts, tick.planned)
    && |tick.results| == |tick.posts|
    && CommitOk(was, tick.planned, tick.posts, tick.results, out)
  }

  /** The alert stage of a monitor tick; `send` says which posts get through. The plan's state is
      only a step on the way: what is kept is the commit of what was sent. */
  method MonitorTick(findings: seq<Finding>, was: State, cfg: Config, t: int, send: Post -> bool)
    returns (out: State, posts: seq<Post>, results: seq<bool>)
    ensures |results| == |posts| && forall i :: 0 <= i < |posts| ==> results[i] == send(posts[i])
    ensures exists planned :: TickOk(was, Tick(findings, t, posts, planned, results), cfg, out)
  {
    var planned;
    posts, planned := Plan(findings, was, cfg, t);
    results := [];
    for i := 0 to |posts|
      invariant |results| == i && forall j :: 0 <= j < i ==> results[j] == send(posts[j])
    {
      results := results + [send(posts[i])];
    }
    out := Commit(was, planned, posts, results);
    assert TickOk(was, Tick(findings, t, posts, planned, results), cfg, out);
  }

  /** The alert a delivered post carried for `k`, if any. */
  ghost function Delivered(was: State, tick: Tick, cfg: Config, k: AlertKey): Option<Kind> {
    if exists i :: 0 <= i < |tick.posts| && i < |tick.results| && tick.results[i] && Covers(tick.posts[i], k)
    then AlertOf(was.keys, Current(tick.findings), tick.t, cfg, k) else None
  }

  /** Of `n` posts, the one that carries candidate `j`. */
  function PostOf(j: int, n: int): int {
    if j < n then j else n - 1
  }

  lemma RestCovers(cands: seq<Candidate>, kept: nat, k: AlertKey)
    requires kept <= |cands|
    ensures Covers(MoreFindings(cands[kept..]), k) <==> exists j :: kept <= j < |cands| && cands[j].key == k
  {
    var rest := cands[kept..];
    if c :| c in rest && c.key == k {
      var m :| 0 <= m < |rest| && rest[m] == c;
      assert cands[kept + m] == c;
    }
    if j :| kept <= j < |cands| && cands[j].key == k {
      assert rest[j - kept] == cands[j];
    }
  }

  lemma CollapsedPost(cands: seq<Candidate>, budget: nat, i: nat, k: AlertKey)
    requires i < |Collapse(cands, budget)|
    ensures Covers(Collapse(cands, budget)[i], k) <==>
            exists j :: 0 <= j < |cands| && cands[j].key == k && i == PostOf(j, |Collapse(cands, budget)|)
  {
    var posts := Collapse(cands, budget);
    if |cands| > budget && i == |posts| - 1 {
      RestCovers(cands, i, k);
      assert forall j :: 0 <= j < |cands| ==> (i == PostOf(j, |posts|) <==> i <= j);
    } else {
      assert posts[i] == Single(cands[i]);
      assert forall j :: 0 <= j < |cands| ==> (i == PostOf(j, |posts|) <==> i == j);
    }
  }

  /** The posts split the alerting keys: each key with an alert is covered by exactly one post,
      every other key by none. */
  lemma PostsSplitAlerts(findings: seq<Finding>, was: State, cfg: Config, t: int, posts: seq<Post>, new': State)
    requires PlanOk(findings, was, cfg, t, posts, new')
    ensures forall i, j, k :: 0 <= i < j < |posts| ==> !(Covers(posts[i], k) && Covers(posts[j], k))
    ensures forall k :: AlertOf(was.keys, Current(findings), t, cfg, k).Some? <==>
                        exists i :: 0 <= i < |posts| && Covers(posts[i], k)
    ensures var room := cfg.maxPosts - |Fresh(was.recent, t)|; |posts| <= if room > 1 then room else 1
  {
    var cur := Current(findings);
    var budget := Budget(Fresh(was.recent, t), cfg);
    var cands: seq<Candidate> :| Lists(cands, was.keys, cur, t, cfg) && posts == Collapse(cands, budget);
    forall i, k | 0 <= i < |posts|
      ensures Covers(posts[i], k) <==>
              exists j :: 0 <= j < |cands| && cands[j].key == k && i == PostOf(j, |posts|)
    {
      CollapsedPost(cands, budget, i, k);
    }
    forall k ensures AlertOf(was.keys, cur, t, cfg, k).Some? <==> exists i :: 0 <= i < |posts| && Covers(posts[i], k) {
      var alert := AlertOf(was.keys, cur, t, cfg, k);
      if alert.Some? {
        assert Candidate(alert.value, k) in cands;
        var j :| 0 <= j < |cands| && cands[j] == Candidate(alert.value, k);
        var i := PostOf(j, |posts|);
        assert Covers(posts[i], k);
      }
      if i :| 0 <= i < |posts| && Covers(posts[i], k) {
        var j :| 0 <= j < |cands| && cands[j].key == k;
        assert Candidate(cands[j].kind, k) in cands;
      }
    }
  }

  lemma FailedForGood(posts: seq<Post>, results: seq<bool>, k: AlertKey)
    requires |results| == |posts| && RolledBack(posts, results, |posts|, k)
    requires forall i, j, k :: 0 <= i < j < |posts| ==> !(Covers(posts[i], k) && Covers(posts[j], k))
    ensures forall j :: 0 <= j < |posts| && results[j] ==> !Covers(posts[j], k)
  {
    var i :| 0 <= i < |posts| && !results[i] && Covers(posts[i], k);
  }

  lemma TickEntry(was: State, tick: Tick, cfg: Config, out: State, k: AlertKey)
    requires TickOk(was, tick, cfg, out)
    ensures Lookup(out.keys, k) == After(Lookup(was.keys, k), Delivered(was, tick, cfg, k), tick.t)
  {
    PostsSplitAlerts(tick.findings, was, cfg, tick.t, tick.posts, tick.planned);
    if RolledBack(tick.posts, tick.results, |tick.posts|, k) {
      FailedForGood(tick.posts, tick.results, k);
    } else if AlertOf(was.keys, Current(tick.findings), tick.t, cfg, k).Some? {
      var i :| 0 <= i < |tick.posts| && Covers(tick.posts[i], k);
      assert tick.results[i];
    }
  }

  /** One tick, key by key: a key whose post was delivered gets its planned entry, every other
      key keeps exactly the entry it had; `recent` grows by exactly the delivered posts. */
  lemma TickFrame(was: State, tick: Tick, cfg: Config, out: State)
    requires TickOk(was, tick, cfg, out)
    ensures forall k :: Lookup(out.keys, k) == After(Lookup(was.keys, k), Delivered(was, tick, cfg, k), tick.t)
    ensures out.recent ==
        Fresh(was.recent, tick.t) + seq(|tick.posts| - Failures(tick.results, |tick.posts|), _ => tick.t)
  {
    forall k {
      TickEntry(was, tick, cfg, out, k);
    }
  }

  /** The ten-minute cap is no hard limit: a tick posts past it exactly when no room is left and
      some key alerts, and then by one post. */
  lemma CapOverrun(findings: seq<Finding>, was: State, cfg: Config, t: int, posts: seq<Post>, new': State)
    requires PlanOk(findings, was, cfg, t, posts, new')
    ensures var used := |Fresh(was.recent, t)|;
            && (used + |posts| > cfg.maxPosts && posts != [] <==> used >= cfg.maxPosts && Alerts(findings, was, cfg, t))
            && (used >= cfg.maxPosts ==> |posts| <= 1)
  {
    PostsSplitAlerts(findings, was, cfg, t, posts, new');
    var cands: seq<Candidate> :| Lists(cands, was.keys, Current(findings), t, cfg)
                                 && posts == Collapse(cands, Budget(Fresh(was.recent, t), cfg));
    if cands != [] {
      assert Candidate(cands[0].kind, cands[0].key) in cands;
      assert Alerts(findings, was, cfg, t);
    }
    if Alerts(findings, was, cfg, t) {
      var k :| AlertOf(was.keys, Current(findings), t, cfg, k).Some?;
      var i :| 0 <= i < |posts| && Covers(posts[i], k);
    }
  }

  ghost predicate Alerts(findings: seq<Finding>, was: State, cfg: Config, t: int) {
    exists k :: AlertOf(was.keys, Current(findings), t, cfg, k).Some?
  }

  // ---- runs ----

  datatype Sent = Sent(kind: Kind, at: int)

  ghost predicate IsRun(states: seq<State>, ticks: seq<Tick>, cfg: Config) {
    && |states| == |ticks| + 1 && states[0] == State(map[], [])
    && forall i :: 0 <= i < |ticks| ==> TickOk(states[i], ticks[i], cfg, states[i + 1])
  }

  function NextEpisode(log: seq<Sent>, delivered: Option<Kind>, t: int): seq<Sent> {
    match delivered
    case None => log
    case Some(Resolved) => []
    case Some(kind) => log + [Sent(kind, t)]
  }

  /** What was delivered for `k` in the first `n` ticks since its last delivered "resolved". */
  ghost function Episode(states: seq<State>, ticks: seq<Tick>, cfg: Config, k: AlertKey, n: nat): seq<Sent>
    requires n <= |ticks| && n <= |states|
    decreases n
  {
    if n == 0 then []
    else
      var tick := ticks[n - 1];
      NextEpisode(Episode(states, ticks, cfg, k, n - 1), Delivered(states[n - 1], tick, cfg, k), tick.t)
  }

  /** At most one warn (`w` says how many), then at most one first critical, then repeats: no more
      than `maxRepeats`, and successive criticals at least `repeatCriticalS` apart. */
  ghost predicate EpisodeShape(log: seq<Sent>, w: nat, cfg: Config) {
    && w <= 1 && w <= |log|
    && (forall i :: 0 <= i < w ==> log[i].kind == NewWarn)
    && (w < |log| ==> log[w].kind == FirstCritical)
    && (forall i :: w < i < |log| ==> log[i].kind == RepeatCritical)
    && (|log| > w + 1 ==> |log| - w - 1 <= cfg.maxRepeats)
    && (forall i :: w < i < |log| ==> log[i].at - log[i - 1].at >= cfg.repeatCriticalS)
  }

  /** What a key's stored entry says about its episode. */
  ghost predicate Reflects(e: Option<Entry>, log: seq<Sent>, w: nat) {
    match e
    case None => log == [] && w == 0
    case Some(Entry(Critical, last, repeats)) => w < |log| && |log| - w - 1 == repeats && log[|log| - 1].at == last
    case Some(Entry(severity, last, repeats)) => severity == Warn && w == 1 && |log| == 1
  }

  ghost predicate Tracked(e: Option<Entry>, log: seq<Sent>, cfg: Config) {
    exists w :: EpisodeShape(log, w, cfg) && Reflects(e, log, w)
  }

  lemma EpisodeStep(e: Option<Entry>, cur: Option<Severity>, t: int, cfg: Config, log: seq<Sent>,
                    delivered: Option<Kind>)
    requires Tracked(e, log, cfg) && (delivered.None? || delivered == Alert(e, cur, t, cfg))
    ensures Tracked(After(e, delivered, t), NextEpisode(log, delivered, t), cfg)
  {
    var w :| EpisodeShape(log, w, cfg) && Reflects(e, log, w);
    var log', e' := NextEpisode(log, delivered, t), After(e, delivered, t);
    match delivered
    case None =>
    case Some(Resolved) => assert EpisodeShape(log', 0, cfg) && Reflects(e', log', 0);
    case Some(NewWarn) => assert EpisodeShape(log', 1, cfg) && Reflects(e', log', 1);
    case Some(FirstCritical) => assert EpisodeShape(log', w, cfg) && Reflects(e', log', w);
    case Some(RepeatCritical) => assert EpisodeShape(log', w, cfg) && Reflects(e', log', w);
  }

  lemma TickTracked(was: State, tick: Tick, cfg: Config, out: State, k: AlertKey, log: seq<Sent>)
    requires TickOk(was, tick, cfg, out) && Tracked(Lookup(was.keys, k), log, cfg)
    ensures Tracked(Lookup(out.keys, k), NextEpisode(log, Delivered(was, tick, cfg, k), tick.t), cfg)
  {
    var delivered := Delivered(was, tick, cfg, k);
    TickEntry(was, tick, cfg, out, k);
    EpisodeStep(Lookup(was.keys, k), Lookup(Current(tick.findings), k), tick.t, cfg, log, delivered);
  }

  lemma {:induction false} EpisodeReflected(states: seq<State>, ticks: seq<Tick>, cfg: Config, k: AlertKey, n: nat)
    requires IsRun(states, ticks, cfg) && n <= |ticks|
    ensures Tracked(Lookup(states[n].keys, k), Episode(states, ticks, cfg, k, n), cfg)
    decreases n
  {
    if n == 0 {
      assert EpisodeShape([], 0, cfg) && Reflects(None, [], 0);
    } else {
      EpisodeReflected(states, ticks, cfg, k, n - 1);
      TickTracked(states[n - 1], ticks[n - 1], cfg, states[n - 1 + 1], k, Episode(states, ticks, cfg, k, n - 1));
    }
  }

  /** Over any run with any send failures, what a key's owner sees between two "resolved" posts is
      at most one warn, at most one first critical and at most `maxRepeats` spaced repeats. */
  lemma EpisodesAreBounded(states: seq<State>, ticks: seq<Tick>, cfg: Config, k: AlertKey, n: nat)
    requires IsRun(states, ticks, cfg) && n <= |ticks|
    ensures exists w :: EpisodeShape(Episode(states, ticks, cfg, k, n), w, cfg)
  {
    EpisodeReflected(states, ticks, cfg, k, n);
  }

  // ---- the cap is passed ----

  function SolePosts(was: State, cfg: Config, t: int, kind: Kind, k: AlertKey): seq<Post> {
    Collapse([Candidate(kind, k)], Budget(Fresh(was.recent, t), cfg))
  }

  /** A tick in which a single key alerts and everything sent gets through. */
  lemma SoleAlert(findings: seq<Finding>, was: State, cfg: Config, t: int, kind: Kind, k: AlertKey, e: Entry)
    returns (out: State)
    requires AlertOf(was.keys, Current(findings), t, cfg, k) == Some(kind)
    requires forall j :: j != k ==> AlertOf(was.keys, Current(findings), t, cfg, j).None?
    requires After(Lookup(was.keys, k), Some(kind), t) == Some(e)
    ensures out == State(was.keys[k := e], Fresh(was.recent, t) + [t])
    ensures TickOk(was, Tick(findings, t, SolePosts(was, cfg, t, kind, k), out, [true]), cfg, out)
  {
    var cands := [Candidate(kind, k)];
    var posts := SolePosts(was, cfg, t, kind, k);
    out := State(was.keys[k := e], Fresh(was.recent, t) + [t]);
    assert Lists(cands, was.keys, Current(findings), t, cfg);
    assert |posts| == 1 && seq(1, _ => t) == [t];
    assert PlanOk(findings, was, cfg, t, posts, out);
    assert Failures([true], 1) == 0;
  }

  lemma CriticalsOf(a: AlertKey, b: AlertKey)
    requires a != b
    ensures Current([Finding(a, Critical)]) == map[a := Critical]
    ensures Current([Finding(a, Critical), Finding(b, Critical)]) == map[a := Critical, b := Critical]
  {
    var f, g := [Finding(a, Critical)], [Finding(a, Critical), Finding(b, Critical)];
    assert f[..0] == [] && g[..1] == f;
  }

  lemma BothFresh()
    ensures Fresh([], 0) == [] && Fresh([0], 1) == [0] && Fresh([0, 1], 1) == [0, 1]
  {
    assert [0, 1][1..] == [1] && [1][1..] == [];
  }

  const ONE_POST := Config(0, 3600, 1)

  function Turned(at: int): Entry {
    Entry(Critical, at, 0)
  }

  lemma FirstPost(a: AlertKey) returns (tick: Tick)
    ensures tick.t == 0 && TickOk(State(map[], []), tick, ONE_POST, State(map[a := Turned(0)], [0]))
  {
    var f, was := [Finding(a, Critical)], State(map[], []);
    assert f[..0] == [] && Current(f) == map[a := Critical];
    var out := SoleAlert(f, was, ONE_POST, 0, FirstCritical, a, Turned(0));
    assert out == State(map[a := Turned(0)], [0]);
    tick := Tick(f, 0, SolePosts(was, ONE_POST, 0, FirstCritical, a), out, [true]);
  }

  lemma SecondPost(a: AlertKey, b: AlertKey) returns (tick: Tick)
    requires a != b
    ensures tick.t == 1
    ensures TickOk(State(map[a := Turned(0)], [0]), tick, ONE_POST, State(map[a := Turned(0), b := Turned(1)], [0, 1]))
  {
    var g, was := [Finding(a, Critical), Finding(b, Critical)], State(map[a := Turned(0)], [0]);
    CriticalsOf(a, b);
    BothFresh();
    var out := SoleAlert(g, was, ONE_POST, 1, FirstCritical, b, Turned(1));
    assert out == State(map[a := Turned(0), b := Turned(1)], [0, 1]);
    tick := Tick(g, 1, SolePosts(was, ONE_POST, 1, FirstCritical, b), out, [true]);
  }

  /** The cap is passed: with room for one post in ten minutes, two keys that turn critical one
      second apart are both posted. */
  lemma CapIsPassed(a: AlertKey, b: AlertKey) returns (states: seq<State>, ticks: seq<Tick>)
    requires a != b
    ensures IsRun(states, ticks, ONE_POST) && |ticks| == 2 && ONE_POST.maxPosts == 1
    ensures Fresh(states[1].recent, ticks[1].t) == states[1].recent && |states[1].recent| == ONE_POST.maxPosts
    ensures |states[2].recent| == 2 > ONE_POST.maxPosts && Fresh(states[2].recent, ticks[1].t) == states[2].recent
  {
    BothFresh();
    var first := FirstPost(a);
    var second := SecondPost(a, b);
    states := [State(map[], []), State(map[a := Turned(0)], [0]), State(map[a := Turned(0), b := Turned(1)], [0, 1])];
    ticks := [first, second];
  }
}
