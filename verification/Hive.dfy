/** The rules of hive calls (lib/hive.py): reachability over open calls, and the choice of a callee. */
module Hive {
  import opened Ordering

  type Shard = string

  /** For each shard the shards it is blocked on. */
  type Waits = map<Shard, set<Shard>>

  function Callees(g: Waits, s: Shard): set<Shard> {
    if s in g then g[s] else {}
  }

  ghost predicate Path(g: Waits, p: seq<Shard>) {
    forall i :: 0 <= i < |p| - 1 ==> p[i + 1] in Callees(g, p[i])
  }

  ghost predicate Link(g: Waits, p: seq<Shard>, from: Shard, to: Shard) {
    p != [] && p[0] == from && p[|p| - 1] == to && Path(g, p)
  }

  ghost predicate Reaches(g: Waits, from: Shard, to: Shard) {
    exists p :: Link(g, p, from, to)
  }

  /** No shard waits, directly or through other calls, on itself. */
  ghost predicate Acyclic(g: Waits) {
    forall p :: |p| > 1 && Path(g, p) ==> p[0] != p[|p| - 1]
  }

  lemma ReachesStep(g: Waits, from: Shard, mid: Shard, to: Shard)
    requires Reaches(g, from, mid) && to in Callees(g, mid)
    ensures Reaches(g, from, to)
  {
    var p :| Link(g, p, from, mid);
    assert Link(g, p + [to], from, to);
  }

  ghost predicate Within(s: seq<Shard>, all: set<Shard>) {
    forall x :: x in s ==> x in all
  }

  /** A set closed under "waits for" that holds the start of a path holds the whole path. */
  lemma {:induction false} ClosedHoldsPath(g: Waits, closed: set<Shard>, p: seq<Shard>)
    requires p != [] && p[0] in closed && Path(g, p)
    requires forall x, y :: x in closed && y in Callees(g, x) ==> y in closed
    ensures p[|p| - 1] in closed
    decreases |p|
  {
    if |p| > 1 {
      assert p[1] in Callees(g, p[0]);
      ClosedHoldsPath(g, closed, p[1..]);
    }
  }

  /** Exact reachability, on any finite graph. */
  method WouldDeadlock(waitsFor: Waits, caller: Shard, callee: Shard) returns (r: bool)
    ensures r <==> Reaches(waitsFor, callee, caller)
  {
    assert Link(waitsFor, [callee], callee, callee);
    if callee == caller {
      return true;
    }
    ghost var all := {callee} + set s, x | s in waitsFor && x in waitsFor[s] :: x;
    var seen: set<Shard> := {};
    var stack := [callee];
    while stack != []
      invariant seen <= all && Within(stack, all)
      invariant forall x :: x in seen || x in stack ==> Reaches(waitsFor, callee, x)
      invariant callee in seen || callee in stack
      invariant forall x, y :: x in seen && y in Callees(waitsFor, x) ==> y in seen || y in stack
      invariant caller !in seen
      invariant caller !in stack
      decreases all - seen, |stack|
    {
      var cur := stack[|stack| - 1];
      ghost var stack0 := stack;
      stack := stack[..|stack| - 1];
      assert stack0 == stack + [cur];
      if cur in seen {
        continue;
      }
      seen := seen + {cur};
      var todo := Callees(waitsFor, cur);
      while todo != {}
        invariant todo <= Callees(waitsFor, cur)
        invariant Within(stack, all) && caller !in stack
        invariant forall x :: x in stack0 && x != cur ==> x in stack
        invariant forall x :: x in stack ==> Reaches(waitsFor, callee, x)
        invariant forall y :: y in Callees(waitsFor, cur) && y !in todo ==> y in stack
        decreases todo
      {
        var nxt :| nxt in todo;
        ReachesStep(waitsFor, callee, cur, nxt);
        if nxt == caller {
          return true;
        }
        stack := stack + [nxt];
        todo := todo - {nxt};
      }
    }
    if p :| Link(waitsFor, p, callee, caller) {
      ClosedHoldsPath(waitsFor, seen, p);
    }
    return false;
  }

  // ---- target choice ----

  datatype Spec = Spec(id: Shard, agent: string)
  datatype RunState = Idle | Processing | ErrorRecovery
  datatype Kind = Call | Buzz
  datatype Refusal = UnknownTarget | SelfCall | CalleePaused | NoAvailableShard | Deadlock
  datatype Choice = Chosen(callee: Shard) | Refused(why: Refusal)

  /** What the choice looks at besides the target's name. */
  datatype Scene = Scene(states: map<Shard, RunState>, depths: map<Shard, int>, waits: Waits, paused: set<Shard>)

  datatype Candidate = Candidate(id: Shard, rank: int)

  function IdsOf(specs: seq<Spec>, agent: string): (r: seq<Shard>)
    ensures r != [] <==> exists i :: 0 <= i < |specs| && specs[i].agent == agent
    ensures forall s :: s in r <==> Spec(s, agent) in specs
  {
    if specs == [] then []
    else (if specs[0].agent == agent then [specs[0].id] else []) + IdsOf(specs[1..], agent)
  }

  predicate Known(specs: seq<Spec>, id: Shard) {
    exists i :: 0 <= i < |specs| && specs[i].id == id
  }

  /** An agent's shards in configured order, or the one shard of that id; an id that is both
      means the agent. */
  function Targets(specs: seq<Spec>, to: string): seq<Shard> {
    if IdsOf(specs, to) != [] then IdsOf(specs, to) else if Known(specs, to) then [to] else []
  }

  predicate NamesShard(specs: seq<Spec>, to: string) {
    IdsOf(specs, to) == [] && Known(specs, to)
  }

  function Without(s: seq<Shard>, caller: Shard): (r: seq<Shard>)
    ensures forall x :: x in r <==> x in s && x != caller
  {
    if s == [] then [] else (if s[0] != caller then [s[0]] else []) + Without(s[1..], caller)
  }

  predicate TargetsSelf(specs: seq<Spec>, to: string, caller: Shard) {
    var cands := Targets(specs, to);
    caller in cands && (NamesShard(specs, to) || Without(cands, caller) == [])
  }

  predicate Available(sc: Scene, s: Shard) {
    !(s in sc.states && sc.states[s].ErrorRecovery?) && s !in sc.paused
  }

  /** Idle shards first, then the shorter queue, then configured order. */
  function Preference(sc: Scene, c: Candidate): Key {
    Key(if c.id in sc.states && !sc.states[c.id].Idle? then 1 else 0,
        if c.id in sc.depths then sc.depths[c.id] else 0, c.rank, 0)
  }

  /** What that order means: an idle shard before one that is not, then the shorter queue, then the
      earlier place. */
  predicate Preferred(sc: Scene, c: Candidate, d: Candidate) {
    var cIdle := c.id !in sc.states || sc.states[c.id].Idle?;
    var dIdle := d.id !in sc.states || sc.states[d.id].Idle?;
    var cDepth := if c.id in sc.depths then sc.depths[c.id] else 0;
    var dDepth := if d.id in sc.depths then sc.depths[d.id] else 0;
    || (cIdle && !dIdle)
    || (cIdle == dIdle && cDepth < dDepth)
    || (cIdle == dIdle && cDepth == dDepth && c.rank < d.rank)
  }

  lemma PreferenceMeans(sc: Scene, c: Candidate, d: Candidate)
    ensures Less(Preference(sc, c), Preference(sc, d)) <==> Preferred(sc, c, d)
  {
  }

  function Ranked(ids: seq<Shard>): (r: seq<Candidate>)
    ensures |r| == |ids| && forall i :: 0 <= i < |ids| ==> r[i] == Candidate(ids[i], i)
  {
    seq(|ids|, i requires 0 <= i < |ids| => Candidate(ids[i], i))
  }

  /** The shards a call by `caller` could go to. */
  ghost predicate Free(sc: Scene, caller: Shard, c: Candidate) {
    Available(sc, c.id) && !Reaches(sc.waits, c.id, caller)
  }

  /** A buzz never blocks, so it may go to a shard that waits on the caller. */
  ghost predicate Fit(sc: Scene, caller: Shard, kind: Kind, c: Candidate) {
    if kind.Buzz? then Available(sc, c.id) else Free(sc, caller, c)
  }

  /** `s` is the preferred one of the candidates that fit. */
  ghost predicate Best(sc: Scene, cands: seq<Candidate>, caller: Shard, kind: Kind, s: Shard) {
    exists c :: c in cands && Fit(sc, caller, kind, c) && c.id == s &&
      forall d :: d in cands && Fit(sc, caller, kind, d) && d != c ==> Preferred(sc, c, d)
  }

  /** The choice among the shards other than the caller. */
  ghost predicate ChoiceAmong(sc: Scene, others: seq<Candidate>, caller: Shard, kind: Kind, r: Choice) {
    if forall c :: c in others ==> !Available(sc, c.id) then
      r == Refused(if forall c :: c in others ==> c.id in sc.paused then CalleePaused else NoAvailableShard)
    else if kind.Call? && forall c :: c in others ==> !Free(sc, caller, c) then
      r == Refused(Deadlock)
    else
      r.Chosen? && Best(sc, others, caller, kind, r.callee)
  }

  /** The usable candidates, best first. */
  ghost predicate InPreference(sc: Scene, others: seq<Candidate>, order: seq<Candidate>) {
    && (forall c :: c in order <==> c in others && Available(sc, c.id))
    && forall i, j :: 0 <= i < j < |order| ==> Less(Preference(sc, order[i]), Preference(sc, order[j]))
  }

  /** The first candidate that fits is the best one. */
  lemma FirstFitIsBest(sc: Scene, others: seq<Candidate>, order: seq<Candidate>, caller: Shard, kind: Kind, i: nat)
    requires InPreference(sc, others, order) && i < |order| && Fit(sc, caller, kind, order[i])
    requires forall j :: 0 <= j < i ==> !Fit(sc, caller, kind, order[j])
    ensures Best(sc, others, caller, kind, order[i].id)
  {
    var c := order[i];
    assert c in order;
    forall d | d in others && Fit(sc, caller, kind, d) && d != c ensures Preferred(sc, c, d) {
      assert d in order;
      var j :| 0 <= j < |order| && order[j] == d;
      PreferenceMeans(sc, c, d);
      assert i < j;
    }
  }

  method ChooseAmong(sc: Scene, others: seq<Candidate>, caller: Shard, kind: Kind) returns (r: Choice)
    requires DistinctKeys(others, (c: Candidate) => Preference(sc, c))
    ensures ChoiceAmong(sc, others, caller, kind, r)
  {
    var order := Select(others, (c: Candidate) => Available(sc, c.id), (c: Candidate) => Preference(sc, c));
    assert InPreference(sc, others, order);
    if order == [] {
      var allPaused := forall c | c in others :: c.id in sc.paused;
      assert forall c :: c in others ==> c !in order && !Available(sc, c.id);
      return Refused(if allPaused then CalleePaused else NoAvailableShard);
    }
    assert order[0] in order;
    if kind.Buzz? {
      FirstFitIsBest(sc, others, order, caller, kind, 0);
      return Chosen(order[0].id);
    }
    for i := 0 to |order|
      invariant forall j :: 0 <= j < i ==> Reaches(sc.waits, order[j].id, caller)
    {
      var stuck := WouldDeadlock(sc.waits, caller, order[i].id);
      assert order[i] in order;
      if !stuck {
        FirstFitIsBest(sc, others, order, caller, kind, i);
        return Chosen(order[i].id);
      }
    }
    return Refused(Deadlock);
  }

  /** The choice for a target. A call goes to the least candidate by (not idle, queue depth,
      configured order) among the target's shards other than the caller that are available and
      cannot reach the caller; it is refused as a deadlock exactly when some are available and all of
      them reach the caller. */
  ghost predicate Picks(specs: seq<Spec>, to: string, caller: Shard, sc: Scene, kind: Kind, r: Choice) {
    && (r == Refused(UnknownTarget) <==> Targets(specs, to) == [])
    && (r == Refused(SelfCall) <==> TargetsSelf(specs, to, caller) && kind.Call?)
    && (TargetsSelf(specs, to, caller) && kind.Buzz? ==> r == Chosen(caller))
    && (Targets(specs, to) != [] && !TargetsSelf(specs, to, caller) ==>
          ChoiceAmong(sc, Ranked(Without(Targets(specs, to), caller)), caller, kind, r))
  }

  method PickCallee(specs: seq<Spec>, to: string, caller: Shard, sc: Scene, kind: Kind) returns (r: Choice)
    ensures Picks(specs, to, caller, sc, kind, r)
    ensures Right(specs, to, caller, sc, kind, r)
  {
    var cands := Targets(specs, to);
    var others := Without(cands, caller);
    if cands == [] {
      r := Refused(UnknownTarget);
    } else if (caller in cands && others == []) || (NamesShard(specs, to) && caller in cands) {
      r := if kind.Call? then Refused(SelfCall) else Chosen(caller);
    } else {
      r := ChooseAmong(sc, Ranked(others), caller, kind);
    }
    PickIsRight(specs, to, caller, sc, kind, r);
  }

  lemma BestIsUnique(sc: Scene, cands: seq<Candidate>, caller: Shard, kind: Kind, a: Shard, b: Shard)
    requires Best(sc, cands, caller, kind, a) && Best(sc, cands, caller, kind, b)
    ensures a == b
  {
    var c :| c in cands && Fit(sc, caller, kind, c) && c.id == a &&
      forall d :: d in cands && Fit(sc, caller, kind, d) && d != c ==> Preferred(sc, c, d);
    var e :| e in cands && Fit(sc, caller, kind, e) && e.id == b &&
      forall d :: d in cands && Fit(sc, caller, kind, d) && d != e ==> Preferred(sc, e, d);
    assert c == e;
  }

  /** There is only one right choice. */
  lemma PickIsDetermined(specs: seq<Spec>, to: string, caller: Shard, sc: Scene, kind: Kind, a: Choice, b: Choice)
    requires Picks(specs, to, caller, sc, kind, a) && Picks(specs, to, caller, sc, kind, b)
    ensures a == b
  {
    var others := Ranked(Without(Targets(specs, to), caller));
    if Targets(specs, to) != [] && !TargetsSelf(specs, to, caller) && a.Chosen? && b.Chosen? {
      BestIsUnique(sc, others, caller, kind, a.callee, b.callee);
    }
  }

  /** What a successful call choice promises. */
  lemma ChosenCanAnswer(sc: Scene, others: seq<Candidate>, caller: Shard, callee: Shard)
    requires ChoiceAmong(sc, others, caller, Call, Chosen(callee))
    ensures Available(sc, callee) && !Reaches(sc.waits, callee, caller)
  {
  }

  // ---- the choice in terms of the configuration ----

  /** Place `i` of the configuration is meant by `to`: as a shard of that agent or, if no agent has
      the name, as the shard itself. */
  predicate IsTarget(specs: seq<Spec>, to: string, i: int) {
    && 0 <= i < |specs|
    && (specs[i].agent == to || (specs[i].id == to && forall j :: 0 <= j < |specs| ==> specs[j].agent != to))
  }

  predicate IsOther(specs: seq<Spec>, to: string, caller: Shard, i: int) {
    IsTarget(specs, to, i) && specs[i].id != caller
  }

  /** The call comes back to its caller: the caller is named itself, or is all the agent has. */
  ghost predicate Own(specs: seq<Spec>, to: string, caller: Shard) {
    && (exists i :: IsTarget(specs, to, i) && specs[i].id == caller)
    && ((forall j :: 0 <= j < |specs| ==> specs[j].agent != to) || forall i :: !IsOther(specs, to, caller, i))
  }

  predicate Up(sc: Scene, s: Shard) {
    s !in sc.paused && (s in sc.states ==> !sc.states[s].ErrorRecovery?)
  }

  ghost predicate MayAnswer(sc: Scene, caller: Shard, kind: Kind, s: Shard) {
    Up(sc, s) && (kind.Call? ==> !Reaches(sc.waits, s, caller))
  }

  predicate IsIdle(sc: Scene, s: Shard) {
    s in sc.states ==> sc.states[s].Idle?
  }

  function DepthOf(sc: Scene, s: Shard): int {
    if s in sc.depths then sc.depths[s] else 0
  }

  /** The shard at place `i` is no worse a choice than the one at `j`. */
  predicate NoWorse(specs: seq<Spec>, sc: Scene, i: int, j: int)
    requires 0 <= i < |specs| && 0 <= j < |specs|
  {
    var a, b := specs[i].id, specs[j].id;
    && (IsIdle(sc, b) ==> IsIdle(sc, a))
    && (IsIdle(sc, a) == IsIdle(sc, b) ==> DepthOf(sc, a) <= DepthOf(sc, b))
    && (IsIdle(sc, a) == IsIdle(sc, b) && DepthOf(sc, a) == DepthOf(sc, b) ==> i < j)
  }

  ghost predicate RivalOf(specs: seq<Spec>, to: string, caller: Shard, sc: Scene, kind: Kind, i: int, j: int) {
    && IsOther(specs, to, caller, i) && IsOther(specs, to, caller, j)
    && specs[j].id != specs[i].id && MayAnswer(sc, caller, kind, specs[j].id)
  }

  /** Place `i` is the choice: another shard than the caller that may answer, and no worse than any
      different one that may. */
  ghost predicate BestPlace(specs: seq<Spec>, to: string, caller: Shard, sc: Scene, kind: Kind, i: int) {
    && IsOther(specs, to, caller, i) && MayAnswer(sc, caller, kind, specs[i].id)
    && forall j :: RivalOf(specs, to, caller, sc, kind, i, j) ==> NoWorse(specs, sc, i, j)
  }

  /** The right answer, read off the configuration and the state of the shards. */
  ghost predicate Right(specs: seq<Spec>, to: string, caller: Shard, sc: Scene, kind: Kind, r: Choice) {
    match r
    case Refused(UnknownTarget) => forall i :: !IsTarget(specs, to, i)
    case Refused(SelfCall) => kind.Call? && Own(specs, to, caller)
    case Refused(CalleePaused) =>
      && (exists i :: IsOther(specs, to, caller, i)) && !Own(specs, to, caller)
      && forall i :: IsOther(specs, to, caller, i) ==> specs[i].id in sc.paused
    case Refused(NoAvailableShard) =>
      && !Own(specs, to, caller)
      && (forall i :: IsOther(specs, to, caller, i) ==> !Up(sc, specs[i].id))
      && exists i :: IsOther(specs, to, caller, i) && specs[i].id !in sc.paused
    case Refused(Deadlock) =>
      && kind.Call? && !Own(specs, to, caller)
      && (exists i :: IsOther(specs, to, caller, i) && Up(sc, specs[i].id))
      && forall i :: IsOther(specs, to, caller, i) && Up(sc, specs[i].id) ==> Reaches(sc.waits, specs[i].id, caller)
    case Chosen(s) =>
      || (kind.Buzz? && Own(specs, to, caller) && s == caller)
      || (!Own(specs, to, caller) && exists i :: BestPlace(specs, to, caller, sc, kind, i) && specs[i].id == s)
  }

  ghost predicate Increasing(p: seq<nat>) {
    forall k, m :: 0 <= k < m < |p| ==> p[k] < p[m]
  }

  /** The places from `from` on of an agent's shards other than the caller, in configured order. */
  function OtherPlaces(specs: seq<Spec>, agent: string, caller: Shard, from: nat): (p: seq<nat>)
    requires from <= |specs|
    ensures Increasing(p)
    ensures forall i :: i in p <==> from <= i < |specs| && specs[i].agent == agent && specs[i].id != caller
    decreases |specs| - from
  {
    if from == |specs| then []
    else
      var later := OtherPlaces(specs, agent, caller, from + 1);
      assert forall k :: 0 <= k < |later| ==> later[k] in later;
      (if specs[from].agent == agent && specs[from].id != caller then [from] else []) + later
  }

  /** The shards at the places `p`, in that order. */
  ghost predicate StandAt(specs: seq<Spec>, p: seq<nat>, ids: seq<Shard>) {
    |p| == |ids| && forall k :: 0 <= k < |p| ==> p[k] < |specs| && specs[p[k]].id == ids[k]
  }

  lemma StandCons(specs: seq<Spec>, i: nat, p: seq<nat>, ids: seq<Shard>)
    requires i < |specs| && StandAt(specs, p, ids)
    ensures StandAt(specs, [i] + p, [specs[i].id] + ids)
  {
  }

  lemma OthersStep(specs: seq<Spec>, agent: string, caller: Shard)
    requires specs != []
    ensures Without(IdsOf(specs, agent), caller) ==
            (if specs[0].agent == agent && specs[0].id != caller then [specs[0].id] else []) +
            Without(IdsOf(specs[1..], agent), caller)
  {
    var rest := IdsOf(specs[1..], agent);
    assert ([specs[0].id] + rest)[1..] == rest;
    assert [] + rest == rest;
  }

  lemma {:induction false} OtherPlacesMatch(specs: seq<Spec>, agent: string, caller: Shard, from: nat)
    requires from <= |specs|
    ensures StandAt(specs, OtherPlaces(specs, agent, caller, from), Without(IdsOf(specs[from..], agent), caller))
    decreases |specs| - from
  {
    if from < |specs| {
      OtherPlacesMatch(specs, agent, caller, from + 1);
      OthersStep(specs[from..], agent, caller);
      assert specs[from..][1..] == specs[from + 1..];
      var later, rest := OtherPlaces(specs, agent, caller, from + 1), Without(IdsOf(specs[from + 1..], agent), caller);
      assert [] + later == later && [] + rest == rest;
      StandCons(specs, from, later, rest);
    }
  }

  lemma AgentMember(specs: seq<Spec>, agent: string, s: Shard)
    ensures s in IdsOf(specs, agent) <==> exists i :: 0 <= i < |specs| && specs[i].agent == agent && specs[i].id == s
  {
    if Spec(s, agent) in specs {
      var i :| 0 <= i < |specs| && specs[i] == Spec(s, agent);
    }
    if i :| 0 <= i < |specs| && specs[i].agent == agent && specs[i].id == s {
      assert specs[i] == Spec(s, agent);
    }
  }

  lemma TargetMember(specs: seq<Spec>, to: string, s: Shard)
    ensures s in Targets(specs, to) <==> exists i :: IsTarget(specs, to, i) && specs[i].id == s
  {
    AgentMember(specs, to, s);
    if s in Targets(specs, to) {
      var i :| 0 <= i < |specs| && specs[i].id == s && (specs[i].agent == to || IdsOf(specs, to) == []);
      assert IsTarget(specs, to, i);
    }
    if i :| IsTarget(specs, to, i) && specs[i].id == s {
      assert specs[i].agent == to || IdsOf(specs, to) == [];
    }
  }

  lemma OtherMember(specs: seq<Spec>, to: string, caller: Shard, s: Shard)
    ensures s in Without(Targets(specs, to), caller) <==> exists i :: IsOther(specs, to, caller, i) && specs[i].id == s
  {
    TargetMember(specs, to, s);
    if i :| IsTarget(specs, to, i) && specs[i].id == s && s != caller {
      assert IsOther(specs, to, caller, i);
    }
  }

  lemma AgentIsTarget(specs: seq<Spec>, to: string, i: int)
    requires IdsOf(specs, to) != []
    ensures IsTarget(specs, to, i) <==> 0 <= i < |specs| && specs[i].agent == to
  {
  }

  /** The candidates stand for places of the configuration, in configured order. */
  lemma CandidatePlaces(specs: seq<Spec>, to: string, caller: Shard) returns (p: seq<nat>)
    requires IdsOf(specs, to) != []
    ensures |p| == |Without(Targets(specs, to), caller)| && Increasing(p)
    ensures forall i :: i in p <==> IsOther(specs, to, caller, i)
    ensures StandAt(specs, p, Without(Targets(specs, to), caller))
    ensures forall k :: 0 <= k < |p| ==> p[k] in p
  {
    p := OtherPlaces(specs, to, caller, 0);
    OtherPlacesMatch(specs, to, caller, 0);
    assert specs[0..] == specs;
    forall i ensures i in p <==> IsOther(specs, to, caller, i) {
      AgentIsTarget(specs, to, i);
    }
  }

  lemma OwnMeans(specs: seq<Spec>, to: string, caller: Shard)
    ensures TargetsSelf(specs, to, caller) <==> Own(specs, to, caller)
  {
    TargetMember(specs, to, caller);
    var others := Without(Targets(specs, to), caller);
    if others != [] {
      OtherMember(specs, to, caller, others[0]);
    }
    forall i | IsOther(specs, to, caller, i) ensures specs[i].id in others {
      OtherMember(specs, to, caller, specs[i].id);
    }
    if i :| IsTarget(specs, to, i) {
      TargetMember(specs, to, specs[i].id);
    }
  }

  lemma AgentsBest(specs: seq<Spec>, to: string, caller: Shard, sc: Scene, kind: Kind, s: Shard)
    requires IdsOf(specs, to) != []
    requires Best(sc, Ranked(Without(Targets(specs, to), caller)), caller, kind, s)
    ensures exists i :: BestPlace(specs, to, caller, sc, kind, i) && specs[i].id == s
  {
    var p := CandidatePlaces(specs, to, caller);
    var cands := Ranked(Without(Targets(specs, to), caller));
    var k := BestIndex(sc, cands, caller, kind, s);
    forall j | RivalOf(specs, to, caller, sc, kind, p[k], j) ensures NoWorse(specs, sc, p[k], j) {
      PlaceIsNoWorse(specs, sc, caller, kind, cands, p, k, j);
    }
    ThePlaceIsBest(specs, to, caller, sc, kind, p[k]);
  }

  lemma BestIndex(sc: Scene, cands: seq<Candidate>, caller: Shard, kind: Kind, s: Shard) returns (k: nat)
    requires Best(sc, cands, caller, kind, s)
    ensures k < |cands| && cands[k].id == s && Fit(sc, caller, kind, cands[k])
    ensures forall d :: d in cands && Fit(sc, caller, kind, d) && d != cands[k] ==> Preferred(sc, cands[k], d)
  {
    var c :| c in cands && Fit(sc, caller, kind, c) && c.id == s &&
      forall d :: d in cands && Fit(sc, caller, kind, d) && d != c ==> Preferred(sc, c, d);
    k :| 0 <= k < |cands| && cands[k] == c;
  }

  lemma ThePlaceIsBest(specs: seq<Spec>, to: string, caller: Shard, sc: Scene, kind: Kind, i: int)
    requires IsOther(specs, to, caller, i) && MayAnswer(sc, caller, kind, specs[i].id)
    requires forall j :: RivalOf(specs, to, caller, sc, kind, i, j) ==> NoWorse(specs, sc, i, j)
    ensures exists k :: BestPlace(specs, to, caller, sc, kind, k) && specs[k].id == specs[i].id
  {
    assert BestPlace(specs, to, caller, sc, kind, i);
  }

  lemma PlaceIsNoWorse(specs: seq<Spec>, sc: Scene, caller: Shard, kind: Kind, cands: seq<Candidate>, p: seq<nat>,
      k: nat, j: nat)
    requires |p| == |cands| && Increasing(p) && k < |p| && j in p
    requires forall m :: 0 <= m < |p| ==> p[m] < |specs| && specs[p[m]].id == cands[m].id && cands[m].rank == m
    requires specs[j].id != cands[k].id && MayAnswer(sc, caller, kind, specs[j].id)
    requires forall d :: d in cands && Fit(sc, caller, kind, d) && d != cands[k] ==> Preferred(sc, cands[k], d)
    ensures NoWorse(specs, sc, p[k], j)
  {
    var m :| 0 <= m < |p| && p[m] == j;
    assert cands[m] in cands && Fit(sc, caller, kind, cands[m]);
    PreferredPlace(specs, sc, cands[k], cands[m], p[k], j);
  }

  lemma PreferredPlace(specs: seq<Spec>, sc: Scene, c: Candidate, d: Candidate, i: nat, j: nat)
    requires i < |specs| && j < |specs| && specs[i].id == c.id && specs[j].id == d.id
    requires Preferred(sc, c, d) && (c.rank < d.rank ==> i < j)
    ensures NoWorse(specs, sc, i, j)
  {
  }

  lemma BestHasBestPlace(specs: seq<Spec>, to: string, caller: Shard, sc: Scene, kind: Kind, s: Shard)
    requires Best(sc, Ranked(Without(Targets(specs, to), caller)), caller, kind, s)
    ensures exists i :: BestPlace(specs, to, caller, sc, kind, i) && specs[i].id == s
  {
    if IdsOf(specs, to) != [] {
      AgentsBest(specs, to, caller, sc, kind, s);
    } else {
      var others := Without(Targets(specs, to), caller);
      var c :| c in Ranked(others) && Fit(sc, caller, kind, c) && c.id == s;
      assert s in others;
      OtherMember(specs, to, caller, s);
      var i :| IsOther(specs, to, caller, i) && specs[i].id == s;
      assert BestPlace(specs, to, caller, sc, kind, i);
    }
  }

  lemma CandidateMember(specs: seq<Spec>, to: string, caller: Shard, s: Shard)
    ensures (exists c :: c in Ranked(Without(Targets(specs, to), caller)) && c.id == s) <==>
            exists i :: IsOther(specs, to, caller, i) && specs[i].id == s
  {
    OtherMember(specs, to, caller, s);
    var others := Without(Targets(specs, to), caller);
    var cands := Ranked(others);
    if s in others {
      var k :| 0 <= k < |others| && others[k] == s;
      assert cands[k] in cands;
    }
    if c :| c in cands && c.id == s {
      var k :| 0 <= k < |cands| && cands[k] == c;
      assert others[k] in others;
    }
  }

  lemma CandidateOf(specs: seq<Spec>, to: string, caller: Shard, i: int) returns (c: Candidate)
    requires IsOther(specs, to, caller, i)
    ensures c in Ranked(Without(Targets(specs, to), caller)) && c.id == specs[i].id
  {
    CandidateMember(specs, to, caller, specs[i].id);
    c :| c in Ranked(Without(Targets(specs, to), caller)) && c.id == specs[i].id;
  }

  lemma PlaceOf(specs: seq<Spec>, to: string, caller: Shard, c: Candidate) returns (i: int)
    requires c in Ranked(Without(Targets(specs, to), caller))
    ensures IsOther(specs, to, caller, i) && specs[i].id == c.id
  {
    CandidateMember(specs, to, caller, c.id);
    i :| IsOther(specs, to, caller, i) && specs[i].id == c.id;
  }

  lemma NoneUpIsRight(specs: seq<Spec>, to: string, caller: Shard, sc: Scene, kind: Kind)
    requires Without(Targets(specs, to), caller) != [] && !Own(specs, to, caller)
    requires var cands := Ranked(Without(Targets(specs, to), caller)); forall c :: c in cands ==> !Available(sc, c.id)
    ensures var cands := Ranked(Without(Targets(specs, to), caller));
            var why := if forall c :: c in cands ==> c.id in sc.paused then CalleePaused else NoAvailableShard;
            Right(specs, to, caller, sc, kind, Refused(why))
  {
    var cands := Ranked(Without(Targets(specs, to), caller));
    forall i | IsOther(specs, to, caller, i)
      ensures !Up(sc, specs[i].id) && ((forall c :: c in cands ==> c.id in sc.paused) ==> specs[i].id in sc.paused)
    {
      var c := CandidateOf(specs, to, caller, i);
    }
    var i := PlaceOf(specs, to, caller, cands[0]);
    if c :| c in cands && c.id !in sc.paused {
      var j := PlaceOf(specs, to, caller, c);
    }
  }

  lemma DeadlockIsRight(specs: seq<Spec>, to: string, caller: Shard, sc: Scene)
    requires !Own(specs, to, caller)
    requires var cands := Ranked(Without(Targets(specs, to), caller));
             (exists c :: c in cands && Available(sc, c.id)) && forall c :: c in cands ==> !Free(sc, caller, c)
    ensures Right(specs, to, caller, sc, Call, Refused(Deadlock))
  {
    var cands := Ranked(Without(Targets(specs, to), caller));
    var c :| c in cands && Available(sc, c.id);
    var j := PlaceOf(specs, to, caller, c);
    forall i | IsOther(specs, to, caller, i) && Up(sc, specs[i].id) ensures Reaches(sc.waits, specs[i].id, caller) {
      var d := CandidateOf(specs, to, caller, i);
      assert !Free(sc, caller, d);
    }
  }

  lemma AmongIsRight(specs: seq<Spec>, to: string, caller: Shard, sc: Scene, kind: Kind, r: Choice)
    requires Without(Targets(specs, to), caller) != [] && !Own(specs, to, caller)
    requires ChoiceAmong(sc, Ranked(Without(Targets(specs, to), caller)), caller, kind, r)
    ensures Right(specs, to, caller, sc, kind, r)
  {
    var cands := Ranked(Without(Targets(specs, to), caller));
    if forall c :: c in cands ==> !Available(sc, c.id) {
      NoneUpIsRight(specs, to, caller, sc, kind);
    } else if kind.Call? && forall c :: c in cands ==> !Free(sc, caller, c) {
      DeadlockIsRight(specs, to, caller, sc);
    } else {
      BestHasBestPlace(specs, to, caller, sc, kind, r.callee);
    }
  }

  /** The choice made on ranked candidates is the right one. */
  lemma PickIsRight(specs: seq<Spec>, to: string, caller: Shard, sc: Scene, kind: Kind, r: Choice)
    requires Picks(specs, to, caller, sc, kind, r)
    ensures Right(specs, to, caller, sc, kind, r)
  {
    OwnMeans(specs, to, caller);
    if Targets(specs, to) == [] {
      NoTargets(specs, to);
    } else if !TargetsSelf(specs, to, caller) {
      OthersLeft(specs, to, caller);
      AmongIsRight(specs, to, caller, sc, kind, r);
    }
  }

  lemma NoTargets(specs: seq<Spec>, to: string)
    requires Targets(specs, to) == []
    ensures forall i :: !IsTarget(specs, to, i)
  {
    forall i | 0 <= i < |specs| ensures !IsTarget(specs, to, i) {
      TargetMember(specs, to, specs[i].id);
    }
  }

  lemma OthersLeft(specs: seq<Spec>, to: string, caller: Shard)
    requires Targets(specs, to) != [] && !TargetsSelf(specs, to, caller)
    ensures Without(Targets(specs, to), caller) != []
  {
    var targets := Targets(specs, to);
    assert targets[0] in targets;
    assert targets[0] != caller ==> targets[0] in Without(targets, caller);
  }
}
