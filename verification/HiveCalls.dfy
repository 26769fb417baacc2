/** The open hive calls in server memory and the handlers that change them (lib/hive.py,
    bin/agent-server.py). A handler's code between two awaits is one atomic step. */
module HiveCalls {
  import opened Hive
  import opened Ordering

  const HIVE_MAX_DEPTH := 2
  const HIVE_DEADLINE_SLACK_S := 2
  const HIVE_OPEN_GRACE_S := 10
  const QUEUE_DEPTH_LIMIT := 50

  type CallId = string

  datatype OpenCall = OpenCall(caller: Shard, callee: Shard, depth: int, deadline: int)

  type Calls = map<CallId, OpenCall>

  datatype CallError = CallerNotInTurn | DepthExceeded | QueueFull | NoCallee(why: Refusal)
  datatype Created = Created(callee: Shard, depth: int) | Failed(error: CallError)

  function Callers(open: Calls): set<Shard> {
    set id | id in open :: open[id].caller
  }

  function CalleesOf(open: Calls, s: Shard): set<Shard> {
    set id | id in open && open[id].caller == s :: open[id].callee
  }

  function Graph(open: Calls): Waits {
    map s | s in Callers(open) :: CalleesOf(open, s)
  }

  lemma GraphEdges(open: Calls, x: Shard, y: Shard)
    ensures y in Callees(Graph(open), x) <==> exists id :: id in open && open[id].caller == x && open[id].callee == y
  {
  }

  lemma EdgesGrow(open: Calls, id: CallId, oc: OpenCall, s: Shard, y: Shard)
    requires id !in open
    ensures y in Callees(Graph(open[id := oc]), s) <==>
        y in Callees(Graph(open), s) || (s == oc.caller && y == oc.callee)
  {
    var open' := open[id := oc];
    GraphEdges(open, s, y);
    GraphEdges(open', s, y);
    if i :| i in open && open[i].caller == s && open[i].callee == y {
      assert open'[i] == open[i];
    }
    assert open'[id] == oc;
  }

  lemma GraphKeys(open: Calls, s: Shard)
    ensures s in Graph(open) <==> exists id :: id in open && open[id].caller == s
    ensures s in Graph(open) <==> Callees(Graph(open), s) != {}
  {
    if id :| id in open && open[id].caller == s {
      GraphEdges(open, s, open[id].callee);
    }
  }

  lemma GraphGrows(open: Calls, id: CallId, oc: OpenCall)
    requires id !in open
    ensures Graph(open[id := oc]) == Graph(open)[oc.caller := Callees(Graph(open), oc.caller) + {oc.callee}]
  {
    var g, g' := Graph(open), Graph(open[id := oc]);
    forall s
      ensures Callees(g', s) == Callees(g, s) + (if s == oc.caller then {oc.callee} else {})
      ensures s in g' <==> s in g || s == oc.caller
    {
      forall y { EdgesGrow(open, id, oc, s, y); }
      GraphKeys(open, s);
      GraphKeys(open[id := oc], s);
    }
    MapsAgree(g', g[oc.caller := Callees(g, oc.caller) + {oc.callee}]);
  }

  lemma MapsAgree(a: Waits, b: Waits)
    requires forall s :: (s in a <==> s in b) && Callees(a, s) == Callees(b, s)
    ensures a == b
  {
    assert forall s :: s in a ==> a[s] == Callees(a, s) == Callees(b, s) == b[s];
  }

  predicate Overdue(c: OpenCall, now: int) {
    now > c.deadline + HIVE_OPEN_GRACE_S + HIVE_DEADLINE_SLACK_S
  }

  function Pruned(open: Calls, now: int): Calls {
    map id | id in open && !Overdue(open[id], now) :: open[id]
  }

  /** One more than the deepest row of the caller's running batch. */
  function NextDepth(rows: seq<int>): (d: int)
    ensures forall r :: r in rows ==> r < d
    ensures if rows == [] then d == 1 else d - 1 in rows
  {
    if rows == [] then 1
    else
      assert rows[0] in rows && forall r :: r in rows <==> r == rows[0] || r in rows[1..];
      if |rows| == 1 || rows[0] + 1 >= NextDepth(rows[1..]) then rows[0] + 1 else NextDepth(rows[1..])
  }

  // ---- runs ----

  datatype Step =
    | Open(id: CallId, call: OpenCall)   // pick and insert, with no await in between
    | Close(id: CallId)                  // insert failed, answered, timed out, cancelled
    | Prune(now: int)

  ghost predicate Enabled(open: Calls, s: Step) {
    s.Open? ==> !Reaches(Graph(open), s.call.callee, s.call.caller)
  }

  function Next(open: Calls, s: Step): Calls {
    match s
    case Open(id, call) => open[id := call]
    case Close(id) => open - {id}
    case Prune(now) => Pruned(open, now)
  }

  /** The steps lead from one set of open calls to another. */
  ghost predicate Run(open: Calls, steps: seq<Step>, open': Calls)
    decreases |steps|
  {
    if steps == [] then open' == open
    else Enabled(open, steps[0]) && Run(Next(open, steps[0]), steps[1..], open')
  }

  // ---- acyclicity ----

  /** `g` without some edges, and at most the edge a -> b more. */
  ghost predicate AtMostOneMore(g: Waits, g': Waits, a: Shard, b: Shard) {
    forall x, y :: y in Callees(g', x) ==> y in Callees(g, x) || (x == a && y == b)
  }

  ghost predicate Uses(p: seq<Shard>, i: int, a: Shard, b: Shard) {
    0 <= i < |p| - 1 && p[i] == a && p[i + 1] == b
  }

  lemma UnusedEdge(g: Waits, g': Waits, a: Shard, b: Shard, p: seq<Shard>)
    requires AtMostOneMore(g, g', a, b) && Path(g', p) && forall i :: !Uses(p, i, a, b)
    ensures Path(g, p)
  {
    forall i | 0 <= i < |p| - 1 ensures p[i + 1] in Callees(g, p[i]) {
      assert !Uses(p, i, a, b);
    }
  }

  lemma NoEdgesNoPath(g: Waits, p: seq<Shard>)
    requires |p| > 1 && forall x :: Callees(g, x) == {}
    ensures !Path(g, p)
  {
    assert p[0 + 1] !in Callees(g, p[0]);
  }

  /** A path that starts at the head of the new edge needs the new edge nowhere. */
  lemma {:induction false} PathWithoutEdge(g: Waits, g': Waits, a: Shard, b: Shard, p: seq<Shard>)
    requires AtMostOneMore(g, g', a, b) && p != [] && p[0] == b && Path(g', p)
    ensures Reaches(g, b, p[|p| - 1])
    decreases |p|
  {
    if i :| Uses(p, i, a, b) {
      PathWithoutEdge(g, g', a, b, p[i + 1..]);
    } else {
      UnusedEdge(g, g', a, b, p);
      assert Link(g, p, b, p[|p| - 1]);
    }
  }

  lemma RotateCycle(g: Waits, p: seq<Shard>, i: nat)
    requires Path(g, p) && i + 1 < |p| && p[0] == p[|p| - 1]
    ensures Path(g, p[i + 1..] + p[1..i + 1])
  {
    var q := p[i + 1..] + p[1..i + 1];
    var k := |p| - 1 - i;
    forall j | 0 <= j < |q| - 1 ensures q[j + 1] in Callees(g, q[j]) {
      if j < k - 1 {
        assert q[j] == p[i + 1 + j] && q[j + 1] == p[i + 1 + j + 1];
      } else if j == k - 1 {
        assert q[j] == p[0] && q[j + 1] == p[0 + 1];
      } else {
        assert q[j] == p[j - k + 1] && q[j + 1] == p[j - k + 1 + 1];
      }
    }
  }

  lemma EdgeKeepsAcyclic(g: Waits, g': Waits, a: Shard, b: Shard)
    requires Acyclic(g) && AtMostOneMore(g, g', a, b) && !Reaches(g, b, a)
    ensures Acyclic(g')
  {
    forall p | |p| > 1 && Path(g', p) ensures p[0] != p[|p| - 1] {
      if p[0] == p[|p| - 1] {
        if i :| Uses(p, i, a, b) {
          var q := p[i + 1..] + p[1..i + 1];
          RotateCycle(g', p, i);
          PathWithoutEdge(g, g', a, b, q);
        } else {
          UnusedEdge(g, g', a, b, p);
        }
      }
    }
  }

  lemma FewerKeepsAcyclic(g: Waits, g': Waits)
    requires Acyclic(g) && forall x, y :: y in Callees(g', x) ==> y in Callees(g, x)
    ensures Acyclic(g')
  {
    assert forall p :: Path(g', p) ==> Path(g, p);
  }

  lemma NextKeepsAcyclic(open: Calls, s: Step)
    requires Acyclic(Graph(open)) && Enabled(open, s)
    ensures Acyclic(Graph(Next(open, s)))
  {
    var g, g' := Graph(open), Graph(Next(open, s));
    forall x, y | y in Callees(g', x)
      ensures y in Callees(g, x) || (s.Open? && x == s.call.caller && y == s.call.callee)
    {
      GraphEdges(Next(open, s), x, y);
      GraphEdges(open, x, y);
    }
    if s.Open? {
      EdgeKeepsAcyclic(g, g', s.call.caller, s.call.callee);
    } else {
      FewerKeepsAcyclic(g, g');
    }
  }

  /** In every reachable state no shard waits on itself through open calls. */
  lemma {:induction false} NeverDeadlocked(open: Calls, steps: seq<Step>, open': Calls)
    requires Acyclic(Graph(open)) && Run(open, steps, open')
    ensures Acyclic(Graph(open'))
    decreases |steps|
  {
    if steps != [] {
      NextKeepsAcyclic(open, steps[0]);
      NeverDeadlocked(Next(open, steps[0]), steps[1..], open');
    }
  }

  lemma BootIsAcyclic()
    ensures Acyclic(Graph(map[]))
  {
    forall p: seq<Shard> | |p| > 1 ensures !Path(Graph(map[]), p) {
      NoEdgesNoPath(Graph(map[]), p);
    }
  }

  /** What acyclicity is for: from every shard, following open calls leads to a shard that waits
      on nobody and so can run. */
  lemma ChainEnds(g: Waits, s: Shard) returns (t: Shard)
    requires Acyclic(g)
    ensures Reaches(g, s, t) && Callees(g, t) == {}
  {
    var all := {s} + set x, y | x in g && y in g[x] :: y;
    t := ExtendChain(g, [s], all);
  }

  ghost function Elements(p: seq<Shard>): set<Shard> {
    set x | x in p
  }

  lemma ExtendChain(g: Waits, p: seq<Shard>, all: set<Shard>) returns (t: Shard)
    requires Acyclic(g) && p != [] && Path(g, p)
    requires forall i, j :: 0 <= i < j < |p| ==> p[i] != p[j]
    requires Within(p, all) && forall x, y :: y in Callees(g, x) ==> y in all
    ensures Reaches(g, p[0], t) && Callees(g, t) == {}
    decreases all - Elements(p)
  {
    var last := p[|p| - 1];
    if Callees(g, last) == {} {
      t := last;
      assert Link(g, p, p[0], t);
    } else {
      var y :| y in Callees(g, last);
      var q := p + [y];
      assert Path(g, q);
      forall i | 0 <= i < |p| ensures p[i] != y {
        assert Path(g, q[i..]);
        assert q[i..][0] == p[i] && q[i..][|q[i..]| - 1] == y;
      }
      assert Elements(q) == Elements(p) + {y} && y in all - Elements(p);
      t := ExtendChain(g, q, all);
    }
  }

  /** The absence of an await between check and insert matters: two calls that both pass the
      check before either is inserted close a cycle. */
  lemma CheckThenInsertRaces(a: Shard, b: Shard)
    requires a != b
    ensures var ab, ba := OpenCall(a, b, 1, 0), OpenCall(b, a, 1, 0);
            && Enabled(map[], Open("1", ab)) && Enabled(map[], Open("2", ba))
            && !Acyclic(Graph(Next(Next(map[], Open("1", ab)), Open("2", ba))))
  {
    var open := Next(Next(map[], Open("1", OpenCall(a, b, 1, 0))), Open("2", OpenCall(b, a, 1, 0)));
    forall p: seq<Shard> | |p| > 1 ensures !Path(Graph(map[]), p) {
      NoEdgesNoPath(Graph(map[]), p);
    }
    assert open["1"] == OpenCall(a, b, 1, 0) && open["2"] == OpenCall(b, a, 1, 0);
    GraphEdges(open, a, b);
    GraphEdges(open, b, a);
    assert Path(Graph(open), [a, b, a]);
  }

  // ---- the server's state and handlers ----

  function Outcome(choice: Choice, counts: map<Shard, int>, depth: int): Created {
    match choice
    case Refused(why) => Failed(NoCallee(why))
    case Chosen(c) => if c in counts && counts[c] >= QUEUE_DEPTH_LIMIT then Failed(QueueFull) else Created(c, depth)
  }

  /** The verdict on a call within its depth: the right callee is picked on the open calls, and only
      that callee's full queue can still refuse the call. */
  ghost predicate PlanOk(open: Calls, caller: Shard, to: string, depth: int, specs: seq<Spec>,
                         states: map<Shard, RunState>, counts: map<Shard, int>, paused: set<Shard>, r: Created) {
    exists choice :: Picks(specs, to, caller, Scene(states, counts, Graph(open), paused), Call, choice)
                     && r == Outcome(choice, counts, depth)
  }

  /** The same verdict on the configuration: the call goes to the right shard of its target, which is
      not full; it is refused as full only because that one is, and else for the right reason. */
  ghost predicate RightVerdict(caller: Shard, to: string, depth: int, specs: seq<Spec>, sc: Scene, r: Created) {
    match r
    case Created(c, d) =>
      && d == depth && Right(specs, to, caller, sc, Call, Chosen(c))
      && (c in sc.depths ==> sc.depths[c] < QUEUE_DEPTH_LIMIT)
    case Failed(QueueFull) =>
      exists c :: c in sc.depths && Right(specs, to, caller, sc, Call, Chosen(c)) && sc.depths[c] >= QUEUE_DEPTH_LIMIT
    case Failed(NoCallee(why)) => Right(specs, to, caller, sc, Call, Refused(why))
    case Failed(_) => false
  }

  /** The state decides the verdict: no two are right. */
  lemma PlanIsDetermined(open: Calls, caller: Shard, to: string, depth: int, specs: seq<Spec>,
                         states: map<Shard, RunState>, counts: map<Shard, int>, paused: set<Shard>,
                         a: Created, b: Created)
    requires PlanOk(open, caller, to, depth, specs, states, counts, paused, a)
    requires PlanOk(open, caller, to, depth, specs, states, counts, paused, b)
    ensures a == b
  {
    var sc := Scene(states, counts, Graph(open), paused);
    var c: Choice :| Picks(specs, to, caller, sc, Call, c) && a == Outcome(c, counts, depth);
    var d: Choice :| Picks(specs, to, caller, sc, Call, d) && b == Outcome(d, counts, depth);
    PickIsDetermined(specs, to, caller, sc, Call, c, d);
  }

  /** A call that is placed goes to the best free shard of its target. */
  lemma PlacedWithTheBest(open: Calls, caller: Shard, to: string, depth: int, specs: seq<Spec>,
                          states: map<Shard, RunState>, counts: map<Shard, int>, paused: set<Shard>, r: Created)
    requires PlanOk(open, caller, to, depth, specs, states, counts, paused, r) && r.Created?
    ensures var sc := Scene(states, counts, Graph(open), paused);
            && Best(sc, Ranked(Without(Targets(specs, to), caller)), caller, Call, r.callee)
            && Available(sc, r.callee) && !Reaches(Graph(open), r.callee, caller)
            && r.depth == depth && (r.callee in counts ==> counts[r.callee] < QUEUE_DEPTH_LIMIT)
  {
    var c: Choice :| Picks(specs, to, caller, Scene(states, counts, Graph(open), paused), Call, c)
                     && r == Outcome(c, counts, depth);
  }

  class HiveState {
    var open: Calls

    constructor ()
      ensures open == map[] && Acyclic(Graph(open))
    {
      open := map[];
      new;
      BootIsAcyclic();
    }

    method WaitsFor() returns (out: Waits)
      ensures out == Graph(open)
    {
      out := map[];
      ghost var done: Calls := map[];
      var left := open.Keys;
      while left != {}
        invariant left <= open.Keys && done == map id | id in open && id !in left :: open[id]
        invariant out == Graph(done)
      {
        var id :| id in left;
        var oc := open[id];
        GraphGrows(done, id, oc);
        out := out[oc.caller := Callees(out, oc.caller) + {oc.callee}];
        done := done[id := oc];
        left := left - {id};
      }
      assert done == open;
    }

    /** The caller's open calls: those whose closing frees it, and no others. */
    method CallsOf(caller: Shard) returns (ids: set<CallId>)
      ensures forall id :: id in ids <==> id in open && open[id].caller == caller
      ensures ids == {} <==> caller !in Graph(open)
    {
      ids := {};
      var left := open.Keys;
      while left != {}
        invariant left <= open.Keys
        invariant forall id :: id in ids <==> id in open && id !in left && open[id].caller == caller
      {
        var id :| id in left;
        if open[id].caller == caller {
          ids := ids + {id};
        }
        left := left - {id};
      }
    }

    method PruneOverdue(now: int) returns (gone: set<CallId>)
      modifies this
      ensures open == Next(old(open), Prune(now)) == old(open) - gone
      ensures forall id :: id in gone <==>
        id in old(open) && now > old(open)[id].deadline + HIVE_OPEN_GRACE_S + HIVE_DEADLINE_SLACK_S
    {
      gone := set id | id in open && Overdue(open[id], now);
      var left := gone;
      while left != {}
        invariant left <= gone
        invariant open == map id | id in old(open) && id !in gone - left :: old(open)[id]
      {
        var id :| id in left;
        open := open - {id};
        left := left - {id};
      }
    }

    method CancelCall(id: CallId)
      modifies this
      ensures open == Next(old(open), Close(id)) == old(open) - {id}
    {
      open := open - {id};
    }

    /** The caller's turn is over: close every call it still has open. */
    method CancelCaller(caller: Shard)
      modifies this
      ensures open == map id | id in old(open) && old(open)[id].caller != caller :: old(open)[id]
    {
      var ids := CallsOf(caller);
      var left := ids;
      while left != {}
        invariant left <= ids
        invariant open == map id | id in old(open) && id !in ids - left :: old(open)[id]
      {
        var id :| id in left;
        CancelCall(id);
        left := left - {id};
      }
    }

    /** The first part of POST /hive/call, up to where it awaits the queue counts: prunes, and refuses
        a caller that is in no turn or too deep. */
    method BeginCall(inTurn: bool, rows: seq<int>, now: int) returns (refusal: Option<CallError>, depth: int)
      modifies this
      ensures open == Next(old(open), Prune(now))
      ensures forall id :: id in open <==>
        id in old(open) && now <= old(open)[id].deadline + HIVE_OPEN_GRACE_S + HIVE_DEADLINE_SLACK_S
      ensures forall id :: id in open ==> open[id] == old(open)[id]
      ensures refusal == Some(CallerNotInTurn) <==> !inTurn
      ensures refusal == Some(DepthExceeded) <==> inTurn && NextDepth(rows) > HIVE_MAX_DEPTH
      ensures refusal.None? <==> inTurn && NextDepth(rows) <= HIVE_MAX_DEPTH
      ensures depth == NextDepth(rows)
    {
      var _ := PruneOverdue(now);
      depth := NextDepth(rows);
      refusal := None;
      if !inTurn {
        refusal := Some(CallerNotInTurn);
      } else if depth > HIVE_MAX_DEPTH {
        refusal := Some(DepthExceeded);
      }
    }

    /** The choice of a callee, on the calls that are open now. */
    method PlanCall(caller: Shard, to: string, depth: int, specs: seq<Spec>,
                    states: map<Shard, RunState>, counts: map<Shard, int>, paused: set<Shard>)
      returns (r: Created)
      ensures PlanOk(open, caller, to, depth, specs, states, counts, paused, r)
      ensures RightVerdict(caller, to, depth, specs, Scene(states, counts, Graph(open), paused), r)
      ensures r.Created? ==> !Reaches(Graph(open), r.callee, caller)
    {
      var waits := WaitsFor();
      var sc := Scene(states, counts, waits, paused);
      var choice := PickCallee(specs, to, caller, sc, Call);
      assert Picks(specs, to, caller, Scene(states, counts, Graph(open), paused), Call, choice);
      if choice.Refused? {
        return Failed(NoCallee(choice.why));
      }
      ChosenCanAnswer(sc, Ranked(Without(Targets(specs, to), caller)), caller, choice.callee);
      if choice.callee in counts && counts[choice.callee] >= QUEUE_DEPTH_LIMIT {
        return Failed(QueueFull);
      }
      return Created(choice.callee, depth);
    }

    /** The part after that await: choice and insert, with no await in between. Other handlers may
        have changed the open calls since `BeginCall`; the choice is made on what is open now, so the
        insert is a step of the runs above and acyclicity is kept. */
    method PlaceCall(id: CallId, caller: Shard, to: string, depth: int, specs: seq<Spec>,
                     states: map<Shard, RunState>, counts: map<Shard, int>, paused: set<Shard>,
                     now: int, timeout: int)
      returns (r: Created)
      modifies this
      ensures PlanOk(old(open), caller, to, depth, specs, states, counts, paused, r)
      ensures RightVerdict(caller, to, depth, specs, Scene(states, counts, Graph(old(open)), paused), r)
      ensures r.Failed? ==> open == old(open)
      ensures r.Created? ==> open == old(open)[id := OpenCall(caller, r.callee, depth, now + timeout)]
      ensures r.Created? ==>
                var call := Step.Open(id, OpenCall(caller, r.callee, depth, now + timeout));
                Enabled(old(open), call) && open == Next(old(open), call)
    {
      r := PlanCall(caller, to, depth, specs, states, counts, paused);
      if r.Created? {
        open := open[id := OpenCall(caller, r.callee, depth, now + timeout)];
      }
    }

    /** The call's row could not be written: the call is forgotten. */
    method InsertFailed(id: CallId)
      modifies this
      ensures open == Next(old(open), Close(id)) == old(open) - {id}
    {
      open := open - {id};
    }
  }
}
