/** The process table as a parent-to-children map, and its breadth-first walk (lib/procinfo.py).
    The map may be any snapshot of a changing /proc: cycles, duplicates and a process that is
    its own parent are all allowed. */
module ProcessWalk {
  import opened Ordering

  type Children = map<int, seq<int>>

  function Kids(kids: Children, p: int): seq<int> {
    if p in kids then kids[p] else []
  }

  ghost function Mentioned(kids: Children): set<int> {
    set k, p | k in kids && p in kids[k] :: p
  }

  ghost predicate Within(s: seq<int>, all: set<int>) {
    forall p :: p in s ==> p in all
  }

  /** Some chain of `n` parent-to-child links leads from `root` to `p`. */
  ghost predicate Walk(kids: Children, root: int, p: int, n: nat)
    decreases n
  {
    if n == 0 then
      p == root
    else
      exists q :: Walk(kids, root, q, n - 1) && p in Kids(kids, q)
  }

  ghost predicate Descends(kids: Children, root: int, p: int) {
    exists n: nat :: Walk(kids, root, p, n)
  }

  /** `p` is at most as far from `root` as `q`: no chain reaches `q` in fewer links than some
      chain needs for `p`. */
  ghost predicate NoFarther(kids: Children, root: int, p: int, q: int) {
    forall n: nat :: Walk(kids, root, q, n) ==> exists m: nat :: m <= n && Walk(kids, root, p, m)
  }

  method ChildrenMap(pids: seq<int>, parent: int -> Option<int>) returns (kids: Children)
    ensures forall p, c :: c in Kids(kids, p) <==> c in pids && parent(c) == Some(p)
  {
    kids := map[];
    for i := 0 to |pids|
      invariant forall p, c :: c in Kids(kids, p) <==> c in pids[..i] && parent(c) == Some(p)
    {
      assert pids[..i + 1] == pids[..i] + [pids[i]];
      var pp := parent(pids[i]);
      if pp.Some? {
        ghost var before := kids;
        kids := kids[pp.value := Kids(kids, pp.value) + [pids[i]]];
        assert forall p :: Kids(kids, p) == if p == pp.value then Kids(before, p) + [pids[i]] else Kids(before, p);
      }
    }
    assert pids[..|pids|] == pids;
  }

  /** The state of the walk between two iterations: `level` gives every process seen so far its
      distance from the root, `qlevel` bounds the distance of each queued entry. */
  ghost predicate Frontier(kids: Children, root: int, level: map<int, nat>, out: seq<int>,
                           queue: seq<int>, qlevel: seq<nat>) {
    && root in level && level[root] == 0
    && OutOk(root, level, out)
    && |qlevel| == |queue| && QueueOk(kids, root, queue, qlevel)
    && (queue != [] ==> forall x :: x in level ==> level[x] <= qlevel[0])
    && (forall x :: x in level ==> Walk(kids, root, x, level[x]))
    && Shortest(kids, root, level)
    && Closed(kids, level, queue, qlevel)
  }

  /** `out` lists the seen processes but the root, each once, by level. */
  ghost predicate OutOk(root: int, level: map<int, nat>, out: seq<int>) {
    && (forall p :: p in out <==> p in level && p != root)
    && (forall i, j :: 0 <= i < j < |out| ==>
          out[i] != out[j] && out[i] in level && out[j] in level && level[out[i]] <= level[out[j]])
  }

  /** Queued levels are attained, nondecreasing, and span at most two values. */
  ghost predicate QueueOk(kids: Children, root: int, queue: seq<int>, qlevel: seq<nat>)
    requires |queue| == |qlevel|
  {
    && (forall i, j :: 0 <= i < j < |queue| ==> qlevel[i] <= qlevel[j])
    && (forall j :: 0 <= j < |queue| ==> qlevel[j] <= qlevel[0] + 1 && Walk(kids, root, queue[j], qlevel[j]))
  }

  /** The recorded levels are distances: no chain is shorter. */
  ghost predicate Shortest(kids: Children, root: int, level: map<int, nat>) {
    forall x, n: nat :: x in level && Walk(kids, root, x, n) ==> level[x] <= n
  }

  ghost predicate Queued(queue: seq<int>, qlevel: seq<nat>, y: int, n: nat)
    requires |queue| == |qlevel|
  {
    exists j :: 0 <= j < |queue| && queue[j] == y && qlevel[j] <= n
  }

  /** Every child of a seen process is seen, or queued, at most one level further down. */
  ghost predicate Closed(kids: Children, level: map<int, nat>, queue: seq<int>, qlevel: seq<nat>)
    requires |queue| == |qlevel|
  {
    forall x, y :: x in level && y in Kids(kids, x) ==>
      (y in level && level[y] <= level[x] + 1) || Queued(queue, qlevel, y, level[x] + 1)
  }

  /** A chain of `n` links to an unseen process leaves the seen set through a queued process. */
  lemma {:induction false} ChainCrossesQueue(kids: Children, root: int, level: map<int, nat>, out: seq<int>,
                                             queue: seq<int>, qlevel: seq<nat>, p: int, n: nat)
    requires Frontier(kids, root, level, out, queue, qlevel)
    requires p !in level && Walk(kids, root, p, n)
    ensures queue != [] && qlevel[0] <= n
    decreases n
  {
    if n > 0 {
      var q :| Walk(kids, root, q, n - 1) && p in Kids(kids, q);
      if q in level {
        assert Queued(queue, qlevel, p, level[q] + 1);
      } else {
        ChainCrossesQueue(kids, root, level, out, queue, qlevel, q, n - 1);
      }
    }
  }

  lemma Start(kids: Children, root: int)
    ensures Frontier(kids, root, map[root := 0], [], Kids(kids, root), seq(|Kids(kids, root)|, _ => 1))
  {
    var queue := Kids(kids, root);
    var qlevel: seq<nat> := seq(|queue|, _ => 1);
    assert Walk(kids, root, root, 0);
    forall j | 0 <= j < |queue| ensures Walk(kids, root, queue[j], 1) && Queued(queue, qlevel, queue[j], 1) {
      assert queue[j] in queue && qlevel[j] == 1;
    }
    assert QueueOk(kids, root, queue, qlevel);
    assert Closed(kids, map[root := 0], queue, qlevel);
    assert Shortest(kids, root, map[root := 0]);
  }

  lemma Skip(kids: Children, root: int, level: map<int, nat>, out: seq<int>, queue: seq<int>, qlevel: seq<nat>)
    requires Frontier(kids, root, level, out, queue, qlevel)
    requires queue != [] && queue[0] in level
    ensures Frontier(kids, root, level, out, queue[1..], qlevel[1..])
  {
    forall x, y | x in level && y in Kids(kids, x) && !(y in level && level[y] <= level[x] + 1)
      ensures Queued(queue[1..], qlevel[1..], y, level[x] + 1)
    {
      var j :| 0 <= j < |queue| && queue[j] == y && qlevel[j] <= level[x] + 1;
      assert j > 0 && queue[1..][j - 1] == y;
    }
    assert Closed(kids, level, queue[1..], qlevel[1..]);
    forall j | 0 <= j < |queue| - 1
      ensures Walk(kids, root, queue[1..][j], qlevel[1..][j]) && qlevel[0] <= qlevel[1..][j] <= qlevel[0] + 1
    {
      assert Walk(kids, root, queue[j + 1], qlevel[j + 1]);
    }
    assert QueueOk(kids, root, queue[1..], qlevel[1..]);
  }

  lemma VisitKeepsOut(root: int, level: map<int, nat>, out: seq<int>, p: int, l: nat)
    requires root in level && OutOk(root, level, out) && p !in level
    requires forall x :: x in level ==> level[x] <= l
    ensures OutOk(root, level[p := l], out + [p])
  {
    var level', out' := level[p := l], out + [p];
    assert p != root && forall x :: x in out' <==> x in out || x == p;
    forall i, j | 0 <= i < j < |out'|
      ensures out'[i] != out'[j] && out'[i] in level' && out'[j] in level' && level'[out'[i]] <= level'[out'[j]]
    {
      assert out'[i] == out[i] && out[i] in out;
      if j < |out| {
        assert out'[j] == out[j] && out[j] in out;
      }
    }
  }

  lemma VisitKeepsClosed(kids: Children, level: map<int, nat>, queue: seq<int>, qlevel: seq<nat>)
    requires |queue| == |qlevel| > 0 && Closed(kids, level, queue, qlevel)
    requires queue[0] !in level && forall x :: x in level ==> level[x] <= qlevel[0]
    ensures Closed(kids, level[queue[0] := qlevel[0]], queue[1..] + Kids(kids, queue[0]),
                   qlevel[1..] + seq(|Kids(kids, queue[0])|, _ => qlevel[0] + 1))
  {
    var p, l := queue[0], qlevel[0];
    var level' := level[p := l];
    var queue' := queue[1..] + Kids(kids, p);
    var qlevel' := qlevel[1..] + seq(|Kids(kids, p)|, _ => l + 1);
    forall x, y | x in level' && y in Kids(kids, x) && !(y in level' && level'[y] <= level'[x] + 1)
      ensures Queued(queue', qlevel', y, level'[x] + 1)
    {
      if x == p {
        var k :| 0 <= k < |Kids(kids, p)| && Kids(kids, p)[k] == y;
        assert queue'[|queue| - 1 + k] == y && qlevel'[|queue| - 1 + k] == l + 1;
      } else {
        var j :| 0 <= j < |queue| && queue[j] == y && qlevel[j] <= level[x] + 1;
        assert j > 0 && queue'[j - 1] == y && qlevel'[j - 1] == qlevel[j];
      }
    }
  }

  lemma VisitKeepsQueue(kids: Children, root: int, queue: seq<int>, qlevel: seq<nat>)
    requires |queue| == |qlevel| > 0 && QueueOk(kids, root, queue, qlevel)
    ensures QueueOk(kids, root, queue[1..] + Kids(kids, queue[0]),
                    qlevel[1..] + seq(|Kids(kids, queue[0])|, _ => qlevel[0] + 1))
  {
    var p, l := queue[0], qlevel[0];
    var queue' := queue[1..] + Kids(kids, p);
    var qlevel' := qlevel[1..] + seq(|Kids(kids, p)|, _ => l + 1);
    forall j | 0 <= j < |queue'|
      ensures Walk(kids, root, queue'[j], qlevel'[j]) && l <= qlevel'[j] <= l + 1
      ensures forall i :: 0 <= i < j ==> qlevel'[i] <= qlevel'[j]
    {
      if j < |queue| - 1 {
        assert queue'[j] == queue[j + 1];
      } else {
        assert queue'[j] in Kids(kids, p) && Walk(kids, root, p, l);
      }
    }
  }

  lemma Visit(kids: Children, root: int, level: map<int, nat>, out: seq<int>, queue: seq<int>, qlevel: seq<nat>)
    requires Frontier(kids, root, level, out, queue, qlevel)
    requires queue != [] && queue[0] !in level
    ensures Frontier(kids, root, level[queue[0] := qlevel[0]], out + [queue[0]],
                     queue[1..] + Kids(kids, queue[0]),
                     qlevel[1..] + seq(|Kids(kids, queue[0])|, _ => qlevel[0] + 1))
  {
    var p, l := queue[0], qlevel[0];
    forall n: nat | Walk(kids, root, p, n) ensures l <= n {
      ChainCrossesQueue(kids, root, level, out, queue, qlevel, p, n);
    }
    assert Shortest(kids, root, level[p := l]);
    VisitKeepsOut(root, level, out, p, l);
    VisitKeepsClosed(kids, level, queue, qlevel);
    VisitKeepsQueue(kids, root, queue, qlevel);
  }

  lemma Finished(kids: Children, root: int, level: map<int, nat>, out: seq<int>)
    requires Frontier(kids, root, level, out, [], [])
    ensures forall p :: p in out <==> p != root && Descends(kids, root, p)
    ensures forall i, j :: 0 <= i < j < |out| ==> NoFarther(kids, root, out[i], out[j])
  {
    forall p, n: nat | Walk(kids, root, p, n) ensures p in level {
      if p !in level {
        ChainCrossesQueue(kids, root, level, out, [], [], p, n);
      }
    }
    forall i, j | 0 <= i < j < |out| ensures NoFarther(kids, root, out[i], out[j]) {
      assert out[i] in out && out[j] in out;
      assert level[out[i]] <= level[out[j]] && Walk(kids, root, out[i], level[out[i]]);
    }
  }

  /** Every process that descends from `root` except `root` itself, each exactly once, and in
      nondecreasing distance from the root. */
  method WalkTree(kids: Children, root: int) returns (out: seq<int>)
    ensures forall p :: p in out <==> p != root && Descends(kids, root, p)
    ensures forall i, j :: 0 <= i < j < |out| ==> out[i] != out[j]
    ensures forall i, j :: 0 <= i < j < |out| ==> NoFarther(kids, root, out[i], out[j])
  {
    out := [];
    var queue := Kids(kids, root);
    var seen := {root};
    ghost var all := Mentioned(kids) + {root};
    ghost var level: map<int, nat> := map[root := 0];
    ghost var qlevel: seq<nat> := seq(|queue|, _ => 1);
    Start(kids, root);
    while queue != []
      invariant level.Keys == seen
      invariant Frontier(kids, root, level, out, queue, qlevel)
      invariant seen <= all && Within(queue, all)
      decreases all - seen, |queue|
    {
      var p := queue[0];
      if p in seen {
        Skip(kids, root, level, out, queue, qlevel);
        queue, qlevel := queue[1..], qlevel[1..];
        continue;
      }
      Visit(kids, root, level, out, queue, qlevel);
      seen := seen + {p};
      out := out + [p];
      queue, level, qlevel := queue[1..] + Kids(kids, p), level[p := qlevel[0]],
        qlevel[1..] + seq(|Kids(kids, p)|, _ => qlevel[0] + 1);
    }
    Finished(kids, root, level, out);
  }
}
