/** Scheduling of the build queue (lib/buildq.py) and the dispatcher's claim loop
    (lib/build_dispatcher.py). Row ids are numbers, ordered as their texts are. */
module BuildQueue {
  import opened Ordering

  type Host = string

  datatype Status = Queued | Running | Done | Failed | Cancelled

  datatype Job = Job(id: nat, status: Status, host: Option<Host>, execHost: Option<Host>, attempts: nat,
                     priority: int, createdAt: int, notBefore: Option<int>)

  predicate Due(j: Job, now: int) {
    j.status.Queued? && (j.notBefore.None? || j.notBefore.value <= now)
  }

  /** ORDER BY priority DESC, created_at, id. */
  function ClaimOrder(j: Job): Key {
    Key(-j.priority, j.createdAt, j.id, 0)
  }

  /** What that order means: higher priority first, then the older row, then the smaller id. */
  predicate ComesBefore(a: Job, b: Job) {
    || a.priority > b.priority
    || (a.priority == b.priority && a.createdAt < b.createdAt)
    || (a.priority == b.priority && a.createdAt == b.createdAt && a.id < b.id)
  }

  lemma ClaimOrderMeans(a: Job, b: Job)
    ensures Less(ClaimOrder(a), ClaimOrder(b)) <==> ComesBefore(a, b)
  {
  }

  predicate DistinctIds(rows: seq<Job>) {
    forall i, j :: 0 <= i < j < |rows| ==> rows[i].id != rows[j].id
  }

  function Load(rows: seq<Job>, h: Host): nat {
    if rows == [] then 0
    else (if RunsOn(rows[0], h) then 1 else 0) + Load(rows[1..], h)
  }

  predicate RunsOn(j: Job, h: Host) {
    j.status.Running? && j.execHost == Some(h)
  }

  function QueuedCount(rows: seq<Job>): nat {
    if rows == [] then 0 else (if rows[0].status.Queued? then 1 else 0) + QueuedCount(rows[1..])
  }

  function Slots(caps: map<Host, int>, h: Host): int {
    if h in caps then caps[h] else 0
  }

  lemma {:induction false} UpdateCounts(rows: seq<Job>, i: nat, j: Job, h: Host)
    requires i < |rows|
    ensures Load(rows[i := j], h) ==
        Load(rows, h) - (if RunsOn(rows[i], h) then 1 else 0) + if RunsOn(j, h) then 1 else 0
    ensures QueuedCount(rows[i := j]) ==
            QueuedCount(rows) - (if rows[i].status.Queued? then 1 else 0) + if j.status.Queued? then 1 else 0
  {
    if i > 0 {
      UpdateCounts(rows[1..], i - 1, j, h);
      assert rows[i := j][1..] == rows[1..][i - 1 := j];
    } else {
      assert rows[i := j][1..] == rows[1..];
    }
  }

  lemma {:induction false} LoadMonotone(a: seq<Job>, b: seq<Job>, h: Host)
    requires |a| == |b| && forall i :: 0 <= i < |a| && RunsOn(b[i], h) ==> RunsOn(a[i], h)
    ensures Load(b, h) <= Load(a, h)
  {
    if a != [] {
      LoadMonotone(a[1..], b[1..], h);
    }
  }

  // ---- the statements that end or return a run ----

  /** UPDATE ... WHERE id = `id` AND `p`. */
  function Update(rows: seq<Job>, p: Job -> bool, f: Job -> Job): (r: seq<Job>)
    ensures |r| == |rows| && forall i :: 0 <= i < |rows| ==> r[i] == if p(rows[i]) then f(rows[i]) else rows[i]
  {
    seq(|rows|, i requires 0 <= i < |rows| => if p(rows[i]) then f(rows[i]) else rows[i])
  }

  function Finished(rows: seq<Job>, id: nat, status: Status): seq<Job> {
    Update(rows, (j: Job) => j.id == id, (j: Job) => j.(status := status))
  }

  function CancelledRows(rows: seq<Job>, id: nat): seq<Job> {
    Update(rows, (j: Job) => j.id == id && (j.status.Queued? || j.status.Running?), (j: Job) => j.(status := Cancelled))
  }

  /** The runner could not reach the host: back to the queue, the attempt not counted. */
  function Returned(rows: seq<Job>, id: nat): seq<Job> {
    Update(rows, (j: Job) => j.id == id && j.status.Running?,
           (j: Job) => j.(status := Queued, execHost := None, attempts := if j.attempts > 0 then j.attempts - 1 else 0))
  }

  function Recovered(rows: seq<Job>, maxAttempts: int): seq<Job> {
    Update(rows, (j: Job) => j.status.Running?,
           (j: Job) => j.(status := if j.attempts < maxAttempts then Queued else Failed))
  }

  /** A kill that did not stop the run makes the cancelled row running again. */
  function KillFailed(rows: seq<Job>, id: nat): seq<Job> {
    Update(rows, (j: Job) => j.id == id, (j: Job) => j.(status := Running))
  }

  class Dispatcher {
    const hosts: map<Host, int>     // configured concurrency
    const defaultHost: Host
    var rows: seq<Job>

    constructor (hosts: map<Host, int>, defaultHost: Host)
      ensures this.hosts == hosts && this.defaultHost == defaultHost && rows == []
    {
      this.hosts, this.defaultHost, this.rows := hosts, defaultHost, [];
    }

    function ResolveHost(j: Job): Host {
      if j.host.Some? then j.host.value else defaultHost
    }

    function Started(j: Job): Job {
      j.(status := Running, execHost := Some(ResolveHost(j)), attempts := j.attempts + 1)
    }

    /** Counts the running rows per host in one pass over the table. */
    method FreeSlots() returns (caps: map<Host, int>)
      ensures CapsOk(caps, rows)
    {
      var used: map<Host, nat> := map[];
      for i := 0 to |rows|
        invariant forall h :: (if h in used then used[h] else 0) == Load(rows[..i], h)
      {
        assert rows[..i + 1] == rows[..i] + [rows[i]];
        forall h { LoadAppend(rows[..i], rows[i], h); }
        if rows[i].status.Running? && rows[i].execHost.Some? {
          var h := rows[i].execHost.value;
          used := used[h := if h in used then used[h] + 1 else 1];
        }
      }
      assert rows[..|rows|] == rows;
      caps := map h | h in hosts :: hosts[h] - if h in used then used[h] else 0;
    }

    /** Why a row was passed over: its host is full, or the gate refused it during this call. */
    ghost predicate PassedOver(caps: map<Host, int>, gate: (nat, nat) -> bool, from: nat, to: nat, j: Job) {
      var host := if j.host.Some? then j.host.value else defaultHost;
      host !in caps || caps[host] <= 0 || exists n :: from <= n < to && !gate(j.id, n)
    }

    lemma EarlierWerePassed(cands: seq<Job>, k: nat, caps: map<Host, int>, gate: (nat, nat) -> bool, from: nat, to: nat)
      requires Ascending(cands, ClaimOrder) && k < |cands|
      requires forall m :: 0 <= m < k ==> PassedOver(caps, gate, from, to, cands[m])
      ensures forall j :: j in cands && ComesBefore(j, cands[k]) ==> PassedOver(caps, gate, from, to, j)
    {
      forall j | j in cands && ComesBefore(j, cands[k]) ensures PassedOver(caps, gate, from, to, j) {
        var m :| 0 <= m < |cands| && cands[m] == j;
        ClaimOrderMeans(j, cands[k]);
        assert m > k ==> Less(ClaimOrder(cands[k]), ClaimOrder(cands[m]));
      }
    }

    /** Claims the first due row whose host has a slot and that the gate accepts. The gate may
        change between questions: `gate(id, n)` is its answer to question number `n`. */
    method ClaimNext(caps: map<Host, int>, now: int, gate: (nat, nat) -> bool, asked: nat)
      returns (claimed: Option<nat>, asked': nat)
      requires DistinctIds(rows)
      modifies this
      ensures asked <= asked'
      ensures claimed.None? ==>
                && rows == old(rows)
                && forall j :: j in rows && j.status.Queued? && (j.notBefore.None? || j.notBefore.value <= now) ==>
                     PassedOver(caps, gate, asked, asked', j)
      ensures claimed.Some? ==> claimed.value < |old(rows)|
      ensures claimed.Some? ==>
                var i, row := claimed.value, old(rows)[claimed.value];
                var host := if row.host.Some? then row.host.value else defaultHost;
                && row.status.Queued? && (row.notBefore.None? || row.notBefore.value <= now)
                && host in caps && caps[host] > 0
                && rows == old(rows)[i := row.(status := Running, execHost := Some(host), attempts := row.attempts + 1)]
                && (exists n :: asked <= n < asked' && gate(row.id, n))
                && forall j :: j in old(rows) && j.status.Queued? && (j.notBefore.None? || j.notBefore.value <= now)
                               && ComesBefore(j, row) ==>
                     PassedOver(caps, gate, asked, asked', j)
    {
      var cands := Select(rows, (j: Job) => Due(j, now), ClaimOrder);
      asked' := asked;
      for k := 0 to |cands|
        invariant asked <= asked' && rows == old(rows)
        invariant forall m :: 0 <= m < k ==> PassedOver(caps, gate, asked, asked', cands[m])
      {
        var row := cands[k];
        assert row in cands;
        if Slots(caps, ResolveHost(row)) > 0 {
          asked' := asked' + 1;
          if gate(row.id, asked' - 1) {
            var i :| 0 <= i < |rows| && rows[i].id == row.id;
            assert rows[i] == row;
            EarlierWerePassed(cands, k, caps, gate, asked, asked');
            rows := rows[i := Started(row)];
            return Some(i), asked';
          }
          assert PassedOver(caps, gate, asked, asked', row);
        }
      }
      assert forall j :: j in rows && Due(j, now) ==> j in cands;
      return None, asked';
    }

    /** The row at index `i` was claimed since the loop began, or is untouched. */
    ghost predicate StartedOrSame(was: seq<Job>, rows: seq<Job>, claimed: seq<nat>) {
      && |rows| == |was|
      && (forall i :: i in claimed ==> i < |was| && was[i].status.Queued?)
      && forall i :: 0 <= i < |was| ==>
           var host := if was[i].host.Some? then was[i].host.value else defaultHost;
           rows[i] == if i in claimed
                      then was[i].(status := Running, execHost := Some(host), attempts := was[i].attempts + 1)
                      else was[i]
    }

    ghost predicate CapsOk(caps: map<Host, int>, rows: seq<Job>) {
      caps.Keys == hosts.Keys && forall h :: h in caps ==> caps[h] == hosts[h] - Load(rows, h)
    }

    ghost predicate WithinCapacity(was: seq<Job>, rows: seq<Job>) {
      forall h :: Load(rows, h) <= if Load(was, h) > Slots(hosts, h) then Load(was, h) else Slots(hosts, h)
    }

    /** A due row that comes before a claimed one has a full host or is refused. */
    ghost predicate NoOvertaking(was: seq<Job>, rows: seq<Job>, claimed: seq<nat>, caps: map<Host, int>,
                                 now: int, gate: (nat, nat) -> bool)
      requires forall i :: i in claimed ==> i < |was|
    {
      forall j, i :: j in rows && Due(j, now) && i in claimed && ComesBefore(j, was[i]) ==>
        Slots(caps, ResolveHost(j)) <= 0 || !gate(j.id, 0)
    }

    ghost predicate InOrder(was: seq<Job>, claimed: seq<nat>) {
      forall a, b :: 0 <= a < b < |claimed| ==>
        claimed[a] < |was| && claimed[b] < |was| && ComesBefore(was[claimed[a]], was[claimed[b]])
    }

    lemma ClaimKeepsCaps(caps: map<Host, int>, before: seq<Job>, i: nat, was: seq<Job>)
      requires CapsOk(caps, before) && WithinCapacity(was, before)
      requires i < |before| && before[i].status.Queued? && Slots(caps, ResolveHost(before[i])) > 0
      ensures var h := ResolveHost(before[i]);
              var rows := before[i := Started(before[i])];
              && h in caps && CapsOk(caps[h := caps[h] - 1], rows) && WithinCapacity(was, rows)
              && QueuedCount(rows) < QueuedCount(before)
    {
      forall h {
        UpdateCounts(before, i, Started(before[i]), h);
      }
      UpdateCounts(before, i, Started(before[i]), defaultHost);
    }

    ghost predicate Stable(gate: (nat, nat) -> bool) {
      forall id, n :: gate(id, n) == gate(id, 0)
    }

    /** Every queued row (every due one, if a time is given) has a full host or is refused. */
    ghost predicate Exhausted(rows: seq<Job>, now: Option<int>, gate: (nat, nat) -> bool) {
      forall j :: j in rows && j.status.Queued?
                  && (now.None? || j.notBefore.None? || j.notBefore.value <= now.value) ==>
        var host := if j.host.Some? then j.host.value else defaultHost;
        host !in hosts || Load(rows, host) >= hosts[host] || !gate(j.id, 0)
    }

    lemma RefusalsExhaust(caps: map<Host, int>, rows: seq<Job>, now: int, gate: (nat, nat) -> bool, from: nat, to: nat)
      requires CapsOk(caps, rows)
      requires forall j :: j in rows && Due(j, now) ==> PassedOver(caps, gate, from, to, j)
      ensures Stable(gate) ==> Exhausted(rows, Some(now), gate)
    {
    }

    ghost predicate Steady(clock: nat -> int, gate: (nat, nat) -> bool) {
      (forall n :: clock(n) == clock(0)) && Stable(gate)
    }

    lemma ClaimExtends(was: seq<Job>, before: seq<Job>, claimed: seq<nat>, i: nat)
      requires DistinctIds(before) && StartedOrSame(was, before, claimed)
      requires i < |before| && before[i].status.Queued?
      ensures StartedOrSame(was, before[i := Started(before[i])], claimed + [i])
      ensures DistinctIds(before[i := Started(before[i])])
      ensures i !in claimed && before[i] == was[i]
    {
    }

    lemma KeepsOrder(was: seq<Job>, before: seq<Job>, claimed: seq<nat>, caps: map<Host, int>, now: int,
                     gate: (nat, nat) -> bool, i: nat)
      requires DistinctIds(before) && StartedOrSame(was, before, claimed)
      requires NoOvertaking(was, before, claimed, caps, now, gate) && InOrder(was, claimed)
      requires i < |before| && Due(before[i], now) && gate(before[i].id, 0)
      requires ResolveHost(before[i]) in caps && Slots(caps, ResolveHost(before[i])) > 0
      requires forall j :: j in before && Due(j, now) && ComesBefore(j, before[i]) ==>
                 Slots(caps, ResolveHost(j)) <= 0 || !gate(j.id, 0)
      ensures var h := ResolveHost(before[i]);
              var rows := before[i := Started(before[i])];
              && NoOvertaking(was, rows, claimed + [i], caps[h := caps[h] - 1], now, gate)
              && InOrder(was, claimed + [i])
    {
      ClaimExtends(was, before, claimed, i);
      var rows := before[i := Started(before[i])];
      forall j | j in rows && Due(j, now) ensures j in before {
        var m :| 0 <= m < |rows| && rows[m] == j;
        assert m != i && before[m] == j;
      }
      forall a | 0 <= a < |claimed|
        ensures claimed[a] < |was| && ComesBefore(was[claimed[a]], was[i])
      {
        assert claimed[a] in claimed && before[i] in before;
        assert before[claimed[a]].id == was[claimed[a]].id;
        assert claimed[a] != i;
        assert !ComesBefore(before[i], was[claimed[a]]);
      }
    }

    /** Between two claims: what the claims so far have done and what they have passed over. */
    ghost predicate LoopInv(was: seq<Job>, rows: seq<Job>, claimed: seq<nat>, caps: map<Host, int>,
                            clock: nat -> int, gate: (nat, nat) -> bool) {
      && StartedOrSame(was, rows, claimed) && DistinctIds(rows)
      && WithinCapacity(was, rows) && CapsOk(caps, rows)
      && (Steady(clock, gate) ==> NoOvertaking(was, rows, claimed, caps, clock(0), gate) && InOrder(was, claimed))
    }

    lemma ClaimKeepsLoopInv(was: seq<Job>, before: seq<Job>, claimed: seq<nat>, caps: map<Host, int>,
                            clock: nat -> int, gate: (nat, nat) -> bool, reading: nat, from: nat, to: nat, i: nat)
      requires LoopInv(was, before, claimed, caps, clock, gate)
      requires i < |before| && Due(before[i], clock(reading)) && Slots(caps, ResolveHost(before[i])) > 0
      requires exists n :: from <= n < to && gate(before[i].id, n)
      requires forall j :: j in before && Due(j, clock(reading)) && ComesBefore(j, before[i]) ==>
                 PassedOver(caps, gate, from, to, j)
      ensures var h := ResolveHost(before[i]);
              var rows := before[i := Started(before[i])];
              && h in caps && LoopInv(was, rows, claimed + [i], caps[h := caps[h] - 1], clock, gate)
              && QueuedCount(rows) < QueuedCount(before)
    {
      ClaimKeepsCaps(caps, before, i, was);
      ClaimExtends(was, before, claimed, i);
      if Steady(clock, gate) {
        KeepsOrder(was, before, claimed, caps, clock(0), gate, i);
      }
    }

    /** One round of the claim loop. */
    method ClaimRound(ghost was: seq<Job>, claimed: seq<nat>, caps: map<Host, int>, clock: nat -> int, reading: nat,
                      gate: (nat, nat) -> bool, asked: nat)
      returns (more: bool, claimed': seq<nat>, caps': map<Host, int>, asked': nat)
      requires LoopInv(was, rows, claimed, caps, clock, gate)
      modifies this
      ensures LoopInv(was, rows, claimed', caps', clock, gate)
      ensures more ==> QueuedCount(rows) < QueuedCount(old(rows))
      ensures !more && Stable(gate) ==> Exhausted(rows, Some(clock(reading)), gate)
    {
      ghost var before := rows;
      var c: Option<nat>;
      c, asked' := ClaimNext(caps, clock(reading), gate, asked);
      if c.None? {
        RefusalsExhaust(caps, rows, clock(reading), gate, asked, asked');
        return false, claimed, caps, asked';
      }
      var i := c.value;
      var h := rows[i].execHost.value;
      ClaimKeepsLoopInv(was, before, claimed, caps, clock, gate, reading, asked, asked', i);
      return true, claimed + [i], caps[h := caps[h] - 1], asked';
    }

    /** The claim loop of one tick. It ends; a host never runs more than it ran before or than it
        may run; while clock and gate hold still, rows are claimed in queue order and what stays
        due has a full host or is refused. `clock(n)` is the n-th reading. */
    method ClaimAll(clock: nat -> int, gate: (nat, nat) -> bool) returns (claimed: seq<nat>, readings: nat)
      requires DistinctIds(rows)
      modifies this
      ensures StartedOrSame(old(rows), rows, claimed) && WithinCapacity(old(rows), rows)
      ensures Steady(clock, gate) ==> InOrder(old(rows), claimed)
      ensures Stable(gate) ==> Exhausted(rows, if readings == 0 then None else Some(clock(readings - 1)), gate)
    {
      var caps := FreeSlots();
      var asked := 0;
      claimed, readings := [], 0;
      while exists h :: h in caps && caps[h] > 0
        invariant LoopInv(old(rows), rows, claimed, caps, clock, gate)
        decreases QueuedCount(rows)
      {
        var more;
        more, claimed, caps, asked := ClaimRound(old(rows), claimed, caps, clock, readings, gate, asked);
        readings := readings + 1;
        if !more {
          return;
        }
      }
    }

    /** The named row ends and frees one slot of the host that ran it; no other row changes. */
    method Finish(id: nat, status: Status)
      requires DistinctIds(rows)
      modifies this
      ensures |rows| == |old(rows)|
      ensures forall i :: 0 <= i < |rows| && old(rows)[i].id != id ==> rows[i] == old(rows)[i]
      ensures forall i :: 0 <= i < |rows| && old(rows)[i].id == id ==> rows[i] == old(rows)[i].(status := status)
      ensures forall i, h :: 0 <= i < |rows| && old(rows)[i].id == id && !status.Running? ==>
                Load(rows, h) == Load(old(rows), h) - if RunsOn(old(rows)[i], h) then 1 else 0
    {
      rows := Finished(rows, id, status);
      forall i, h | 0 <= i < |rows| && old(rows)[i].id == id && !status.Running?
        ensures Load(rows, h) == Load(old(rows), h) - if RunsOn(old(rows)[i], h) then 1 else 0
      {
        UpdateCounts(old(rows), i, old(rows)[i].(status := status), h);
        assert rows == old(rows)[i := old(rows)[i].(status := status)];
      }
    }

    /** The status before, if the row exists; a queued or running row becomes cancelled. */
    method Cancel(id: nat) returns (prev: Option<Status>)
      requires DistinctIds(rows)
      modifies this
      ensures rows == CancelledRows(old(rows), id)
      ensures |rows| == |old(rows)| && forall i :: 0 <= i < |rows| ==>
                var was := old(rows)[i];
                rows[i] == if was.id == id && (was.status.Queued? || was.status.Running?)
                           then was.(status := Cancelled) else was
      ensures forall j :: j in old(rows) && j.id == id ==> prev == Some(j.status)
      ensures prev.None? <==> forall j :: j in old(rows) ==> j.id != id
      ensures prev.None? ==> rows == old(rows)
    {
      prev := None;
      for i := 0 to |rows|
        invariant rows == old(rows)
        invariant forall m :: 0 <= m < i ==> (rows[m].id == id ==> prev == Some(rows[m].status))
        invariant prev.Some? ==> exists m :: 0 <= m < i && rows[m].id == id
      {
        if rows[i].id == id {
          prev := Some(rows[i].status);
        }
      }
      if prev.Some? && (prev.value.Queued? || prev.value.Running?) {
        rows := CancelledRows(rows, id);
      }
      assert forall i :: 0 <= i < |rows| ==> rows[i] == CancelledRows(old(rows), id)[i];
    }

    /** The host of a run could not be reached: the row is queued again for any host, and the attempt
        does not count. A row that is no longer running stays as it is. */
    method ReturnToQueue(id: nat)
      modifies this
      ensures rows == Returned(old(rows), id)
      ensures |rows| == |old(rows)| && forall i :: 0 <= i < |rows| ==>
                var was := old(rows)[i];
                rows[i] == if was.id != id || !was.status.Running? then was
                           else if was.attempts == 0 then was.(status := Queued, execHost := None)
                           else was.(status := Queued, execHost := None, attempts := was.attempts - 1)
    {
      rows := Returned(rows, id);
    }

    /** A kill that did not stop the run: the row is running again, on the host it had. */
    method RecordFailedKill(id: nat)
      modifies this
      ensures rows == KillFailed(old(rows), id)
      ensures |rows| == |old(rows)| && forall i :: 0 <= i < |rows| ==>
                rows[i] == if old(rows)[i].id == id then old(rows)[i].(status := Running) else old(rows)[i]
    {
      rows := KillFailed(rows, id);
    }

    /** Every running row at start: failed, or queued again while attempts remain. */
    method Recover(maxAttempts: int) returns (recovered: seq<nat>)
      modifies this
      ensures rows == Recovered(old(rows), maxAttempts)
      ensures |rows| == |old(rows)| && forall i :: 0 <= i < |rows| ==>
                var was := old(rows)[i];
                rows[i] == if !was.status.Running? then was
                           else if was.attempts < maxAttempts then was.(status := Queued)
                           else was.(status := Failed)
      ensures forall h :: Load(rows, h) == 0
    {
      recovered := [];
      for i := 0 to |rows|
        invariant |rows| == |old(rows)|
        invariant forall m :: 0 <= m < |rows| ==>
            rows[m] == if m < i then Recovered(old(rows), maxAttempts)[m] else old(rows)[m]
      {
        if rows[i].status.Running? {
          recovered := recovered + [rows[i].id];
          rows := rows[i := rows[i].(status := if rows[i].attempts < maxAttempts then Queued else Failed)];
        }
      }
      forall h { NothingRuns(rows, h); }
    }
  }

  lemma {:induction false} NothingRuns(rows: seq<Job>, h: Host)
    requires forall i :: 0 <= i < |rows| ==> !rows[i].status.Running?
    ensures Load(rows, h) == 0
  {
    if rows != [] {
      NothingRuns(rows[1..], h);
    }
  }

  // ---- capacity over runs ----

  datatype Step =
    | Enqueue(job: Job)
    | Claims(claimed: seq<nat>)
    | Ends(id: nat, status: Status)
    | CancelRow(id: nat)
    | HostUnreachable(id: nat)
    | Restart(maxAttempts: int)

  /** One step of the queue; `Claims` is any outcome a tick's claim loop may have. */
  ghost predicate StepOk(d: Dispatcher, rows: seq<Job>, s: Step, rows': seq<Job>) {
    match s
    case Enqueue(job) => job.status.Queued? && rows' == rows + [job]
    case Claims(claimed) => d.StartedOrSame(rows, rows', claimed) && d.WithinCapacity(rows, rows')
    case Ends(id, status) => (status.Done? || status.Failed?) && rows' == Finished(rows, id, status)
    case CancelRow(id) => rows' == CancelledRows(rows, id)
    case HostUnreachable(id) => rows' == Returned(rows, id)
    case Restart(max) => rows' == Recovered(rows, max)
  }

  ghost predicate IsRun(d: Dispatcher, states: seq<seq<Job>>, steps: seq<Step>) {
    && |states| == |steps| + 1 && states[0] == []
    && forall i :: 0 <= i < |steps| ==> StepOk(d, states[i], steps[i], states[i + 1])
  }

  /** Capacity of a host; a host that is not configured has none. */
  function Capacity(d: Dispatcher, h: Host): nat {
    if Slots(d.hosts, h) > 0 then Slots(d.hosts, h) else 0
  }

  lemma {:induction false} LoadAppend(rows: seq<Job>, j: Job, h: Host)
    ensures Load(rows + [j], h) == Load(rows, h) + if RunsOn(j, h) then 1 else 0
  {
    if rows != [] {
      LoadAppend(rows[1..], j, h);
      assert (rows + [j])[1..] == rows[1..] + [j];
    }
  }

  /** Over every run of enqueues, ticks, endings, cancels, returns and restarts, no more rows of a
      host are marked running than it is configured for. A cancelled row no longer counts, although
      its process runs on until it is killed. */
  lemma {:induction false} CapacityKept(d: Dispatcher, states: seq<seq<Job>>, steps: seq<Step>, n: nat, h: Host)
    requires IsRun(d, states, steps) && n <= |steps|
    ensures Load(states[n], h) <= Capacity(d, h)
    decreases n
  {
    if n > 0 {
      CapacityKept(d, states, steps, n - 1, h);
      var rows, rows' := states[n - 1], states[n];
      assert StepOk(d, rows, steps[n - 1], rows');
      match steps[n - 1]
      case Enqueue(job) => LoadAppend(rows, job, h);
      case Claims(_) =>
      case _ => LoadMonotone(rows, rows', h);
    }
  }

  /** A failed kill is the exception: it keeps a host within capacity exactly when a slot is free
      on the host that still runs the cancelled job. */
  lemma FailedKillKeepsCapacity(d: Dispatcher, rows: seq<Job>, i: nat, h: Host)
    requires DistinctIds(rows) && i < |rows| && rows[i].status.Cancelled? && rows[i].execHost == Some(h)
    requires Load(rows, h) <= Capacity(d, h)
    ensures Load(KillFailed(rows, rows[i].id), h) <= Capacity(d, h) <==> Load(rows, h) < Capacity(d, h)
  {
    UpdateCounts(rows, i, rows[i].(status := Running), h);
    assert KillFailed(rows, rows[i].id) == rows[i := rows[i].(status := Running)];
  }

  function NewJob(id: nat): Job {
    Job(id, Queued, None, None, 0, 0, 0, None)
  }

  /** The exception is reached: on a host for one job, a running job is cancelled, the next one
      starts in its place, and then the kill fails. Two jobs run. */
  lemma FailedKillOverruns(d: Dispatcher, h: Host) returns (states: seq<seq<Job>>, steps: seq<Step>)
    requires d.hosts == map[h := 1] && d.defaultHost == h
    ensures IsRun(d, states, steps)
    ensures var rows := states[|steps|];
            && |rows| == 2 && rows[0].status.Cancelled? && rows[0].execHost == Some(h)
            && Load(rows, h) == Capacity(d, h)
            && Load(KillFailed(rows, rows[0].id), h) == 2 > Capacity(d, h)
  {
    var a, b := NewJob(0), NewJob(1);
    var a', b' := d.Started(a), d.Started(b);
    var cancelled := a'.(status := Cancelled);
    states := [[], [a], [a'], [cancelled], [cancelled, b], [cancelled, b']];
    steps := [Enqueue(a), Claims([0]), CancelRow(0), Enqueue(b), Claims([1])];
    assert CancelledRows([a'], 0) == [cancelled];
    forall host
      ensures Load([a'], host) == Load([cancelled, b'], host) == if host == h then 1 else 0
      ensures Load([a', b'], host) == if host == h then 2 else 0
    {
      LoadOfTwo(a, b, host);
      LoadOfTwo(a', b', host);
      LoadOfTwo(cancelled, b, host);
      LoadOfTwo(cancelled, b', host);
    }
    assert StepOk(d, states[0], steps[0], states[1]);
    assert StepOk(d, states[1], steps[1], states[2]);
    assert StepOk(d, states[3], steps[3], states[4]);
    assert StepOk(d, states[4], steps[4], states[5]);
    assert KillFailed([cancelled, b'], 0) == [a', b'];
  }

  lemma LoadOfTwo(x: Job, y: Job, h: Host)
    ensures Load([x], h) == if RunsOn(x, h) then 1 else 0
    ensures Load([x, y], h) == Load([x], h) + if RunsOn(y, h) then 1 else 0
  {
    LoadAppend([x], y, h);
    assert [x] + [y] == [x, y];
  }
}
