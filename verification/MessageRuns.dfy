/** Runs of the message queue: any interleaving of its statements, with the head of a batch read in
    one step and claimed in another. */
module MessageRuns {
  import opened Ordering
  import opened MessageQueue

  datatype Step =
    | Arrive(row: Row)
    | ExpireRows(shard: Shard, now: int)
    | ClaimHead(shard: Shard, head: Row, limit: int)
    | Steer(shard: Shard, channel: ChannelId, limit: int)
    | Steal(thief: Shard, victim: Shard, limit: int, now: int, cutoff: int)
    | ReleaseRows(ids: set<nat>)
    | FailAll(shard: Shard, code: string, now: int)
    | Reap(cutoff: int)
    | SkipRows(ids: set<nat>)                    // cancelled, flushed, timed out, swept at start
    | EndRows(ids: set<nat>, crashed: bool)
    | ConsumeReply(reply: Row)

  predicate Possible(t: Table, s: Step) {
    match s
    case Arrive(r) =>
      && r.id == t.nextId && r.status.Queued? && r.outcome.Unset? && r.claimedBy.None? && r.notBefore.None?
      && !r.message.ErrorFor?
    case ConsumeReply(r) => r in t.rows && IsReply(r)
    case _ => true
  }

  /** The rows a step claims. */
  function Taken(rows: seq<Row>, s: Step): seq<Row>
    requires DistinctIds(rows)
  {
    match s
    case ClaimHead(shard, head, limit) => BatchTargets(rows, shard, head, limit)
    case Steer(shard, c, limit) => Limit(SteerableRows(rows, shard, c), limit)
    case Steal(_, victim, limit, now, cutoff) => StealTargets(rows, victim, now, cutoff, limit)
    case _ => []
  }

  function After(t: Table, s: Step): Table
    requires ValidTable(t)
  {
    match s
    case Arrive(r) => Table(t.rows + [r], t.nextId + 1)
    case ExpireRows(shard, now) => AfterExpire(t, shard, now)
    case FailAll(shard, code, now) => AfterFailCalls(t, shard, code, now)
    case ReleaseRows(ids) => t.(rows := Updated(t.rows, ids, Requeue))
    case Reap(cutoff) => t.(rows := Updated(t.rows, StaleIds(t.rows, cutoff), Skip))
    case SkipRows(ids) => t.(rows := Updated(t.rows, ids, Skip))
    case EndRows(ids, crashed) => t.(rows := Updated(t.rows, ids, End(crashed)))
    case ConsumeReply(r) => t.(rows := Updated(t.rows, {r.id}, Consume))
    case ClaimHead(shard, _, _) => t.(rows := Updated(t.rows, Ids(Taken(t.rows, s)), Claim(shard)))
    case Steer(shard, _, _) => t.(rows := Updated(t.rows, Ids(Taken(t.rows, s)), Claim(shard)))
    case Steal(thief, _, _, _, _) => t.(rows := Updated(t.rows, Ids(Taken(t.rows, s)), Claim(thief)))
  }

  /** The head a claim uses was read from the table as it is now or was before. */
  ghost predicate HeadWasRead(tables: seq<Table>, i: nat, shard: Shard, head: Row)
    requires i < |tables|
  {
    exists j :: 0 <= j <= i && ValidTable(tables[j]) && First(HeadRows(tables[j].rows, shard)) == Some(head)
  }

  ghost predicate IsRun(tables: seq<Table>, steps: seq<Step>) {
    && |tables| == |steps| + 1 && tables[0] == Table([], 0)
    && forall i :: 0 <= i < |steps| ==>
         && ValidTable(tables[i]) && Possible(tables[i], steps[i]) && tables[i + 1] == After(tables[i], steps[i])
         && (steps[i].ClaimHead? ==> HeadWasRead(tables, i, steps[i].shard, steps[i].head))
  }

  // ---- one step ----

  /** The edit a step makes to the rows that are there, if it makes only one. */
  function EditOf(t: Table, s: Step): (set<nat>, Edit)
    requires ValidTable(t) && !s.Arrive?
  {
    match s
    case ExpireRows(shard, now) => (Ids(OverdueRows(t.rows, shard, now)), Refuse(EXPIRED))
    case FailAll(shard, code, now) => (Ids(OpenCallRows(t.rows, shard)), Refuse(code))
    case ReleaseRows(ids) => (ids, Requeue)
    case Reap(cutoff) => (StaleIds(t.rows, cutoff), Skip)
    case SkipRows(ids) => (ids, Skip)
    case EndRows(ids, crashed) => (ids, End(crashed))
    case ConsumeReply(r) => ({r.id}, Consume)
    case ClaimHead(shard, _, _) => (Ids(Taken(t.rows, s)), Claim(shard))
    case Steer(shard, _, _) => (Ids(Taken(t.rows, s)), Claim(shard))
    case Steal(thief, _, _, _, _) => (Ids(Taken(t.rows, s)), Claim(thief))
  }

  /** A step is an edit of some rows, after which rows may be added: an arrival, or error replies. */
  lemma StepShape(t: Table, s: Step)
    requires ValidTable(t) && !s.Arrive?
    ensures var (ids, e) := EditOf(t, s);
            && (forall x :: x in Updated(t.rows, ids, e) ==> x in After(t, s).rows)
            && (forall x :: x in After(t, s).rows ==> x in Updated(t.rows, ids, e) || (x.status.Queued? && IsReply(x)))
  {
    if s.ExpireRows? {
      var refused := OverdueRows(t.rows, s.shard, s.now);
      NewRepliesWait(Table(Updated(t.rows, Ids(refused), Refuse(EXPIRED)), t.nextId), refused, EXPIRED, s.now);
    } else if s.FailAll? {
      var refused := OpenCallRows(t.rows, s.shard);
      NewRepliesWait(Table(Updated(t.rows, Ids(refused), Refuse(s.code)), t.nextId), refused, s.code, s.now);
    }
  }

  lemma {:induction false} NewRepliesWait(t: Table, refused: seq<Row>, code: string, now: int)
    ensures forall x :: x in t.rows ==> x in AddReplies(t, refused, code, now).rows
    ensures forall x :: x in AddReplies(t, refused, code, now).rows ==> x in t.rows || (x.status.Queued? && IsReply(x))
  {
    if refused != [] {
      NewRepliesWait(t, refused[..|refused| - 1], code, now);
    }
  }

  lemma StepKeepsValid(t: Table, s: Step)
    requires ValidTable(t) && Possible(t, s)
    ensures ValidTable(After(t, s))
  {
    match s
    case Arrive(r) =>
    case ExpireRows(shard, now) => AfterExpireValid(t, shard, now);
    case FailAll(shard, code, now) => AfterRefusalValid(t, OpenCallRows(t.rows, shard), code, now);
    case _ =>
      var (ids, e) := EditOf(t, s);
      UpdatedKeepsIds(t.rows, ids, e);
  }

  lemma {:induction false} EveryTableValid(tables: seq<Table>, steps: seq<Step>, n: nat)
    requires IsRun(tables, steps) && n <= |steps|
    ensures ValidTable(tables[n])
    decreases n
  {
    if n > 0 {
      EveryTableValid(tables, steps, n - 1);
      StepKeepsValid(tables[n - 1], steps[n - 1]);
    }
  }

  /** The same row, later: only status, outcome and claimer may differ. */
  predicate Same(r: Row, x: Row) {
    x == r.(status := x.status, outcome := x.outcome, claimedBy := x.claimedBy)
  }

  /** A step may put a row back on the queue only by releasing it. */
  predicate Follows(s: Step, r: Row, x: Row) {
    Same(r, x) && (!r.status.Queued? && x.status.Queued? ==> s.ReleaseRows? && r.id in s.ids)
  }

  lemma EditedRow(rows: seq<Row>, ids: set<nat>, e: Edit, r: Row) returns (x: Row)
    requires r in rows
    ensures x in Updated(rows, ids, e) && x == if r.id in ids && Applies(e, r) then Edited(r, e) else r
    ensures Same(r, x) && (!r.status.Queued? && x.status.Queued? ==> e.Requeue? && r.id in ids)
  {
    var i :| 0 <= i < |rows| && rows[i] == r;
    x := Updated(rows, ids, e)[i];
    assert x in Updated(rows, ids, e);
  }

  lemma RowLives(t: Table, s: Step, r: Row) returns (x: Row)
    requires ValidTable(t) && Possible(t, s) && r in t.rows
    ensures x in After(t, s).rows && Follows(s, r, x)
  {
    if s.Arrive? {
      return r;
    }
    StepShape(t, s);
    var (ids, e) := EditOf(t, s);
    x := EditedRow(t.rows, ids, e, r);
  }

  lemma RowBefore(rows: seq<Row>, ids: set<nat>, e: Edit, x: Row) returns (r: Row)
    requires x in Updated(rows, ids, e)
    ensures r in rows && x == if r.id in ids && Applies(e, r) then Edited(r, e) else r
  {
    var after := Updated(rows, ids, e);
    var i :| 0 <= i < |after| && after[i] == x;
    r := rows[i];
  }

  /** Rows are never lost, and what identifies them never changes. */
  lemma {:induction false} RowStays(tables: seq<Table>, steps: seq<Step>, i: nat, n: nat, r: Row) returns (x: Row)
    requires IsRun(tables, steps) && i <= n <= |steps| && r in tables[i].rows
    ensures x in tables[n].rows && Same(r, x)
    ensures !r.status.Queued? && (forall k :: i <= k < n && steps[k].ReleaseRows? ==> r.id !in steps[k].ids) ==>
        !x.status.Queued?
    decreases n
  {
    if i == n {
      return r;
    }
    var y := RowStays(tables, steps, i, n - 1, r);
    x := RowLives(tables[n - 1], steps[n - 1], y);
  }

  // ---- ownership ----

  lemma TakenAreQueued(rows: seq<Row>, s: Step)
    requires DistinctIds(rows)
    ensures forall r :: r in Taken(rows, s) ==> r in rows && r.status.Queued? && !IsReply(r)
  {
    match s
    case ClaimHead(shard, head, limit) => BatchTargetsSpec(rows, shard, head, limit);
    case Steer(shard, c, limit) => PrefixMembers(Taken(rows, s), SteerableRows(rows, shard, c));
    case Steal(_, victim, limit, now, cutoff) => StealTargetsSpec(rows, victim, now, cutoff, limit);
    case _ =>
  }

  lemma TakenRuns(t: Table, s: Step, r: Row) returns (x: Row)
    requires ValidTable(t) && Possible(t, s) && r in Taken(t.rows, s)
    ensures x in After(t, s).rows && Same(r, x) && x.status.InProgress?
  {
    TakenAreQueued(t.rows, s);
    assert r.id in Ids(Taken(t.rows, s));
    var (ids, e) := EditOf(t, s);
    x := EditedRow(t.rows, ids, e, r);
  }

  /** A row that one claim returned is not returned by another, whoever claims and whatever is read
      in between, unless it was released after the first. */
  lemma OwnedUntilReleased(tables: seq<Table>, steps: seq<Step>, i: nat, j: nat, r: Row)
    requires IsRun(tables, steps) && i < j < |steps|
    requires r in Taken(tables[i].rows, steps[i])
    requires forall k :: i < k < j && steps[k].ReleaseRows? ==> r.id !in steps[k].ids
    ensures r.id !in Ids(Taken(tables[j].rows, steps[j]))
  {
    var claimed := TakenRuns(tables[i], steps[i], r);
    var x := RowStays(tables, steps, i + 1, j, claimed);
    EveryTableValid(tables, steps, j);
    TakenAreQueued(tables[j].rows, steps[j]);
    SameRow(tables[j].rows, x);
  }

  /** In one claim no row is returned twice. */
  lemma TakenOnce(rows: seq<Row>, s: Step)
    requires DistinctIds(rows)
    ensures forall i, j :: 0 <= i < j < |Taken(rows, s)| ==> Taken(rows, s)[i].id != Taken(rows, s)[j].id
  {
    var t := Taken(rows, s);
    TakenAreQueued(rows, s);
    match s
    case ClaimHead(shard, head, limit) => BatchTargetsSpec(rows, shard, head, limit);
    case Steer(shard, c, limit) => assert Ascending(t, DispatchOrder);
    case Steal(_, victim, limit, now, cutoff) => StealTargetsSpec(rows, victim, now, cutoff, limit);
    case _ =>
  }

  /** A call or internal row is alone in its batch; all other batches are of one channel. */
  lemma BatchShape(rows: seq<Row>, s: Step, a: Row, b: Row)
    requires DistinctIds(rows) && s.ClaimHead? && a in Taken(rows, s) && b in Taken(rows, s)
    ensures a.channelId == b.channelId
    ensures Alone(a) ==> Taken(rows, s) == [a]
  {
    BatchTargetsSpec(rows, s.shard, s.head, s.limit);
  }

  ghost predicate NoReplyRuns(rows: seq<Row>) {
    forall r :: r in rows && r.status.InProgress? ==> !IsReply(r)
  }

  lemma RunningIsNoReply(t: Table, s: Step, x: Row)
    requires ValidTable(t) && !s.Arrive? && NoReplyRuns(t.rows) && x.status.InProgress?
    requires var (ids, e) := EditOf(t, s); x in Updated(t.rows, ids, e)
    ensures !IsReply(x)
  {
    var (ids, e) := EditOf(t, s);
    var r := RowBefore(t.rows, ids, e, x);
    if e.Claim? && r.id in ids {
      TakenAreQueued(t.rows, s);
      var y :| y in Taken(t.rows, s) && y.id == r.id;
      SameRow(t.rows, r);
    }
  }

  lemma StepKeepsRepliesOut(t: Table, s: Step)
    requires ValidTable(t) && Possible(t, s) && NoReplyRuns(t.rows)
    ensures NoReplyRuns(After(t, s).rows)
  {
    if !s.Arrive? {
      StepShape(t, s);
      forall x | x in After(t, s).rows && x.status.InProgress? ensures !IsReply(x) {
        RunningIsNoReply(t, s, x);
      }
    }
  }

  /** No reply row is ever run as a turn. */
  lemma {:induction false} RepliesNeverRun(tables: seq<Table>, steps: seq<Step>, n: nat)
    requires IsRun(tables, steps) && n <= |steps|
    ensures NoReplyRuns(tables[n].rows)
    decreases n
  {
    if n > 0 {
      RepliesNeverRun(tables, steps, n - 1);
      StepKeepsRepliesOut(tables[n - 1], steps[n - 1]);
    }
  }

  // ---- thieves ----

  /** A row run by another shard than the one it was sent to. */
  predicate Stolen(r: Row) {
    r.status.InProgress? && r.claimedBy != Some(r.agent)
  }

  predicate SameLine(a: Row, b: Row) {
    a.agent == b.agent && a.channelId == b.channelId && !a.channelId.Zero?
  }

  ghost predicate OneThief(rows: seq<Row>) {
    forall a, b :: a in rows && b in rows && Stolen(a) && Stolen(b) && SameLine(a, b) ==> a.claimedBy == b.claimedBy
  }

  /** A batch is of the shard that claims it. */
  lemma BatchIsOwn(tables: seq<Table>, steps: seq<Step>, n: nat, r: Row)
    requires IsRun(tables, steps) && n < |steps| && steps[n].ClaimHead?
    requires r in Taken(tables[n].rows, steps[n])
    ensures r.agent == steps[n].shard
  {
    var s := steps[n];
    BatchTargetsSpec(tables[n].rows, s.shard, s.head, s.limit);
    if Alone(s.head) {
      var j :| 0 <= j <= n && ValidTable(tables[j]) && First(HeadRows(tables[j].rows, s.shard)) == Some(s.head);
      var x := RowStays(tables, steps, j, n, s.head);
      SameRow(tables[n].rows, x);
    }
  }

  lemma StealKeepsOneThief(t: Table, s: Step)
    requires ValidTable(t) && s.Steal? && OneThief(t.rows)
    ensures OneThief(After(t, s).rows)
  {
    var taken := Taken(t.rows, s);
    StealTargetsSpec(t.rows, s.victim, s.now, s.cutoff, s.limit);
    forall x | x in After(t, s).rows && Stolen(x) ensures x in t.rows || ThiefRow(t.rows, s, x) {
      var r := RowBefore(t.rows, Ids(taken), Claim(s.thief), x);
      if r.id in Ids(taken) {
        var y :| y in taken && y.id == r.id;
        SameRow(t.rows, r);
        assert ThiefRow(t.rows, s, x);
      }
    }
    forall x, y | x in After(t, s).rows && y in After(t, s).rows && ThiefRow(t.rows, s, x) && y in t.rows && Stolen(y)
      ensures !SameLine(x, y) && !SameLine(y, x)
    {
      var r :| r in t.rows && r.id == x.id && Eligible(t.rows, s.victim, s.now, s.cutoff, r)
               && x == Edited(r, Claim(s.thief));
    }
  }

  ghost predicate ThiefRow(rows: seq<Row>, s: Step, x: Row)
    requires s.Steal?
  {
    exists r :: r in rows && r.id == x.id && Eligible(rows, s.victim, s.now, s.cutoff, r)
                && x == Edited(r, Claim(s.thief))
  }

  lemma OwnClaimStealsNothing(t: Table, s: Step, x: Row)
    requires ValidTable(t) && !s.Arrive? && !s.Steal?
    requires s.ClaimHead? || s.Steer? ==> forall r :: r in Taken(t.rows, s) ==> r.agent == s.shard
    requires var (ids, e) := EditOf(t, s); x in Updated(t.rows, ids, e)
    requires Stolen(x)
    ensures x in t.rows
  {
    var (ids, e) := EditOf(t, s);
    var r := RowBefore(t.rows, ids, e, x);
    if e.Claim? && r.id in ids {
      var y :| y in Taken(t.rows, s) && y.id == r.id;
      TakenAreQueued(t.rows, s);
      SameRow(t.rows, r);
    }
  }

  lemma StepKeepsOneThief(t: Table, s: Step)
    requires ValidTable(t) && Possible(t, s) && OneThief(t.rows) && !s.Steal?
    requires s.ClaimHead? || s.Steer? ==> forall r :: r in Taken(t.rows, s) ==> r.agent == s.shard
    ensures OneThief(After(t, s).rows)
  {
    if !s.Arrive? {
      StepShape(t, s);
      forall x | x in After(t, s).rows && Stolen(x) ensures x in t.rows {
        OwnClaimStealsNothing(t, s, x);
      }
    }
  }

  /** In every run, all stolen rows of one victim channel (other than '0') that are in progress at
      the same time are run by the same thief. */
  lemma {:induction false} OneThiefPerChannel(tables: seq<Table>, steps: seq<Step>, n: nat)
    requires IsRun(tables, steps) && n <= |steps|
    ensures OneThief(tables[n].rows)
    decreases n
  {
    if n > 0 {
      OneThiefPerChannel(tables, steps, n - 1);
      var t, s := tables[n - 1], steps[n - 1];
      if s.Steal? {
        StealKeepsOneThief(t, s);
      } else {
        if s.ClaimHead? || s.Steer? {
          OwnTaken(tables, steps, n - 1);
        }
        StepKeepsOneThief(t, s);
      }
    }
  }

  /** A theft shows in the table: the row stays the victim's, is in progress and belongs to the thief;
      nothing else about it changes. */
  lemma TheftShows(t: Table, s: Step, r: Row)
    requires ValidTable(t) && s.Steal? && r in Taken(t.rows, s)
    ensures r.agent == s.victim && r.(status := InProgress, claimedBy := Some(s.thief)) in After(t, s).rows
  {
    StealTargetsSpec(t.rows, s.victim, s.now, s.cutoff, s.limit);
    assert r.id in Ids(Taken(t.rows, s));
    var _ := EditedRow(t.rows, Ids(Taken(t.rows, s)), Claim(s.thief), r);
  }

  /** The steps that take a row out of the hands of the shard that runs it. */
  predicate LetsGo(s: Step, id: nat) {
    (s.ReleaseRows? && id in s.ids) || (s.EndRows? && id in s.ids)
  }

  lemma RunningRowLives(t: Table, s: Step, x: Row)
    requires ValidTable(t) && Possible(t, s) && x in t.rows && x.status.InProgress? && !LetsGo(s, x.id)
    ensures x in After(t, s).rows
  {
    if !s.Arrive? {
      StepShape(t, s);
      var (ids, e) := EditOf(t, s);
      var _ := EditedRow(t.rows, ids, e, x);
    }
  }

  lemma TheftInRun(tables: seq<Table>, steps: seq<Step>, i: nat, r: Row)
    requires IsRun(tables, steps) && i < |steps| && steps[i].Steal? && r in Taken(tables[i].rows, steps[i])
    ensures r.agent == steps[i].victim
    ensures r.(status := InProgress, claimedBy := Some(steps[i].thief)) in tables[i + 1].rows
  {
    TheftShows(tables[i], steps[i], r);
  }

  lemma {:induction false} RunningRowStays(tables: seq<Table>, steps: seq<Step>, i: nat, n: nat, x: Row)
    requires IsRun(tables, steps) && i <= n <= |steps| && x in tables[i].rows && x.status.InProgress?
    requires forall k :: i <= k < n ==> !LetsGo(steps[k], x.id)
    ensures x in tables[n].rows
    decreases n
  {
    if i < n {
      RunningRowStays(tables, steps, i, n - 1, x);
      RunningRowLives(tables[n - 1], steps[n - 1], x);
    }
  }

  /** A row that another shard took counts as stolen, and as that thief's, until it is released or its
      turn ends, whatever happens in between. */
  lemma TheftLasts(tables: seq<Table>, steps: seq<Step>, i: nat, n: nat, r: Row)
    requires IsRun(tables, steps) && i < n <= |steps| && steps[i].Steal? && r in Taken(tables[i].rows, steps[i])
    requires forall k :: i < k < n ==> !LetsGo(steps[k], r.id)
    ensures var x := r.(status := InProgress, claimedBy := Some(steps[i].thief));
            x in tables[n].rows && (steps[i].thief != steps[i].victim ==> Stolen(x))
  {
    var x := r.(status := InProgress, claimedBy := Some(steps[i].thief));
    TheftInRun(tables, steps, i, r);
    RunningRowStays(tables, steps, i + 1, n, x);
  }

  /** Step `i` is the theft that made `x` what it is: its owner took it from the shard it was sent to. */
  ghost predicate TookIt(tables: seq<Table>, steps: seq<Step>, i: nat, x: Row) {
    && i < |steps| && i < |tables| && DistinctIds(tables[i].rows)
    && steps[i].Steal? && steps[i].victim == x.agent && x.claimedBy == Some(steps[i].thief)
    && exists r :: r in Taken(tables[i].rows, steps[i]) &&
                   x == r.(status := InProgress, claimedBy := Some(steps[i].thief))
  }

  /** The step that made a row what it is. */
  lemma {:induction false} MadeBy(tables: seq<Table>, n: nat, x: Row) returns (i: nat)
    requires n < |tables| && x in tables[n].rows && x !in tables[0].rows
    ensures i < n && x !in tables[i].rows && x in tables[i + 1].rows
    decreases n
  {
    if x in tables[n - 1].rows {
      i := MadeBy(tables, n - 1, x);
    } else {
      i := n - 1;
    }
  }

  /** And only thefts make a row count as stolen. */
  lemma StolenWasTaken(tables: seq<Table>, steps: seq<Step>, n: nat, x: Row) returns (i: nat)
    requires IsRun(tables, steps) && n <= |steps| && x in tables[n].rows && Stolen(x)
    ensures i < n && TookIt(tables, steps, i, x)
  {
    i := MadeBy(tables, n, x);
    TakenInRun(tables, steps, i, x);
  }

  lemma TakenInRun(tables: seq<Table>, steps: seq<Step>, n: nat, x: Row)
    requires IsRun(tables, steps) && n < |steps| && x in tables[n + 1].rows && x !in tables[n].rows && Stolen(x)
    ensures TookIt(tables, steps, n, x)
  {
    OwnStepsStealNothing(tables, steps, n, x);
    var r := JustTaken(tables[n], steps[n], x);
  }

  lemma JustTaken(t: Table, s: Step, x: Row) returns (r: Row)
    requires ValidTable(t) && s.Steal? && x in After(t, s).rows && x !in t.rows
    ensures r in Taken(t.rows, s) && r.agent == s.victim
    ensures x == r.(status := InProgress, claimedBy := Some(s.thief))
  {
    r := RowBefore(t.rows, Ids(Taken(t.rows, s)), Claim(s.thief), x);
    TakenAreQueued(t.rows, s);
    IdsPick(t.rows, Taken(t.rows, s), r);
    TheftShows(t, s, r);
  }

  lemma OwnStepsStealNothing(tables: seq<Table>, steps: seq<Step>, n: nat, x: Row)
    requires IsRun(tables, steps) && n < |steps| && x in tables[n + 1].rows && x !in tables[n].rows && Stolen(x)
    ensures steps[n].Steal?
  {
    var t, s := tables[n], steps[n];
    if !s.Arrive? && !s.Steal? {
      StepShape(t, s);
      if s.ClaimHead? || s.Steer? {
        OwnTaken(tables, steps, n);
      }
      OwnClaimStealsNothing(t, s, x);
    }
  }

  lemma OwnTaken(tables: seq<Table>, steps: seq<Step>, n: nat)
    requires IsRun(tables, steps) && n < |steps| && (steps[n].ClaimHead? || steps[n].Steer?)
    ensures forall r :: r in Taken(tables[n].rows, steps[n]) ==> r.agent == steps[n].shard
  {
    var t, s := tables[n], steps[n];
    if s.ClaimHead? {
      forall r | r in Taken(t.rows, s) ensures r.agent == s.shard {
        BatchIsOwn(tables, steps, n, r);
      }
    } else {
      PrefixMembers(Taken(t.rows, s), SteerableRows(t.rows, s.shard, s.channel));
    }
  }

  // ---- the end of a row ----

  predicate Settled(r: Row) {
    r.status == Complete || r.status == Crashed || r.status == Skipped
  }

  /** A row whose turn ends is complete or crashed ... */
  lemma TurnEndsRow(t: Table, r: Row, ids: set<nat>, crashed: bool)
    requires ValidTable(t) && r in t.rows && r.id in ids && r.status.InProgress?
    ensures r.(status := if crashed then Crashed else Complete, outcome := OtherOutcome) in
            After(t, EndRows(ids, crashed)).rows
  {
    var _ := EditedRow(t.rows, ids, End(crashed), r);
  }

  /** ... a waiting row that is cancelled is skipped ... */
  lemma CancelSkipsRow(t: Table, r: Row, ids: set<nat>)
    requires ValidTable(t) && r in t.rows && r.id in ids && r.status.Queued?
    ensures r.(status := Skipped, outcome := OtherOutcome) in After(t, SkipRows(ids)).rows
  {
    var _ := EditedRow(t.rows, ids, Skip, r);
  }

  /** ... and a reply that is read is complete. */
  lemma ReadReplyIsComplete(t: Table, r: Row)
    requires ValidTable(t) && r in t.rows && IsReply(r) && r.status.Queued?
    ensures r.(status := Complete) in After(t, ConsumeReply(r)).rows
  {
    var _ := EditedRow(t.rows, {r.id}, Consume, r);
  }

  /** A row that has ended never changes again. */
  lemma {:induction false} SettledForGood(tables: seq<Table>, steps: seq<Step>, i: nat, n: nat, r: Row)
    requires IsRun(tables, steps) && i <= n <= |steps| && r in tables[i].rows && Settled(r)
    ensures r in tables[n].rows
    decreases n
  {
    if i < n {
      SettledForGood(tables, steps, i, n - 1, r);
      SettledRowLives(tables[n - 1], steps[n - 1], r);
    }
  }

  lemma SettledRowLives(t: Table, s: Step, r: Row)
    requires ValidTable(t) && Possible(t, s) && r in t.rows && Settled(r)
    ensures r in After(t, s).rows
  {
    if !s.Arrive? {
      StepShape(t, s);
      var (ids, e) := EditOf(t, s);
      var _ := EditedRow(t.rows, ids, e, r);
    }
  }

  // ---- calls and their error replies ----

  /** The call row an error reply answers: skipped for the reason the reply gives, and asked by the
      shard the reply is addressed to. */
  ghost predicate Answers(m: Row, r: Row)
    requires m.message.ErrorFor?
  {
    && IsReply(m) && r.id == m.message.row && IsCall(r) && r.call.value == m.message.call && m.agent == r.replyTo.value
    && r.outcome == Refused(m.message.code)
  }

  ghost predicate RepliesAnswer(rows: seq<Row>) {
    forall m :: m in rows && m.message.ErrorFor? ==> exists r :: r in rows && Answers(m, r)
  }

  predicate SameTarget(m: Row, n: Row) {
    m.message.ErrorFor? && n.message.ErrorFor? && m.message.row == n.message.row
  }

  ghost predicate RepliedOnce(rows: seq<Row>) {
    forall m, n :: m in rows && n in rows && SameTarget(m, n) ==> m == n
  }

  ghost predicate HasReply(rows: seq<Row>, r: Row)
    requires IsCall(r) && r.outcome.Refused?
  {
    exists m :: m in rows && m.message == ErrorFor(r.outcome.code, r.call.value, r.id)
  }

  /** Every refused call has its reply, except those in `owed`, which have none yet. */
  ghost predicate RefusedAnswered(rows: seq<Row>, owed: set<nat>) {
    && (forall r :: r in rows && IsCall(r) && r.outcome.Refused? && r.id !in owed ==> HasReply(rows, r))
    && forall m :: m in rows && m.message.ErrorFor? ==> m.message.row !in owed
  }

  ghost predicate RefusedAreSkipped(rows: seq<Row>) {
    forall r :: r in rows && r.outcome.Refused? ==> r.status.Skipped?
  }

  ghost predicate Accounted(rows: seq<Row>, owed: set<nat>) {
    RepliesAnswer(rows) && RepliedOnce(rows) && RefusedAnswered(rows, owed) && RefusedAreSkipped(rows)
  }

  /** The rows an edit newly refuses. */
  function NewlyRefused(rows: seq<Row>, ids: set<nat>, e: Edit): set<nat> {
    if e.Refuse? then set r | r in rows && r.id in ids && Applies(e, r) :: r.id else {}
  }

  lemma SkippedIsSettled(rows: seq<Row>, ids: set<nat>, e: Edit, r: Row)
    requires DistinctIds(rows) && r in rows && r.status.Skipped?
    ensures r in Updated(rows, ids, e) && r.id !in NewlyRefused(rows, ids, e)
  {
    var x := EditedRow(rows, ids, e, r);
    SameRow(rows, r);
  }

  lemma EditKeepsReply(rows: seq<Row>, ids: set<nat>, e: Edit, m: Row) returns (r: Row)
    requires DistinctIds(rows) && RepliesAnswer(rows) && RefusedAreSkipped(rows)
    requires m in Updated(rows, ids, e) && m.message.ErrorFor?
    ensures m.message.row !in NewlyRefused(rows, ids, e)
    ensures r in rows && r in Updated(rows, ids, e) && Answers(m, r)
  {
    var m0 := RowBefore(rows, ids, e, m);
    r :| r in rows && Answers(m0, r);
    SkippedIsSettled(rows, ids, e, r);
  }

  lemma EditKeepsRefused(rows: seq<Row>, ids: set<nat>, e: Edit, x: Row)
    requires DistinctIds(rows) && Accounted(rows, {}) && x in Updated(rows, ids, e) && x.outcome.Refused?
    ensures x.status.Skipped?
    ensures IsCall(x) && x.id !in NewlyRefused(rows, ids, e) ==> HasReply(Updated(rows, ids, e), x)
  {
    var r := RowBefore(rows, ids, e, x);
    if IsCall(x) && x.id !in NewlyRefused(rows, ids, e) {
      assert HasReply(rows, r);
      var m :| m in rows && m.message == ErrorFor(r.outcome.code, r.call.value, r.id);
      var m' := EditedRow(rows, ids, e, m);
    }
  }

  lemma EditKeepsOnce(rows: seq<Row>, ids: set<nat>, e: Edit)
    requires DistinctIds(rows) && RepliedOnce(rows)
    ensures RepliedOnce(Updated(rows, ids, e))
  {
    var after := Updated(rows, ids, e);
    forall m, n | m in after && n in after && SameTarget(m, n) ensures m == n {
      var m0 := RowBefore(rows, ids, e, m);
      var n0 := RowBefore(rows, ids, e, n);
    }
  }

  /** An edit leaves refused rows and messages as they are; a refusal only adds to what is owed. */
  lemma EditKeepsAccounts(rows: seq<Row>, ids: set<nat>, e: Edit)
    requires DistinctIds(rows) && Accounted(rows, {})
    ensures Accounted(Updated(rows, ids, e), NewlyRefused(rows, ids, e))
  {
    var after := Updated(rows, ids, e);
    forall m | m in after && m.message.ErrorFor?
      ensures m.message.row !in NewlyRefused(rows, ids, e) && exists r :: r in after && Answers(m, r)
    {
      var r := EditKeepsReply(rows, ids, e, m);
    }
    forall x | x in after && x.outcome.Refused?
      ensures x.status.Skipped? && (IsCall(x) && x.id !in NewlyRefused(rows, ids, e) ==> HasReply(after, x))
    {
      EditKeepsRefused(rows, ids, e, x);
    }
    EditKeepsOnce(rows, ids, e);
  }

  /** Inserting the reply of one refused call pays for it: the insert is never ignored. */
  lemma ReplyPays(t: Table, r: Row, x: Row, code: string, now: int, owed: set<nat>)
    requires ValidTable(t) && Accounted(t.rows, owed) && r.id in owed
    requires x in t.rows && Same(r, x) && (IsCall(r) ==> x.outcome == Refused(code))
    ensures Accounted(AddReply(t, r, code, now).rows, owed - {r.id})
  {
    var t' := AddReply(t, r, code, now);
    assert forall y :: y in t.rows ==> y in t'.rows;
    SameRow(t.rows, x);
    if IsCall(r) {
      var m := ReplyRow(t.nextId, r, code, now);
      assert t'.rows == t.rows + [m];
      assert Answers(m, x);
      assert forall y :: y in t'.rows <==> y in t.rows || y == m;
      assert forall y :: y in t.rows && IsCall(y) && y.outcome.Refused? && HasReply(t.rows, y) ==> HasReply(t'.rows, y);
    }
  }

  lemma {:induction false} RepliesPay(t: Table, rows: seq<Row>, refused: seq<Row>, k: nat, code: string, now: int)
    requires ValidTable(t) && DistinctIds(rows) && k <= |refused|
    requires forall i :: 0 <= i < |refused| ==> refused[i] in rows && refused[i].status.Queued?
    requires forall i, j :: 0 <= i < j < |refused| ==> refused[i].id != refused[j].id
    requires t.rows == Updated(rows, Ids(refused), Refuse(code)) && Accounted(t.rows, Ids(refused))
    ensures ValidTable(AddReplies(t, refused[..k], code, now))
    ensures Accounted(AddReplies(t, refused[..k], code, now).rows, Ids(refused[k..]))
    decreases k
  {
    AddRepliesValid(t, refused[..k], code, now);
    if k == 0 {
      assert refused[0..] == refused;
    } else {
      RepliesPay(t, rows, refused, k - 1, code, now);
      assert refused[..k][..k - 1] == refused[..k - 1];
      NextReplyPays(t, rows, refused, k - 1, code, now);
    }
  }

  lemma NextReplyPays(t: Table, rows: seq<Row>, refused: seq<Row>, k: nat, code: string, now: int)
    requires ValidTable(t) && k < |refused| && t.rows == Updated(rows, Ids(refused), Refuse(code))
    requires forall i :: 0 <= i < |refused| ==> refused[i] in rows && refused[i].status.Queued?
    requires forall i, j :: 0 <= i < j < |refused| ==> refused[i].id != refused[j].id
    requires ValidTable(AddReplies(t, refused[..k], code, now))
    requires Accounted(AddReplies(t, refused[..k], code, now).rows, Ids(refused[k..]))
    ensures var before := AddReplies(t, refused[..k], code, now);
            Accounted(AddReply(before, refused[k], code, now).rows, Ids(refused[k + 1..]))
  {
    var r := refused[k];
    assert r in refused && r.id in Ids(refused);
    var x := EditedRow(rows, Ids(refused), Refuse(code), r);
    NewRepliesWait(t, refused[..k], code, now);
    OwedShrinks(refused, k);
    ReplyPays(AddReplies(t, refused[..k], code, now), r, x, code, now, Ids(refused[k..]));
  }

  lemma OwedShrinks(refused: seq<Row>, k: nat)
    requires k < |refused| && forall i, j :: 0 <= i < j < |refused| ==> refused[i].id != refused[j].id
    ensures refused[k].id in Ids(refused[k..]) && Ids(refused[k + 1..]) == Ids(refused[k..]) - {refused[k].id}
  {
    var a, b := refused[k..], refused[k + 1..];
    assert a == [refused[k]] + b;
    assert a[0] in a;
    forall r | r in b ensures r.id != refused[k].id {
      var i :| 0 <= i < |b| && b[i] == r;
    }
    assert forall r :: r in a <==> r == refused[k] || r in b;
  }

  lemma RefusalKeepsAccounts(t: Table, refused: seq<Row>, code: string, now: int)
    requires ValidTable(t) && Accounted(t.rows, {}) && Ascending(refused, ById)
    requires forall r :: r in refused ==> r in t.rows && r.status.Queued?
    ensures Accounted(AfterRefusal(t, refused, code, now).rows, {})
  {
    var ids := Ids(refused);
    forall i | 0 <= i < |refused| ensures refused[i] in t.rows && refused[i].status.Queued? {
      assert refused[i] in refused;
    }
    forall i, j | 0 <= i < j < |refused| ensures refused[i].id != refused[j].id {
      assert Less(ById(refused[i]), ById(refused[j]));
    }
    assert ids == NewlyRefused(t.rows, ids, Refuse(code)) by {
      assert forall r :: r in refused ==> r.id in ids && Applies(Refuse(code), r);
    }
    EditKeepsAccounts(t.rows, ids, Refuse(code));
    UpdatedKeepsIds(t.rows, ids, Refuse(code));
    RepliesPay(Table(Updated(t.rows, ids, Refuse(code)), t.nextId), t.rows, refused, |refused|, code, now);
    assert refused[..|refused|] == refused;
    assert Ids(refused[|refused|..]) == {};
  }

  lemma StepKeepsAccounts(t: Table, s: Step)
    requires ValidTable(t) && Possible(t, s) && Accounted(t.rows, {})
    ensures Accounted(After(t, s).rows, {})
  {
    match s
    case Arrive(r) =>
      assert forall y :: y in After(t, s).rows <==> y in t.rows || y == r;
      assert forall y :: y in t.rows && IsCall(y) && y.outcome.Refused? && HasReply(t.rows, y) ==>
          HasReply(After(t, s).rows, y);
    case ExpireRows(shard, now) => RefusalKeepsAccounts(t, OverdueRows(t.rows, shard, now), EXPIRED, now);
    case FailAll(shard, code, now) => RefusalKeepsAccounts(t, OpenCallRows(t.rows, shard), code, now);
    case _ =>
      var (ids, e) := EditOf(t, s);
      EditKeepsAccounts(t.rows, ids, e);
  }

  lemma {:induction false} EveryTableAccounted(tables: seq<Table>, steps: seq<Step>, n: nat)
    requires IsRun(tables, steps) && n <= |steps|
    ensures Accounted(tables[n].rows, {})
    decreases n
  {
    if n > 0 {
      EveryTableAccounted(tables, steps, n - 1);
      StepKeepsAccounts(tables[n - 1], steps[n - 1]);
    }
  }

  /** The error replies to one call row. */
  ghost predicate IsErrorReplyTo(m: Row, r: Row) {
    m.message.ErrorFor? && m.message.row == r.id
  }

  lemma ReplyOf(rows: seq<Row>, r: Row) returns (m: Row)
    requires DistinctIds(rows) && Accounted(rows, {}) && r in rows && IsCall(r) && r.outcome.Refused?
    ensures m in rows && IsErrorReplyTo(m, r) && Answers(m, r)
    ensures forall n :: n in rows && IsErrorReplyTo(n, r) ==> n == m
  {
    assert HasReply(rows, r);
    m :| m in rows && m.message == ErrorFor(r.outcome.code, r.call.value, r.id);
    var x :| x in rows && Answers(m, x);
    SameRow(rows, r);
    forall n | n in rows && IsErrorReplyTo(n, r) ensures n == m {
      assert SameTarget(n, m);
    }
  }

  lemma OnlyRefusedAnswered(rows: seq<Row>, r: Row, m: Row)
    requires DistinctIds(rows) && Accounted(rows, {}) && r in rows && m in rows && IsErrorReplyTo(m, r)
    ensures IsCall(r) && r.outcome.Refused?
  {
    var x :| x in rows && Answers(m, x);
    SameRow(rows, r);
  }

  /** In every run, a call row that expired or failed has exactly one error reply, addressed to its
      caller and giving the reason; every other row has none. */
  lemma CallAccounting(tables: seq<Table>, steps: seq<Step>, n: nat, r: Row)
    requires IsRun(tables, steps) && n <= |steps| && r in tables[n].rows
    ensures IsCall(r) && r.outcome.Refused? ==>
              r.status.Skipped?
              && exists m :: m in tables[n].rows && IsErrorReplyTo(m, r) && Answers(m, r)
                             && forall m' :: m' in tables[n].rows && IsErrorReplyTo(m', r) ==> m' == m
    ensures !(IsCall(r) && r.outcome.Refused?) ==> forall m :: m in tables[n].rows ==> !IsErrorReplyTo(m, r)
  {
    EveryTableAccounted(tables, steps, n);
    EveryTableValid(tables, steps, n);
    if IsCall(r) && r.outcome.Refused? {
      var m := ReplyOf(tables[n].rows, r);
    } else {
      forall m | m in tables[n].rows && IsErrorReplyTo(m, r) ensures false {
        OnlyRefusedAnswered(tables[n].rows, r, m);
      }
    }
  }
}
