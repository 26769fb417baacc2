/** Draining a shard's queue by claiming batch after batch, with nothing arriving in between. */
module MessageDrain {
  import opened Ordering
  import opened MessageQueue

  /** The rows of the shard that still wait for a turn. */
  function Waiting(rows: seq<Row>, shard: Shard): set<Row> {
    set r | r in rows && Runnable(r, shard)
  }

  predicate SameChannel(a: Row, b: Row) {
    !Alone(a) && !Alone(b) && a.channelId == b.channelId
  }

  ghost predicate InOrder(taken: seq<Row>) {
    forall i, j :: 0 <= i < j < |taken| && SameChannel(taken[i], taken[j]) ==>
      DispatchedBefore(taken[i], taken[j])
  }

  ghost predicate AllBefore(taken: seq<Row>, rest: set<Row>) {
    forall r, x :: r in taken && x in rest && SameChannel(r, x) ==> DispatchedBefore(r, x)
  }

  /** Some of the first `n` readings of the clock found the row live ... */
  ghost predicate SeenLive(r: Row, clock: nat -> int, n: nat) {
    exists k :: 0 <= k < n && Live(r, clock(k))
  }

  /** ... or past its expiry. */
  ghost predicate SeenDead(r: Row, clock: nat -> int, n: nat) {
    exists k :: 0 <= k < n && !Live(r, clock(k))
  }

  /** Every row that waited at the start waits still, or was taken while live, or expired. */
  ghost predicate Covered(was: set<Row>, rows: seq<Row>, taken: seq<Row>, shard: Shard, clock: nat -> int, n: nat) {
    && Waiting(rows, shard) <= was
    && (forall r :: r in taken ==> r in was && Edited(r, Claim(shard)) in rows && SeenLive(r, clock, n))
    && forall r :: r in was ==>
         r in Waiting(rows, shard) || r in taken || (Edited(r, Refuse(EXPIRED)) in rows && SeenDead(r, clock, n))
  }

  ghost predicate DrainInv(was: set<Row>, rows: seq<Row>, taken: seq<Row>, shard: Shard, clock: nat -> int, n: nat) {
    && Covered(was, rows, taken, shard, clock, n)
    && InOrder(taken) && AllBefore(taken, Waiting(rows, shard)) && DistinctIds(taken)
  }

  // ---- expiry ----

  lemma SettledStays(t: Table, shard: Shard, now: int, x: Row)
    requires ValidTable(t) && x in t.rows && !x.status.Queued?
    ensures x in AfterExpire(t, shard, now).rows
  {
    var overdue := OverdueRows(t.rows, shard, now);
    var i :| 0 <= i < |t.rows| && t.rows[i] == x;
    var skipped := Updated(t.rows, Ids(overdue), Refuse(EXPIRED));
    assert skipped[i] == x;
    RepliesAdded(Table(skipped, t.nextId), overdue, EXPIRED, now);
  }

  lemma OverdueIsSkipped(t: Table, shard: Shard, now: int, x: Row)
    requires ValidTable(t) && x in t.rows && Overdue(x, shard, now)
    ensures Edited(x, Refuse(EXPIRED)) in AfterExpire(t, shard, now).rows
  {
    var overdue := OverdueRows(t.rows, shard, now);
    assert x in overdue && x.id in Ids(overdue);
    var i :| 0 <= i < |t.rows| && t.rows[i] == x;
    var skipped := Updated(t.rows, Ids(overdue), Refuse(EXPIRED));
    assert skipped[i] == Edited(x, Refuse(EXPIRED));
    RepliesAdded(Table(skipped, t.nextId), overdue, EXPIRED, now);
  }

  lemma MoreReadings(r: Row, clock: nat -> int, n: nat)
    ensures SeenLive(r, clock, n) ==> SeenLive(r, clock, n + 1)
    ensures SeenDead(r, clock, n) ==> SeenDead(r, clock, n + 1)
    ensures if Live(r, clock(n)) then SeenLive(r, clock, n + 1) else SeenDead(r, clock, n + 1)
  {
  }

  lemma GoneIsDead(t: Table, shard: Shard, clock: nat -> int, n: nat, r: Row)
    requires ValidTable(t) && r !in Waiting(AfterExpire(t, shard, clock(n)).rows, shard)
    requires r in Waiting(t.rows, shard) || (Edited(r, Refuse(EXPIRED)) in t.rows && SeenDead(r, clock, n))
    ensures Edited(r, Refuse(EXPIRED)) in AfterExpire(t, shard, clock(n)).rows && SeenDead(r, clock, n + 1)
  {
    ExpiryKeepsLive(t, shard, clock(n), r);
    MoreReadings(r, clock, n);
    if r in Waiting(t.rows, shard) {
      OverdueIsSkipped(t, shard, clock(n), r);
    } else {
      SettledStays(t, shard, clock(n), Edited(r, Refuse(EXPIRED)));
    }
  }

  lemma ExpiryKeepsDrain(was: set<Row>, t: Table, taken: seq<Row>, shard: Shard, clock: nat -> int, n: nat)
    requires ValidTable(t) && DrainInv(was, t.rows, taken, shard, clock, n)
    ensures DrainInv(was, AfterExpire(t, shard, clock(n)).rows, taken, shard, clock, n + 1)
    ensures Waiting(AfterExpire(t, shard, clock(n)).rows, shard) <= Waiting(t.rows, shard)
    ensures forall x :: x in Waiting(AfterExpire(t, shard, clock(n)).rows, shard) ==> SeenLive(x, clock, n + 1)
  {
    var rows := AfterExpire(t, shard, clock(n)).rows;
    forall x | x in Waiting(rows, shard) ensures x in Waiting(t.rows, shard) && SeenLive(x, clock, n + 1) {
      ExpiryKeepsLive(t, shard, clock(n), x);
      MoreReadings(x, clock, n);
    }
    forall r | r in taken ensures Edited(r, Claim(shard)) in rows && SeenLive(r, clock, n + 1) {
      SettledStays(t, shard, clock(n), Edited(r, Claim(shard)));
      MoreReadings(r, clock, n);
    }
    forall r | r in was && r !in Waiting(rows, shard) && r !in taken
      ensures Edited(r, Refuse(EXPIRED)) in rows && SeenDead(r, clock, n + 1)
    {
      GoneIsDead(t, shard, clock, n, r);
    }
  }

  // ---- claiming ----

  lemma ClaimedLeave(rows: seq<Row>, batch: seq<Row>, shard: Shard, x: Row)
    requires DistinctIds(rows) && forall r :: r in batch ==> r in rows && r.status.Queued?
    ensures x in Waiting(Updated(rows, Ids(batch), Claim(shard)), shard) <==> x in Waiting(rows, shard) && x !in batch
  {
    var after := Updated(rows, Ids(batch), Claim(shard));
    assert x in batch ==> x.id in Ids(batch);
    if x in after && Runnable(x, shard) {
      var i :| 0 <= i < |after| && after[i] == x;
      assert rows[i] == x;
    }
    if x in rows && x !in batch && x.status.Queued? {
      SameRow(rows, x);
      var i :| 0 <= i < |rows| && rows[i] == x;
      assert after[i] == x;
    }
  }

  lemma ClaimEdits(rows: seq<Row>, batch: seq<Row>, shard: Shard, x: Row)
    requires x in rows
    ensures !x.status.Queued? ==> x in Updated(rows, Ids(batch), Claim(shard))
    ensures x in batch && x.status.Queued? ==> Edited(x, Claim(shard)) in Updated(rows, Ids(batch), Claim(shard))
  {
    var after := Updated(rows, Ids(batch), Claim(shard));
    var i :| 0 <= i < |rows| && rows[i] == x;
    assert x in batch ==> x.id in Ids(batch);
    assert after[i] in after;
  }

  lemma ClaimKeepsCovered(was: set<Row>, rows: seq<Row>, taken: seq<Row>, batch: seq<Row>, shard: Shard,
                          clock: nat -> int, n: nat)
    requires DistinctIds(rows) && Covered(was, rows, taken, shard, clock, n)
    requires forall r :: r in batch ==> r in Waiting(rows, shard) && SeenLive(r, clock, n)
    ensures Covered(was, Updated(rows, Ids(batch), Claim(shard)), taken + batch, shard, clock, n)
  {
    var after := Updated(rows, Ids(batch), Claim(shard));
    forall x { ClaimedLeave(rows, batch, shard, x); }
    forall r | r in taken + batch ensures r in was && Edited(r, Claim(shard)) in after && SeenLive(r, clock, n) {
      if r in taken {
        ClaimEdits(rows, batch, shard, Edited(r, Claim(shard)));
      } else {
        ClaimEdits(rows, batch, shard, r);
      }
    }
    forall r | r in was && r !in Waiting(after, shard) && r !in taken + batch
      ensures Edited(r, Refuse(EXPIRED)) in after && SeenDead(r, clock, n)
    {
      assert r !in Waiting(rows, shard) && r !in taken;
      ClaimEdits(rows, batch, shard, Edited(r, Refuse(EXPIRED)));
    }
  }

  lemma AppendKeepsOrder(taken: seq<Row>, batch: seq<Row>, waiting: set<Row>, rest: set<Row>)
    requires InOrder(taken) && InOrder(batch) && AllBefore(taken, waiting) && AllBefore(batch, rest)
    requires forall r :: r in batch ==> r in waiting
    requires rest <= waiting
    ensures InOrder(taken + batch) && AllBefore(taken + batch, rest)
  {
    var all := taken + batch;
    forall i, j | 0 <= i < j < |all| && SameChannel(all[i], all[j])
      ensures DispatchedBefore(all[i], all[j])
    {
      if i < |taken| <= j {
        assert all[i] in taken && all[j] in batch;
      }
    }
  }

  /** Rows taken before are in progress, so a batch of waiting rows shares no id with them. */
  lemma AppendKeepsIds(rows: seq<Row>, taken: seq<Row>, batch: seq<Row>, shard: Shard)
    requires DistinctIds(rows) && DistinctIds(taken) && DistinctIds(batch)
    requires forall r :: r in taken ==> Edited(r, Claim(shard)) in rows
    requires forall r :: r in batch ==> r in rows && r.status.Queued?
    ensures DistinctIds(taken + batch)
  {
    forall a, b | a in taken && b in batch ensures a.id != b.id {
      SameRow(rows, b);
      assert Edited(a, Claim(shard)) in rows;
    }
    var all := taken + batch;
    forall i, j | 0 <= i < j < |all| ensures all[i].id != all[j].id {
      if i < |taken| <= j {
        assert all[i] in taken && all[j] in batch;
      }
    }
  }

  /** A batch is in dispatch order and comes before all it leaves of its channel. */
  lemma BatchComesFirst(rows: seq<Row>, shard: Shard, head: Row, limit: int)
    requires DistinctIds(rows) && head in rows && Runnable(head, shard) && limit != 0
    ensures var batch := BatchTargets(rows, shard, head, limit);
            && batch != [] && (forall r :: r in batch ==> r in Waiting(rows, shard))
            && InOrder(batch) && DistinctIds(batch)
            && forall x :: x in Waiting(rows, shard) && x !in batch ==> AllBefore(batch, {x})
  {
    var batch := BatchTargets(rows, shard, head, limit);
    BatchTargetsSpec(rows, shard, head, limit);
    if Alone(head) {
      assert head in ClaimableById(rows, head.id);
      SameRow(rows, head);
    } else {
      assert head in OrdinaryRows(rows, shard, head.channelId);
      forall i, j | 0 <= i < j < |batch| ensures batch[i].id != batch[j].id {
        assert batch[i] in batch && batch[j] in batch;
        SameRow(rows, batch[i]);
        OrdersMean(batch[i], batch[j]);
      }
      forall x, r | x in Waiting(rows, shard) && x !in batch && r in batch && SameChannel(r, x)
        ensures DispatchedBefore(r, x)
      {
        assert Ordinary(x, shard, head.channelId);
      }
    }
  }

  lemma ClaimKeepsDrain(was: set<Row>, rows: seq<Row>, taken: seq<Row>, shard: Shard, head: Row, limit: int,
                        clock: nat -> int, n: nat)
    requires DistinctIds(rows) && DrainInv(was, rows, taken, shard, clock, n)
    requires forall x :: x in Waiting(rows, shard) ==> SeenLive(x, clock, n)
    requires head in rows && Runnable(head, shard) && limit != 0
    ensures var batch := BatchTargets(rows, shard, head, limit);
            var after := Updated(rows, Ids(batch), Claim(shard));
            DrainInv(was, after, taken + batch, shard, clock, n) && Waiting(after, shard) < Waiting(rows, shard)
  {
    var batch := BatchTargets(rows, shard, head, limit);
    var after := Updated(rows, Ids(batch), Claim(shard));
    BatchComesFirst(rows, shard, head, limit);
    forall x { ClaimedLeave(rows, batch, shard, x); }
    ClaimKeepsCovered(was, rows, taken, batch, shard, clock, n);
    assert AllBefore(batch, Waiting(after, shard));
    AppendKeepsOrder(taken, batch, Waiting(rows, shard), Waiting(after, shard));
    AppendKeepsIds(rows, taken, batch, shard);
    assert batch[0] in batch && batch[0] in Waiting(rows, shard) && batch[0] !in Waiting(after, shard);
  }

  lemma FewerWait(a: set<Row>, b: set<Row>)
    requires a < b
    ensures |a| < |b|
  {
    assert b == a + (b - a);
    assert |b| == |a| + |b - a|;
  }

  lemma RoundKeepsDrain(was: set<Row>, t: Table, taken: seq<Row>, shard: Shard, limit: int, clock: nat -> int, n: nat)
    requires ValidTable(t) && DrainInv(was, t.rows, taken, shard, clock, n) && limit != 0
    ensures var batch := NextBatch(t, shard, limit, clock(n));
            var after := Updated(AfterExpire(t, shard, clock(n)).rows, Ids(batch), Claim(shard));
            && DrainInv(was, after, taken + batch, shard, clock, n + 1)
            && (if batch == [] then Waiting(after, shard) == {} else |Waiting(after, shard)| < |Waiting(t.rows, shard)|)
  {
    var now := clock(n);
    ExpiryKeepsDrain(was, t, taken, shard, clock, n);
    AfterExpireValid(t, shard, now);
    var rows := AfterExpire(t, shard, now).rows;
    var heads := HeadRows(rows, shard);
    if heads == [] {
      forall x ensures x !in Waiting(rows, shard) {
        assert x in Waiting(rows, shard) ==> x in heads;
      }
      NothingUpdated(rows, Claim(shard));
      assert taken + [] == taken;
    } else {
      assert heads[0] in heads;
      ClaimKeepsDrain(was, rows, taken, shard, heads[0], limit, clock, n + 1);
      BatchComesFirst(rows, shard, heads[0], limit);
      var after := Updated(rows, Ids(NextBatch(t, shard, limit, now)), Claim(shard));
      FewerWait(Waiting(after, shard), Waiting(t.rows, shard));
    }
  }

  lemma ClaimedAppend(taken: seq<Row>, batch: seq<Row>, shard: Shard)
    ensures Claimed(taken, shard) + Claimed(batch, shard) == Claimed(taken + batch, shard)
  {
  }

  /** What a drain of `n` rounds promises: each row of `was` is claimed once, at a time when it was
      live, or was found overdue and has expired; and each channel's ordinary rows are claimed in
      dispatch order. */
  ghost predicate Drained(was: set<Row>, rows: seq<Row>, taken: seq<Row>, shard: Shard, clock: nat -> int, n: nat) {
    && Waiting(rows, shard) == {} && DistinctIds(taken) && InOrder(taken)
    && (forall r :: r in taken ==> r in was && Edited(r, Claim(shard)) in rows && SeenLive(r, clock, n))
    && forall r :: r in was && r !in taken ==> Edited(r, Refuse(EXPIRED)) in rows && SeenDead(r, clock, n)
  }

  /** One round of the loop. */
  method Round(q: MessageQueue, shard: Shard, limit: int, clock: nat -> int, n: nat,
               ghost was: set<Row>, ghost taken: seq<Row>)
    returns (batch: seq<Row>, ghost targets: seq<Row>)
    requires q.Valid() && limit != 0 && DrainInv(was, q.rows, taken, shard, clock, n)
    modifies q
    ensures q.Valid() && batch == Claimed(targets, shard) && DrainInv(was, q.rows, taken + targets, shard, clock, n + 1)
    ensures batch == [] ==> Waiting(q.rows, shard) == {}
    ensures batch != [] ==> |Waiting(q.rows, shard)| < |Waiting(old(q.rows), shard)|
  {
    targets := NextBatch(q.Contents(), shard, limit, clock(n));
    RoundKeepsDrain(was, q.Contents(), taken, shard, limit, clock, n);
    batch := q.ClaimBatch(shard, limit, clock(n));
  }

  /** With a limit other than zero and nothing arriving, claiming until a batch is empty ends with
      no row waiting. Each row that waited was claimed, once, or expired; and the ordinary rows of
      each channel came out by priority, then age, across all batches. `clock(k)` is the time of
      batch k. */
  method Drain(q: MessageQueue, shard: Shard, limit: int, clock: nat -> int)
    returns (claimed: seq<Row>, rounds: nat, ghost taken: seq<Row>)
    requires q.Valid() && limit != 0
    modifies q
    ensures q.Valid() && claimed == Claimed(taken, shard)
    ensures Drained(Waiting(old(q.rows), shard), q.rows, taken, shard, clock, rounds)
  {
    claimed, taken, rounds := [], [], 0;
    ghost var was := Waiting(q.rows, shard);
    while true
      invariant q.Valid() && DrainInv(was, q.rows, taken, shard, clock, rounds) && claimed == Claimed(taken, shard)
      decreases |Waiting(q.rows, shard)|
    {
      ghost var targets;
      var batch;
      batch, targets := Round(q, shard, limit, clock, rounds, was, taken);
      ClaimedAppend(taken, targets, shard);
      claimed, taken := claimed + batch, taken + targets;
      rounds := rounds + 1;
      if batch == [] {
        return;
      }
    }
  }

  /** A row without expiry is always claimed, and while the clock stands still exactly the live rows
      are. */
  lemma DrainClaims(was: set<Row>, rows: seq<Row>, taken: seq<Row>, shard: Shard, clock: nat -> int, n: nat, r: Row)
    requires Drained(was, rows, taken, shard, clock, n) && r in was
    ensures r.expiresAt.None? ==> r in taken
    ensures (forall k :: clock(k) == clock(0)) ==> (r in taken <==> Live(r, clock(0)))
  {
    if r in taken {
      var k :| 0 <= k < n && Live(r, clock(k));
    } else {
      var k :| 0 <= k < n && !Live(r, clock(k));
    }
  }
}
