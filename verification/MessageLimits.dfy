/** What the claims of the message queue do not promise, with the inputs that show it and the exact
    conditions: a hold time does not keep a row from being claimed, and the head of a batch may have
    to wait. */
module MessageLimits {
  import opened Ordering
  import opened MessageQueue
  import opened MessageRuns
  import MessageDrain

  // ---- held rows ----

  predicate Held(r: Row, now: int) {
    r.notBefore.Some? && r.notBefore.value > now
  }

  function PlainRow(id: nat, shard: Shard, room: string, isBot: bool): Row {
    Row(id, shard, Line(room), Chan(room), isBot, Plain(room), Queued, Unset, id, None, None, None, None, 0, None)
  }

  function PutBack(r: Row, until: int): Row {
    r.(status := Queued, notBefore := Some(until), claimedBy := None)
  }

  /** hold_batch: a batch that hit a usage wall goes back on the queue until a given time. */
  function HoldBatch(rows: seq<Row>, ids: set<nat>, until: int): (r: seq<Row>)
    ensures |r| == |rows|
    ensures forall i :: 0 <= i < |rows| ==> r[i] == if rows[i].id in ids then PutBack(rows[i], until) else rows[i]
  {
    seq(|rows|, i requires 0 <= i < |rows| => if rows[i].id in ids then PutBack(rows[i], until) else rows[i])
  }

  /** The batch in terms of the live rows of the table before expiry. */
  lemma PeekIsNextBatch(t: Table, shard: Shard, limit: int, now: int)
    requires ValidTable(t)
    ensures var head := First(LiveHeadRows(t.rows, shard, now));
            NextBatch(t, shard, limit, now) ==
              if head.None? then []
              else if Alone(head.value) then RowsById(t.rows, head.value.id)
              else Limit(LiveOrdinaryRows(t.rows, shard, head.value.channelId, now), limit)
  {
    PeekAgrees(t, shard, limit, now);
  }

  lemma SoleRowIsClaimed(t: Table, r: Row, limit: int, now: int)
    requires ValidTable(t) && t.rows == [r] && r.status.Queued? && !Alone(r) && Live(r, now) && limit > 0
    ensures NextBatch(t, r.agent, limit, now) == [r]
  {
    PeekIsNextBatch(t, r.agent, limit, now);
    assert r in t.rows;
    AscendingUnique(LiveHeadRows(t.rows, r.agent, now), [r], HeadOrder);
    AscendingUnique(LiveOrdinaryRows(t.rows, r.agent, r.channelId, now), [r], DispatchOrder);
  }

  lemma SoleRowIsTaken(r: Row, limit: int)
    requires r.status.Queued? && !Alone(r) && limit > 0
    ensures First(HeadRows([r], r.agent)) == Some(r) && BatchTargets([r], r.agent, r, limit) == [r]
    ensures Updated([r], Ids([r]), Claim(r.agent)) == [Edited(r, Claim(r.agent))]
  {
    assert r in [r];
    AscendingUnique(HeadRows([r], r.agent), [r], HeadOrder);
    AscendingUnique(OrdinaryRows([r], r.agent, r.channelId), [r], DispatchOrder);
    assert r.id in Ids([r]);
  }

  /** The run of a row that arrives in an empty queue and is claimed. */
  lemma ArriveAndClaim(r: Row, limit: int) returns (tables: seq<Table>, steps: seq<Step>)
    requires r.id == 0 && Possible(Table([], 0), Arrive(r)) && !Alone(r) && limit > 0
    ensures IsRun(tables, steps) && |steps| == 2
    ensures tables[2] == Table([Edited(r, Claim(r.agent))], 1)
  {
    var empty, one, two := Table([], 0), Table([r], 1), Table([Edited(r, Claim(r.agent))], 1);
    var claim := ClaimHead(r.agent, r, limit);
    assert [] + [r] == [r];
    SoleRowIsTaken(r, limit);
    assert After(empty, Arrive(r)) == one && After(one, claim) == two;
    tables, steps := [empty, one, two], [Arrive(r), claim];
    assert tables[1] == one && ValidTable(tables[1]) && First(HeadRows(tables[1].rows, r.agent)) == Some(r);
    assert HeadWasRead(tables, 1, r.agent, r);
  }

  /** A held row is claimed: it arrives, is claimed, and is held for another second; the next claim
      takes it. */
  lemma HeldRowIsClaimed(shard: Shard, room: string, now: int, limit: int)
    returns (tables: seq<Table>, steps: seq<Step>, t: Table)
    requires limit > 0
    ensures IsRun(tables, steps) && tables[|steps|].rows != [] && tables[|steps|].rows[0].status.InProgress?
    ensures t == Table(HoldBatch(tables[|steps|].rows, {0}, now + 1), tables[|steps|].nextId) && ValidTable(t)
    ensures |t.rows| == 1 && Held(t.rows[0], now) && NextBatch(t, shard, limit, now) == t.rows
  {
    var r := PlainRow(0, shard, room, false);
    var held := r.(notBefore := Some(now + 1));
    tables, steps := ArriveAndClaim(r, limit);
    t := Table(HoldBatch(tables[2].rows, {0}, now + 1), 1);
    assert t.rows == [held];
    SoleRowIsClaimed(t, held, limit, now);
  }

  /** Whether a claim would take a held row. */
  ghost predicate TakesHeld(rows: seq<Row>, shard: Shard, limit: int, now: int)
    requires DistinctIds(rows)
  {
    match First(LiveHeadRows(rows, shard, now))
    case None => false
    case Some(head) =>
      if Alone(head) then
        Held(head, now)
      else
        var line := LiveOrdinaryRows(rows, shard, head.channelId, now);
        exists r :: r in line && Held(r, now) && (limit < 0 || |Before(line, r, DispatchOrder)| < limit)
  }

  /** A claim takes a held row if and only if the head is claimed alone and is held, or a held live
      row of the head's channel is among the first `limit` in dispatch order. */
  lemma ClaimTakesHeldIff(t: Table, shard: Shard, limit: int, now: int)
    requires ValidTable(t)
    ensures (exists r :: r in NextBatch(t, shard, limit, now) && Held(r, now)) <==> TakesHeld(t.rows, shard, limit, now)
  {
    PeekIsNextBatch(t, shard, limit, now);
    var heads := LiveHeadRows(t.rows, shard, now);
    if heads != [] {
      var head := heads[0];
      assert head in heads;
      if Alone(head) {
        SameRow(t.rows, head);
        assert head in RowsById(t.rows, head.id);
      } else {
        var line := LiveOrdinaryRows(t.rows, shard, head.channelId, now);
        PrefixMembers(Limit(line, limit), line);
        forall r | r in line
          ensures r in Limit(line, limit) <==> limit < 0 || |Before(line, r, DispatchOrder)| < limit
        {
          WithinLimitIff(line, r, limit, DispatchOrder);
        }
      }
    }
  }

  /** While the clock stands still, a drain claims a held row if and only if a live runnable row of
      the shard is held: no held row stays held. */
  lemma DrainTakesHeldIff(was: set<Row>, rows: seq<Row>, taken: seq<Row>, shard: Shard, clock: nat -> int, n: nat)
    requires MessageDrain.Drained(was, rows, taken, shard, clock, n) && forall k :: clock(k) == clock(0)
    ensures (exists r :: r in taken && Held(r, clock(0))) <==>
        (exists r :: r in was && Live(r, clock(0)) && Held(r, clock(0)))
  {
    forall r | r in was ensures r in taken <==> Live(r, clock(0)) {
      MessageDrain.DrainClaims(was, rows, taken, shard, clock, n, r);
    }
  }

  // ---- hold times play no part ----

  function Unheld(r: Row): Row {
    r.(notBefore := None)
  }

  function UnheldRows(rows: seq<Row>): (r: seq<Row>)
    ensures |r| == |rows| && forall i :: 0 <= i < |rows| ==> r[i] == Unheld(rows[i])
  {
    seq(|rows|, i requires 0 <= i < |rows| => Unheld(rows[i]))
  }

  lemma UnheldOf(rows: seq<Row>, x: Row) returns (r: Row)
    requires x in UnheldRows(rows)
    ensures r in rows && x == Unheld(r)
  {
    var i :| 0 <= i < |rows| && UnheldRows(rows)[i] == x;
    r := rows[i];
  }

  lemma UnheldIn(rows: seq<Row>, r: Row)
    requires r in rows
    ensures Unheld(r) in UnheldRows(rows)
  {
    var i :| 0 <= i < |rows| && rows[i] == r;
    assert UnheldRows(rows)[i] == Unheld(r);
  }

  lemma UnheldKeepsOrders(rows: seq<Row>)
    ensures Ascending(rows, HeadOrder) ==> Ascending(UnheldRows(rows), HeadOrder)
    ensures Ascending(rows, DispatchOrder) ==> Ascending(UnheldRows(rows), DispatchOrder)
    ensures Ascending(rows, ById) ==> Ascending(UnheldRows(rows), ById)
    ensures DistinctIds(rows) ==> DistinctIds(UnheldRows(rows))
  {
    var u := UnheldRows(rows);
    assert forall i :: 0 <= i < |rows| ==>
        HeadOrder(u[i]) == HeadOrder(rows[i]) && DispatchOrder(u[i]) == DispatchOrder(rows[i])
                                           && ById(u[i]) == ById(rows[i]) && u[i].id == rows[i].id;
  }

  lemma UnheldSelection(rows: seq<Row>, a: seq<Row>, b: seq<Row>, key: Row -> Key)
    requires Ascending(a, key) && Ascending(UnheldRows(b), key)
    requires (forall x :: x in a ==> x in UnheldRows(rows)) && forall r :: r in b ==> r in rows
    requires forall r :: r in rows ==> (Unheld(r) in a <==> r in b)
    ensures a == UnheldRows(b)
  {
    forall x | x in a ensures x in UnheldRows(b) {
      var r := UnheldOf(rows, x);
      UnheldIn(b, r);
    }
    forall x | x in UnheldRows(b) ensures x in a {
      var r := UnheldOf(b, x);
    }
    AscendingUnique(a, UnheldRows(b), key);
  }

  lemma UnheldHeads(rows: seq<Row>, shard: Shard, now: int)
    requires DistinctIds(rows) && DistinctIds(UnheldRows(rows))
    ensures LiveHeadRows(UnheldRows(rows), shard, now) == UnheldRows(LiveHeadRows(rows, shard, now))
  {
    var a, b := LiveHeadRows(UnheldRows(rows), shard, now), LiveHeadRows(rows, shard, now);
    forall r | r in rows ensures Unheld(r) in a <==> r in b {
      UnheldIn(rows, r);
    }
    UnheldKeepsOrders(b);
    UnheldSelection(rows, a, b, HeadOrder);
  }

  lemma UnheldLine(rows: seq<Row>, shard: Shard, c: ChannelId, now: int)
    requires DistinctIds(rows) && DistinctIds(UnheldRows(rows))
    ensures LiveOrdinaryRows(UnheldRows(rows), shard, c, now) == UnheldRows(LiveOrdinaryRows(rows, shard, c, now))
  {
    var a, b := LiveOrdinaryRows(UnheldRows(rows), shard, c, now), LiveOrdinaryRows(rows, shard, c, now);
    forall r | r in rows ensures Unheld(r) in a <==> r in b {
      UnheldIn(rows, r);
    }
    UnheldKeepsOrders(b);
    UnheldSelection(rows, a, b, DispatchOrder);
  }

  lemma UnheldById(rows: seq<Row>, id: nat)
    requires DistinctIds(rows) && DistinctIds(UnheldRows(rows))
    ensures RowsById(UnheldRows(rows), id) == UnheldRows(RowsById(rows, id))
  {
    var a, b := RowsById(UnheldRows(rows), id), RowsById(rows, id);
    forall r | r in rows ensures Unheld(r) in a <==> r in b {
      UnheldIn(rows, r);
    }
    UnheldKeepsOrders(b);
    UnheldSelection(rows, a, b, ById);
  }

  lemma UnheldLimit(rows: seq<Row>, n: int)
    ensures Limit(UnheldRows(rows), n) == UnheldRows(Limit(rows, n))
  {
  }

  /** A claim takes the same rows whatever their hold times: erasing those changes nothing else in
      the batch. */
  lemma HoldPlaysNoPart(t: Table, shard: Shard, limit: int, now: int)
    requires ValidTable(t)
    ensures ValidTable(Table(UnheldRows(t.rows), t.nextId))
    ensures NextBatch(Table(UnheldRows(t.rows), t.nextId), shard, limit, now) ==
        UnheldRows(NextBatch(t, shard, limit, now))
  {
    UnheldKeepsOrders(t.rows);
    assert IdsBelow(UnheldRows(t.rows), t.nextId);
    PeekIsNextBatch(t, shard, limit, now);
    PeekIsNextBatch(Table(UnheldRows(t.rows), t.nextId), shard, limit, now);
    UnheldHeads(t.rows, shard, now);
    var heads := LiveHeadRows(t.rows, shard, now);
    if heads != [] {
      UnheldBatch(t.rows, shard, heads[0], limit, now);
    }
  }

  lemma UnheldBatch(rows: seq<Row>, shard: Shard, head: Row, limit: int, now: int)
    requires DistinctIds(rows) && DistinctIds(UnheldRows(rows))
    ensures RowsById(UnheldRows(rows), head.id) == UnheldRows(RowsById(rows, head.id))
    ensures Limit(LiveOrdinaryRows(UnheldRows(rows), shard, head.channelId, now), limit) ==
            UnheldRows(Limit(LiveOrdinaryRows(rows, shard, head.channelId, now), limit))
  {
    UnheldById(rows, head.id);
    UnheldLine(rows, shard, head.channelId, now);
    UnheldLimit(LiveOrdinaryRows(rows, shard, head.channelId, now), limit);
  }

  // ---- a head that waits ----

  lemma HumanHeads(shard: Shard, room: string, bot: Row, human: Row)
    requires bot == PlainRow(0, shard, room, true) && human == PlainRow(1, shard, room, false)
    ensures DistinctIds([bot, human]) && First(HeadRows([bot, human], shard)) == Some(human)
  {
    var rows := [bot, human];
    assert forall x :: x in rows <==> x == bot || x == human;
    assert Less(HeadOrder(human), HeadOrder(bot));
    HeadIsFirst(rows, shard, Some(human));
  }

  lemma BotComesFirst(shard: Shard, room: string, bot: Row, human: Row)
    requires bot == PlainRow(0, shard, room, true) && human == PlainRow(1, shard, room, false)
    ensures DistinctIds([bot, human]) && OrdinaryRows([bot, human], shard, Chan(room)) == [bot, human]
  {
    var rows := [bot, human];
    assert Less(DispatchOrder(bot), DispatchOrder(human));
    AscendingUnique(OrdinaryRows(rows, shard, Chan(room)), rows, DispatchOrder);
  }

  lemma TwoArrivals(a: Row, b: Row) returns (tables: seq<Table>, steps: seq<Step>)
    requires a.id == 0 && Possible(Table([], 0), Arrive(a)) && b.id == 1 && Possible(Table([a], 1), Arrive(b))
    ensures IsRun(tables, steps) && tables[|steps|] == Table([a, b], 2)
  {
    var empty, one, two := Table([], 0), Table([a], 1), Table([a, b], 2);
    assert [] + [a] == [a] && [a] + [b] == [a, b];
    assert After(empty, Arrive(a)) == one;
    assert After(one, Arrive(b)) == two;
    tables, steps := [empty, one, two], [Arrive(a), Arrive(b)];
  }

  /** The head is not in its batch: an automated row arrives, then a human one. The human row is the
      head, and with a limit of one the batch is the older automated row. */
  lemma HeadIsLeftOut(shard: Shard, room: string) returns (tables: seq<Table>, steps: seq<Step>, bot: Row, human: Row)
    ensures IsRun(tables, steps) && tables[|steps|].rows == [bot, human] && DistinctIds([bot, human])
    ensures First(HeadRows([bot, human], shard)) == Some(human) && BatchTargets([bot, human], shard, human, 1) == [bot]
  {
    bot, human := PlainRow(0, shard, room, true), PlainRow(1, shard, room, false);
    HumanHeads(shard, room, bot, human);
    BotComesFirst(shard, room, bot, human);
    tables, steps := TwoArrivals(bot, human);
  }
}
