/** What the claims of the message queue promise about one table. */
module MessageClaims {
  import opened Ordering
  import opened MessageQueue

  // ---- heads and batches ----

  /** The head has the highest priority, and an automated row is head only if no human row, call or
      internal row of that priority waits. A head that is a human row, a call or an internal row is the
      oldest of these of its priority, over all channels. */
  lemma HeadSpec(rows: seq<Row>, shard: Shard)
    requires DistinctIds(rows)
    ensures var head := First(HeadRows(rows, shard));
            && (head.None? <==> forall x :: x in rows ==> !Runnable(x, shard))
            && (head.Some? ==>
                  && head.value in rows && Runnable(head.value, shard)
                  && (forall x :: x in rows && Runnable(x, shard) ==> x.priority <= head.value.priority)
                  && (!Alone(head.value) && head.value.isBot ==>
                        forall x :: x in rows && Runnable(x, shard) && x.priority == head.value.priority ==>
                          !Alone(x) && x.isBot && !Earlier(x, head.value))
                  && forall x :: x in rows && Runnable(x, shard) && x.priority == head.value.priority ==>
                       Automated(x) || !Earlier(x, head.value))
  {
    HeadIsFirst(rows, shard, First(HeadRows(rows, shard)));
  }

  /** The rows that come before a head in its own channel. */
  function Ahead(rows: seq<Row>, shard: Shard, head: Row): set<Row> {
    set y | y in rows && Ordinary(y, shard, head.channelId)
            && !head.isBot && y.isBot && y.priority == head.priority && Earlier(y, head)
  }

  lemma AheadOfHead(rows: seq<Row>, shard: Shard, head: Row)
    requires DistinctIds(rows) && First(HeadRows(rows, shard)) == Some(head) && !Alone(head)
    ensures Before(OrdinaryRows(rows, shard, head.channelId), head, DispatchOrder) == Ahead(rows, shard, head)
  {
    HeadIsFirst(rows, shard, Some(head));
    forall y | y in rows && Ordinary(y, shard, head.channelId)
      ensures Less(DispatchOrder(y), DispatchOrder(head)) <==>
              !head.isBot && y.isBot && y.priority == head.priority && Earlier(y, head)
    {
      assert y != head ==> Less(HeadOrder(head), HeadOrder(y));
    }
  }

  /** The head of an ordinary batch is in the batch exactly when it is automated, or the limit admits
      it after the older automated rows of its priority in its channel: the head order lets it pass
      them, the order inside the batch does not. */
  lemma HeadInBatchIff(rows: seq<Row>, shard: Shard, head: Row, limit: int)
    requires DistinctIds(rows) && First(HeadRows(rows, shard)) == Some(head) && !Alone(head)
    ensures head in BatchTargets(rows, shard, head, limit) <==> limit < 0 || |Ahead(rows, shard, head)| < limit
    ensures head.isBot ==> Ahead(rows, shard, head) == {}
  {
    AheadOfHead(rows, shard, head);
    assert head in OrdinaryRows(rows, shard, head.channelId);
    WithinLimitIff(OrdinaryRows(rows, shard, head.channelId), head, limit, DispatchOrder);
  }

  /** A claim comes back empty exactly when the shard has no runnable live row, or the limit is
      zero and the head is an ordinary row. */
  lemma EmptyIff(t: Table, shard: Shard, limit: int, now: int)
    requires ValidTable(t)
    ensures var head := First(LiveHeadRows(t.rows, shard, now));
            && (head.None? <==> forall x :: x in t.rows && Runnable(x, shard) ==> !Live(x, now))
            && (NextBatch(t, shard, limit, now) == [] <==> head.None? || (limit == 0 && !Alone(head.value)))
  {
    PeekAgrees(t, shard, limit, now);
    var heads := LiveHeadRows(t.rows, shard, now);
    if heads != [] {
      var head := heads[0];
      var rows := AfterExpire(t, shard, now).rows;
      assert head in HeadRows(rows, shard);
      if Alone(head) {
        assert head in ClaimableById(rows, head.id);
      } else {
        assert head in OrdinaryRows(rows, shard, head.channelId);
      }
    } else {
      forall x | x in t.rows && Runnable(x, shard) ensures !Live(x, now) {
        assert x !in heads;
      }
    }
  }

  // ---- stealing ----

  /** The victim's waiting rows of one channel, oldest first. */
  function WaitingIn(rows: seq<Row>, victim: Shard, c: ChannelId): (r: seq<Row>)
    requires DistinctIds(rows)
    ensures Ascending(r, ByAge)
    ensures forall x :: x in r <==> x in rows && x.agent == victim && x.status.Queued? && x.channelId == c
  {
    KeysDistinct(rows);
    Select(rows, (x: Row) => x.agent == victim && x.status.Queued? && x.channelId == c, ByAge)
  }

  lemma OlderIsEligible(rows: seq<Row>, victim: Shard, now: int, cutoff: int, x: Row, m: Row)
    requires Eligible(rows, victim, now, cutoff, m) && !m.channelId.Zero?
    requires x in rows && x.agent == victim && x.status.Queued? && x.channelId == m.channelId && Earlier(x, m)
    ensures Eligible(rows, victim, now, cutoff, x)
  {
    forall e | e in rows && e.agent == victim && e.channelId == x.channelId && e.status.Queued? && Earlier(e, x)
      ensures Stealable(e, now) && e.createdAt <= cutoff
    {
      assert Earlier(e, m);
    }
  }

  lemma EligibleIsPrefix(rows: seq<Row>, victim: Shard, now: int, cutoff: int, c: ChannelId)
    requires DistinctIds(rows) && !c.Zero?
    ensures EligibleRowsOf(rows, victim, now, cutoff, c) <= WaitingIn(rows, victim, c)
  {
    var all := EligibleRowsOf(rows, victim, now, cutoff, c);
    forall x, y | x in WaitingIn(rows, victim, c) && y in all && Less(ByAge(x), ByAge(y)) ensures x in all {
      OlderIsEligible(rows, victim, now, cutoff, x, y);
    }
    AscendingPrefix(all, WaitingIn(rows, victim, c), ByAge);
  }

  /** A conversation is stolen from its front: outside channel '0' the stolen rows are the victim's
      oldest waiting rows of one channel, with none left out, and the victim runs none of it. */
  lemma StolenIsPrefix(rows: seq<Row>, victim: Shard, now: int, cutoff: int, limit: int)
    requires DistinctIds(rows)
    ensures var stolen := StealTargets(rows, victim, now, cutoff, limit);
            stolen != [] && !stolen[0].channelId.Zero? ==>
              && stolen <= WaitingIn(rows, victim, stolen[0].channelId)
              && (forall p :: p in rows && p.agent == victim && p.channelId == stolen[0].channelId ==>
                    !p.status.InProgress?)
              && forall r :: r in stolen ==> r.createdAt <= cutoff && !IsReply(r) && !IsCall(r)
  {
    var stolen := StealTargets(rows, victim, now, cutoff, limit);
    if stolen != [] && !stolen[0].channelId.Zero? {
      var c := stolen[0].channelId;
      assert stolen[0] in stolen;
      StealTargetsSpec(rows, victim, now, cutoff, limit);
      EligibleIsPrefix(rows, victim, now, cutoff, c);
      PrefixesCompose(stolen, EligibleRowsOf(rows, victim, now, cutoff, c), WaitingIn(rows, victim, c));
    }
  }

  lemma PrefixesCompose(a: seq<Row>, b: seq<Row>, c: seq<Row>)
    requires a <= b <= c
    ensures a <= c
  {
  }

  /** Nothing stealable is overlooked: the claim is empty only with nothing eligible or limit 0. */
  lemma StolenEmptyIff(rows: seq<Row>, victim: Shard, now: int, cutoff: int, limit: int)
    requires DistinctIds(rows)
    ensures StealTargets(rows, victim, now, cutoff, limit) == [] <==>
            limit == 0 || forall m :: m in rows ==> !Eligible(rows, victim, now, cutoff, m)
  {
    var all := EligibleRows(rows, victim, now, cutoff);
    if all != [] {
      assert all[0] in all && all[0] in EligibleRowsOf(rows, victim, now, cutoff, all[0].channelId);
    } else {
      forall m | m in rows ensures !Eligible(rows, victim, now, cutoff, m) {
        assert m !in all;
      }
    }
  }

  /** A row whose stored creation time is `second` was created at `at`. */
  predicate CreatedAt(second: int, at: real) {
    second as real <= at < second as real + 1.0
  }

  /** Creation times are stored in whole seconds; the cutoff admits a row exactly when it is
      `minAge` old whenever in that second it was created. */
  lemma AgeFloorIff(created: int, now: real, minAge: real)
    ensures created <= AgeCutoff(now, minAge) <==> forall at :: CreatedAt(created, at) ==> now - at >= minAge
  {
    var limit := now - minAge;
    if created <= AgeCutoff(now, minAge) {
      assert created as real + 1.0 <= limit;
    } else {
      assert limit < created as real + 1.0;
      var late := if limit < created as real then created as real else (limit + created as real + 1.0) / 2.0;
      assert CreatedAt(created, late) && now - late < minAge;
    }
  }
}
