/** The sending loop of outbox_send_row (bin/agent-server.py) when neither the process nor an answer
    is lost: `answers` says how Discord answers the POST of each chunk. */
module OutboxSender {
  import opened Ordering
  import opened Outbox

  datatype Answer = Accepted(messageId: nat) | Rejected(kind: Kind, retryAfter: Option<int>)

  /** What becomes of a row being sent. */
  function Sent(p: Policy, r: Row, answers: nat -> Answer, jitter: int, now: int): Row
    requires r.chunksDone <= r.chunks
    decreases r.chunks - r.chunksDone
  {
    if r.chunksDone == r.chunks then
      Edited(r, Deliver, now)
    else
      match answers(r.chunksDone)
      case Accepted(m) => Sent(p, Edited(r, AddChunk(m), now), answers, jitter, now)
      case Rejected(kind, retryAfter) => Edited(r, Failure(p, r, kind, retryAfter, jitter, now), now)
  }

  function Last(ids: seq<nat>): Option<nat> {
    if ids == [] then None else Some(ids[|ids| - 1])
  }

  /** The table with `x` in the place of the row of its id. */
  function Put(rows: seq<Row>, x: Row): (r: seq<Row>)
    ensures |r| == |rows| && forall i :: 0 <= i < |rows| ==> r[i] == if rows[i].id == x.id then x else rows[i]
  {
    seq(|rows|, i requires 0 <= i < |rows| => if rows[i].id == x.id then x else rows[i])
  }

  lemma UpdateIsPut(rows: seq<Row>, was: Row, cur: Row, e: Edit, now: int)
    requires DistinctIds(rows) && was in rows && was.id == cur.id && Applies(e, cur)
    ensures Updated(Put(rows, cur), {cur.id}, e, now) == Put(rows, Edited(cur, e, now))
    ensures cur in Put(rows, cur) && DistinctIds(Put(rows, cur))
  {
    var put := Put(rows, cur);
    assert forall i :: 0 <= i < |rows| ==> put[i].id == rows[i].id;
    var k :| 0 <= k < |rows| && rows[k] == was;
    assert put[k] == cur;
  }

  /** Sends the chunks from the first unrecorded one on. A row without chunks fails for good, a
      missing token or a refused chunk as its kind says. The id returned is the last message's. */
  method SendRow(store: Outbox, row: Row, hasToken: bool, answers: nat -> Answer, jitter: int, now: int)
    returns (last: Option<nat>)
    requires store.Valid() && row in store.rows && row.status.Sending? && row.chunksDone <= row.chunks
    requires 900 <= jitter <= 1100
    modifies store`rows
    ensures store.Valid()
    ensures var after :=
              if !hasToken then Edited(row, Failure(store.policy, row, Transient, None, jitter, now), now)
              else if row.chunks == 0 then Edited(row, Failure(store.policy, row, Permanent, None, jitter, now), now)
              else Sent(store.policy, row, answers, jitter, now);
            && store.rows == Put(old(store.rows), after)
            && last == if after.status.Delivered? then Last(after.messageIds) else None
  {
    ghost var was := store.rows;
    assert store.rows == Put(was, row) by { SameRow(was, row); }
    if !hasToken {
      UpdateIsPut(was, row, row, Failure(store.policy, row, Transient, None, jitter, now), now);
      var _ := store.RecordFailure(row.id, Transient, None, jitter, now);
      return None;
    }
    if row.chunks == 0 {
      UpdateIsPut(was, row, row, Failure(store.policy, row, Permanent, None, jitter, now), now);
      var _ := store.RecordFailure(row.id, Permanent, None, jitter, now);
      return None;
    }
    var ids := row.messageIds;
    ghost var cur := row;
    for idx := row.chunksDone to row.chunks
      invariant store.Valid() && store.rows == Put(was, cur)
      invariant cur.id == row.id && cur.status.Sending? && cur.chunks == row.chunks
      invariant cur.chunksDone == idx && cur.messageIds == ids
      invariant Sent(store.policy, cur, answers, jitter, now) == Sent(store.policy, row, answers, jitter, now)
    {
      match answers(idx)
      case Accepted(m) =>
        UpdateIsPut(was, row, cur, AddChunk(m), now);
        var _ := store.RecordChunk(row.id, m, now);
        ids := ids + [m];
        cur := Edited(cur, AddChunk(m), now);
      case Rejected(kind, retryAfter) =>
        UpdateIsPut(was, row, cur, Failure(store.policy, cur, kind, retryAfter, jitter, now), now);
        var _ := store.RecordFailure(row.id, kind, retryAfter, jitter, now);
        return None;
    }
    UpdateIsPut(was, row, cur, Deliver, now);
    var _ := store.MarkDelivered(row.id, now);
    last := Last(ids);
  }

  /** A row is delivered exactly when every remaining chunk is accepted. Otherwise it stops at the
      first refused chunk, one attempt used, with all chunks before it recorded: the next attempt
      resumes there, and chunk i's message id is always at place i. */
  lemma {:induction false} SentSpec(p: Policy, r: Row, answers: nat -> Answer, jitter: int, now: int)
    requires r.status.Sending? && |r.messageIds| == r.chunksDone <= r.chunks
    ensures var s := Sent(p, r, answers, jitter, now);
            && (s.status.Delivered? <==> forall i: nat :: r.chunksDone <= i < r.chunks ==> answers(i).Accepted?)
            && r.messageIds <= s.messageIds && r.chunksDone <= s.chunksDone == |s.messageIds| <= s.chunks
            && (forall i: nat :: r.chunksDone <= i < s.chunksDone ==> answers(i) == Accepted(s.messageIds[i]))
            && (s.status.Delivered? ==> s.chunksDone == s.chunks == r.chunks && s.attempts == r.attempts)
            && (!s.status.Delivered? ==>
                  && s.chunksDone < s.chunks && answers(s.chunksDone).Rejected? && s.attempts == r.attempts + 1
                  && (s.status.Dead? <==> GivesUp(p, r, answers(s.chunksDone).kind, now))
                  && (s.status.Pending? <==> !s.status.Dead?))
    decreases r.chunks - r.chunksDone
  {
    if r.chunksDone < r.chunks && answers(r.chunksDone).Accepted? {
      SentSpec(p, Edited(r, AddChunk(answers(r.chunksDone).messageId), now), answers, jitter, now);
    }
  }
}
