/** The durable outbox table (lib/outbox.py). A row's `id` is its insertion number; `chunks` is the
    number of Discord messages its text splits into. Times are in milliseconds. */
module Outbox {
  import opened Ordering

  const BACKOFF_CAP_MS := 3_600_000
  const RATELIMIT_CAP_MS := 300_000
  const DAY_MS := 86_400_000

  datatype Status = Pending | Sending | Delivered | Dead | Discarded
  datatype Kind = Transient | RateLimit | Permanent

  /** Posting identity and channel: rows of one lane go out in order. */
  datatype Lane = Lane(agent: string, channel: string)

  datatype Row = Row(id: nat, lane: Lane, chunks: nat, createdAt: int, updatedAt: int, status: Status,
                     attempts: nat, chunksDone: nat, messageIds: seq<nat>, nextAttemptAt: Option<int>)

  predicate Active(r: Row) {
    r.status.Pending? || r.status.Sending?
  }

  predicate Older(a: Row, b: Row) {
    a.createdAt < b.createdAt || (a.createdAt == b.createdAt && a.id < b.id)
  }

  function Age(r: Row): Key {
    Key(r.createdAt, r.id, 0, 0)
  }

  ghost predicate DistinctIds(rows: seq<Row>) {
    forall i, j :: 0 <= i < j < |rows| ==> rows[i].id != rows[j].id
  }

  ghost predicate IdsBelow(rows: seq<Row>, n: nat) {
    forall i :: 0 <= i < |rows| ==> rows[i].id < n
  }

  /** No lane has an active row older than a row being sent. */
  ghost predicate SendingIsOldest(rows: seq<Row>) {
    forall a, b :: a in rows && b in rows && a.lane == b.lane && a.status.Sending? && Active(b) ==> !Older(b, a)
  }

  predicate Due(rows: seq<Row>, now: int, r: Row) {
    && r.status.Pending? && r.nextAttemptAt.Some? && r.nextAttemptAt.value <= now
    && !exists p :: p in rows && p.lane == r.lane && Active(p) && p.id != r.id && Older(p, r)
  }

  /** Due rows, oldest first. */
  function DueRows(rows: seq<Row>, now: int): (r: seq<Row>)
    requires DistinctKeys(rows, Age)
    ensures Ascending(r, Age)
    ensures forall x :: x in r <==> x in rows && Due(rows, now, x)
  {
    Select(rows, (x: Row) => Due(rows, now, x), Age)
  }

  // ---- the policy ----

  function Pow3(n: nat): nat {
    if n == 0 then 1 else 3 * Pow3(n - 1)
  }

  /** Wait before attempt number `attempts` + 1, without jitter. */
  function BackoffBase(attempts: int): int {
    var n := if attempts > 20 then 20 else attempts;
    var base := 5000 * Pow3(if n < 1 then 0 else n - 1);
    if base < BACKOFF_CAP_MS then base else BACKOFF_CAP_MS
  }

  /** The random factor is `jitter` thousandths. */
  function Backoff(attempts: int, jitter: int): int {
    BackoffBase(attempts) * jitter / 1000
  }

  lemma {:induction false} Pow3Grows(m: nat, n: nat)
    requires m <= n
    ensures 1 <= Pow3(m) <= Pow3(n)
  {
    if n > 0 {
      if m < n {
        Pow3Grows(m, n - 1);
      } else {
        Pow3Grows(m - 1, n - 1);
      }
    }
  }

  lemma TimesGrows(a: int, b: int, c: int)
    requires a <= b && 0 <= c
    ensures a * c <= b * c
  {
  }

  lemma BaseGrows(a: int, b: int)
    requires a <= b
    ensures 5000 <= BackoffBase(a) <= BackoffBase(b) <= BACKOFF_CAP_MS
  {
    var m := if a > 20 then 20 else a;
    var n := if b > 20 then 20 else b;
    Pow3Grows(if m < 1 then 0 else m - 1, if n < 1 then 0 else n - 1);
  }

  /** Waits never shrink from one attempt to the next, and with jitter stay between 4.5 seconds
      and 66 minutes. */
  lemma BackoffBounds(a: int, b: int, jitter: int)
    requires a <= b && 900 <= jitter <= 1100
    ensures BackoffBase(a) <= BackoffBase(b)
    ensures 4500 <= Backoff(a, jitter) <= 3_960_000
  {
    BaseGrows(a, b);
    TimesGrows(5000, BackoffBase(a), jitter);
    TimesGrows(BackoffBase(a), BACKOFF_CAP_MS, jitter);
  }

  // ---- the statements ----

  datatype Edit =
    | Claim
    | AddChunk(messageId: nat)
    | Deliver
    | Die
    | RetryIn(wait: int)
    | Recover
    | Discard
    | Retry

  /** The status guard of the statement's WHERE clause. */
  predicate Applies(e: Edit, r: Row) {
    match e
    case Claim => r.status.Pending?
    case Discard => r.status.Pending? || r.status.Dead?
    case Retry => r.status.Dead? || r.status.Discarded?
    case _ => r.status.Sending?
  }

  function Edited(r: Row, e: Edit, now: int): Row {
    match e
    case Claim => r.(status := Sending, updatedAt := now)
    case AddChunk(m) => r.(messageIds := r.messageIds + [m], chunksDone := r.chunksDone + 1, updatedAt := now)
    case Deliver => r.(status := Delivered, updatedAt := now, nextAttemptAt := None)
    case Die => r.(status := Dead, attempts := r.attempts + 1, updatedAt := now, nextAttemptAt := None)
    case RetryIn(wait) =>
      r.(status := Pending, attempts := r.attempts + 1, updatedAt := now, nextAttemptAt := Some(now + wait))
    case Recover => r.(status := Pending, updatedAt := now, nextAttemptAt := Some(now))
    case Discard => r.(status := Discarded, updatedAt := now, nextAttemptAt := None)
    case Retry => r.(status := Pending, attempts := 0, updatedAt := now, nextAttemptAt := Some(now))
  }

  /** UPDATE outbox SET ... WHERE id IN `ids` AND the guard of `e`. */
  function Updated(rows: seq<Row>, ids: set<nat>, e: Edit, now: int): (r: seq<Row>)
    ensures |r| == |rows|
    ensures forall i :: 0 <= i < |rows| ==>
              r[i] == if rows[i].id in ids && Applies(e, rows[i]) then Edited(rows[i], e, now) else rows[i]
  {
    seq(|rows|, i requires 0 <= i < |rows| =>
      if rows[i].id in ids && Applies(e, rows[i]) then Edited(rows[i], e, now) else rows[i])
  }

  lemma SameRow(rows: seq<Row>, r: Row)
    requires DistinctIds(rows) && r in rows
    ensures forall x :: x in rows && x.id == r.id ==> x == r
  {
  }

  lemma UpdatedKeepsIds(rows: seq<Row>, ids: set<nat>, e: Edit, now: int)
    ensures var after := Updated(rows, ids, e, now);
            && (DistinctIds(rows) ==> DistinctIds(after))
            && forall n :: IdsBelow(rows, n) ==> IdsBelow(after, n)
  {
    var after := Updated(rows, ids, e, now);
    assert forall i :: 0 <= i < |rows| ==> after[i].id == rows[i].id;
  }

  /** DELETE FROM outbox WHERE id IN `ids`. */
  function Without(rows: seq<Row>, ids: set<nat>): (r: seq<Row>)
    ensures forall x :: x in r <==> x in rows && x.id !in ids
  {
    if rows == [] then [] else
      assert forall x :: x in rows <==> x == rows[0] || x in rows[1..];
      (if rows[0].id in ids then [] else [rows[0]]) + Without(rows[1..], ids)
  }

  predicate Purgeable(r: Row, now: int, deliveredDays: nat, deadDays: nat) {
    || (r.status.Delivered? && r.updatedAt < now - deliveredDays * DAY_MS)
    || ((r.status.Dead? || r.status.Discarded?) && r.updatedAt < now - deadDays * DAY_MS)
  }

  function Ids(rows: seq<Row>): set<nat> {
    set r | r in rows :: r.id
  }

  function SendingIds(rows: seq<Row>): set<nat> {
    set r | r in rows && r.status.Sending? :: r.id
  }

  function PurgeIds(rows: seq<Row>, now: int, deliveredDays: nat, deadDays: nat): set<nat> {
    set r | r in rows && Purgeable(r, now, deliveredDays, deadDays) :: r.id
  }

  function NewRow(id: nat, lane: Lane, chunks: nat, status: Status, now: int): Row {
    Row(id, lane, chunks, now, now, status, 0, 0, [], Some(now))
  }

  function DeadRow(id: nat, lane: Lane, chunks: nat, createdAt: int, attempts: nat, now: int): Row {
    Row(id, lane, chunks, createdAt, now, Dead, attempts, 0, [], None)
  }

  predicate LaneBusy(rows: seq<Row>, lane: Lane) {
    exists r :: r in rows && r.lane == lane && Active(r)
  }

  datatype Policy = Policy(maxAttempts: int, maxAgeMs: int)

  /** Whether a failed attempt is the last one. */
  predicate GivesUp(p: Policy, r: Row, kind: Kind, now: int) {
    || kind.Permanent?
    || r.attempts + 1 >= p.maxAttempts
    || now - (if r.createdAt != 0 then r.createdAt else now) > p.maxAgeMs
  }

  function Wait(r: Row, kind: Kind, retryAfter: Option<int>, jitter: int): int {
    var backoff := Backoff(r.attempts + 1, jitter);
    if kind.RateLimit? then
      var w := if retryAfter.Some? && retryAfter.value != 0 then retryAfter.value else backoff;
      if w < RATELIMIT_CAP_MS then w else RATELIMIT_CAP_MS
    else
      backoff
  }

  function Failure(p: Policy, r: Row, kind: Kind, retryAfter: Option<int>, jitter: int, now: int): Edit {
    if GivesUp(p, r, kind, now) then Die else RetryIn(Wait(r, kind, retryAfter, jitter))
  }

  // ---- what the functions above mean ----

  /** `r` is the oldest row of its lane that is still to be delivered. */
  ghost predicate OldestActive(rows: seq<Row>, r: Row) {
    && (r.status == Pending || r.status == Sending)
    && forall p :: p in rows && p.lane == r.lane && p.id != r.id && (p.status == Pending || p.status == Sending) ==>
         r.createdAt < p.createdAt || (r.createdAt == p.createdAt && r.id < p.id)
  }

  /** `r` may be sent now: it waits, its time has come, and it is the oldest of its lane. */
  ghost predicate MayGo(rows: seq<Row>, now: int, r: Row) {
    r.status == Pending && r.nextAttemptAt.Some? && now >= r.nextAttemptAt.value && OldestActive(rows, r)
  }

  lemma DueMeans(rows: seq<Row>, now: int, r: Row)
    ensures Due(rows, now, r) <==> MayGo(rows, now, r)
  {
  }

  /** The waits by number of failed attempts, without jitter. */
  function Ladder(attempts: nat): int {
    if attempts <= 1 then 5_000
    else if attempts == 2 then 15_000
    else if attempts == 3 then 45_000
    else if attempts == 4 then 135_000
    else if attempts == 5 then 405_000
    else if attempts == 6 then 1_215_000
    else 3_600_000
  }

  lemma LadderIsBase(attempts: nat)
    ensures BackoffBase(attempts) == Ladder(attempts)
  {
    var n := if attempts > 20 then 20 else attempts;
    assert Pow3(0) == 1 && Pow3(1) == 3 && Pow3(2) == 9 && Pow3(3) == 27;
    assert Pow3(4) == 81 && Pow3(5) == 243 && Pow3(6) == 729;
    if n >= 7 {
      Pow3Grows(6, n - 1);
    }
  }

  /** The wait after failure number `attempts`: what Discord asks for, up to five minutes, or the ladder's. */
  function RetryWait(attempts: nat, kind: Kind, retryAfter: Option<int>, jitter: int): int {
    var own := Ladder(attempts) * jitter / 1000;
    if kind != RateLimit then own
    else if retryAfter.None? || retryAfter.value == 0 then (if own > 300_000 then 300_000 else own)
    else if retryAfter.value > 300_000 then 300_000
    else retryAfter.value
  }

  /** A failed attempt is the last: the error is final, the attempts are used up, or the row is too old. */
  predicate LastAttempt(p: Policy, r: Row, kind: Kind, now: int) {
    || kind == Permanent || r.attempts + 1 >= p.maxAttempts
    || (if r.createdAt == 0 then p.maxAgeMs < 0 else r.createdAt + p.maxAgeMs < now)
  }

  /** The row after a failed attempt. */
  ghost predicate Failed(p: Policy, r: Row, x: Row, kind: Kind, retryAfter: Option<int>, jitter: int, now: int) {
    if LastAttempt(p, r, kind, now) then
      x == r.(status := Dead, attempts := r.attempts + 1, updatedAt := now, nextAttemptAt := None)
    else
      x == r.(status := Pending, attempts := r.attempts + 1, updatedAt := now,
              nextAttemptAt := Some(now + RetryWait(r.attempts + 1, kind, retryAfter, jitter)))
  }

  lemma FailureMeans(p: Policy, r: Row, kind: Kind, retryAfter: Option<int>, jitter: int, now: int)
    ensures GivesUp(p, r, kind, now) <==> LastAttempt(p, r, kind, now)
    ensures Failed(p, r, Edited(r, Failure(p, r, kind, retryAfter, jitter, now), now), kind, retryAfter, jitter, now)
  {
    LadderIsBase(r.attempts + 1);
  }

  /** After a failure a lane waits exactly as long as its oldest row has to. */
  lemma FailedIsDueIff(rows: seq<Row>, r: Row, wait: int, now: int, later: int)
    requires DistinctIds(rows) && r in rows && r.status.Sending? && OldestActive(rows, r)
    ensures var x :=
              r.(status := Pending, attempts := r.attempts + 1, updatedAt := now, nextAttemptAt := Some(now + wait));
            var after := Updated(rows, {r.id}, RetryIn(wait), now);
            x in after && (Due(after, later, x) <==> later >= now + wait)
  {
    OneUpdated(rows, r, RetryIn(wait), now);
  }

  /** A row that was sending waits again and may go at once. */
  ghost predicate GoesAgain(rows: seq<Row>, r: Row, now: int) {
    var x := r.(status := Pending, updatedAt := now, nextAttemptAt := Some(now));
    x in rows && MayGo(rows, now, x)
  }

  lemma RecoverMeans(rows: seq<Row>, now: int)
    ensures var after := Updated(rows, SendingIds(rows), Recover, now);
            forall i :: 0 <= i < |rows| ==>
              after[i] == if rows[i].status == Sending
                          then rows[i].(status := Pending, updatedAt := now, nextAttemptAt := Some(now)) else rows[i]
  {
    assert forall i :: 0 <= i < |rows| ==> rows[i] in rows;
  }

  /** After a restart the oldest row of a lane is sent on, if it was being sent before. */
  lemma RecoveredGoes(rows: seq<Row>, r: Row, now: int)
    requires r in rows && r.status == Sending && OldestActive(rows, r)
    ensures GoesAgain(Updated(rows, SendingIds(rows), Recover, now), r, now)
  {
    var x := r.(status := Pending, updatedAt := now, nextAttemptAt := Some(now));
    var after := Updated(rows, SendingIds(rows), Recover, now);
    RecoverMeans(rows, now);
    var j :| 0 <= j < |rows| && rows[j] == r;
    assert after[j] == x;
    forall p | p in after && p.lane == x.lane && p.id != x.id && (p.status == Pending || p.status == Sending)
      ensures x.createdAt < p.createdAt || (x.createdAt == p.createdAt && x.id < p.id)
    {
      var i :| 0 <= i < |after| && after[i] == p;
      assert rows[i] in rows;
    }
  }

  ghost predicate Follow(rows: seq<Row>, a: Row, b: Row) {
    exists k, m :: 0 <= k < m < |rows| && rows[k] == a && rows[m] == b
  }

  /** The rows of `kept` stand in `rows`, in the same order. */
  ghost predicate InOrderOf(kept: seq<Row>, rows: seq<Row>) {
    forall i, j :: 0 <= i < j < |kept| ==> Follow(rows, kept[i], kept[j])
  }

  lemma FollowMore(rows: seq<Row>, a: Row, b: Row)
    requires rows != [] && (Follow(rows[1..], a, b) || (a == rows[0] && b in rows[1..]))
    ensures Follow(rows, a, b)
  {
    if a == rows[0] && b in rows[1..] {
      var n :| 0 <= n < |rows[1..]| && rows[1..][n] == b;
      assert rows[n + 1] == b;
    } else {
      var k, m :| 0 <= k < m < |rows[1..]| && rows[1..][k] == a && rows[1..][m] == b;
      assert rows[k + 1] == a && rows[m + 1] == b;
    }
  }

  lemma OrderMore(rows: seq<Row>, head: seq<Row>, rest: seq<Row>)
    requires rows != [] && (head == [] || head == [rows[0]])
    requires InOrderOf(rest, rows[1..]) && forall x :: x in rest ==> x in rows[1..]
    ensures InOrderOf(head + rest, rows)
  {
    var kept := head + rest;
    forall i, j | 0 <= i < j < |kept| ensures Follow(rows, kept[i], kept[j]) {
      assert kept[j] == rest[j - |head|] && rest[j - |head|] in rest;
      assert i >= |head| ==> kept[i] == rest[i - |head|];
      FollowMore(rows, kept[i], kept[j]);
    }
  }

  /** Deleting rows leaves the others in their order. */
  lemma {:induction false} WithoutKeepsOrder(rows: seq<Row>, ids: set<nat>)
    ensures InOrderOf(Without(rows, ids), rows)
  {
    if rows != [] {
      WithoutKeepsOrder(rows[1..], ids);
      var head, rest := if rows[0].id in ids then [] else [rows[0]], Without(rows[1..], ids);
      assert Without(rows, ids) == head + rest;
      OrderMore(rows, head, rest);
    }
  }

  lemma WithoutMeans(rows: seq<Row>, now: int, deliveredDays: nat, deadDays: nat)
    requires DistinctIds(rows)
    ensures var kept := Without(rows, PurgeIds(rows, now, deliveredDays, deadDays));
            && InOrderOf(kept, rows)
            && forall r :: r in kept <==> r in rows && !OldAndFinished(r, now, deliveredDays, deadDays)
  {
    var ids := PurgeIds(rows, now, deliveredDays, deadDays);
    var kept := Without(rows, ids);
    WithoutKeepsOrder(rows, ids);
    forall r | r in rows ensures r.id in ids <==> OldAndFinished(r, now, deliveredDays, deadDays) {
      SameRow(rows, r);
    }
  }

  predicate OldAndFinished(r: Row, now: int, deliveredDays: nat, deadDays: nat) {
    match r.status
    case Delivered => now - r.updatedAt > deliveredDays * 86_400_000
    case Dead => now - r.updatedAt > deadDays * 86_400_000
    case Discarded => now - r.updatedAt > deadDays * 86_400_000
    case _ => false
  }

  class Outbox {
    const policy: Policy
    var rows: seq<Row>
    var nextId: nat

    constructor (policy: Policy)
      ensures this.policy == policy && rows == [] && nextId == 0 && Valid()
    {
      this.policy, rows, nextId := policy, [], 0;
    }

    ghost predicate Valid()
      reads this
    {
      DistinctIds(rows) && IdsBelow(rows, nextId)
    }

    /** The inline owner's claim is honoured only in a lane with no active row. */
    method Enqueue(lane: Lane, chunks: nat, claimed: bool, now: int) returns (id: nat, mine: bool)
      requires Valid()
      modifies this
      ensures Valid() && id == old(nextId) && nextId == id + 1
      ensures mine <==> claimed && !LaneBusy(old(rows), lane)
      ensures mine <==>
          claimed && forall r :: r in old(rows) && r.lane == lane ==> r.status != Pending && r.status != Sending
      ensures var status := if mine then Sending else Pending;
              rows == old(rows) + [Row(id, lane, chunks, now, now, status, 0, 0, [], Some(now))]
    {
      id := nextId;
      mine := claimed && !LaneBusy(rows, lane);
      rows, nextId := rows + [NewRow(id, lane, chunks, if mine then Sending else Pending, now)], nextId + 1;
    }

    method InsertDead(lane: Lane, chunks: nat, createdAt: int, attempts: nat, now: int) returns (id: nat)
      requires Valid()
      modifies this
      ensures Valid() && id == old(nextId) && nextId == id + 1
      ensures rows == old(rows) + [Row(id, lane, chunks, createdAt, now, Dead, attempts, 0, [], None)]
    {
      id := nextId;
      rows, nextId := rows + [DeadRow(id, lane, chunks, createdAt, attempts, now)], nextId + 1;
    }

    /** Claims due rows, oldest first. A due row is left only when the limit is used up on older ones. */
    method ClaimDue(now: int, limit: int) returns (claimed: seq<Row>)
      requires Valid()
      modifies this`rows
      ensures Valid()
      ensures rows == Updated(old(rows), Ids(claimed), Claim, now)
      ensures forall i :: 0 <= i < |rows| ==>
                rows[i] == if old(rows)[i].id in Ids(claimed) then old(rows)[i].(status := Sending, updatedAt := now)
                           else old(rows)[i]
      ensures forall r :: r in old(rows) && r.id in Ids(claimed) ==> MayGo(old(rows), now, r)
      ensures forall r :: r in old(rows) && MayGo(old(rows), now, r) && r.id !in Ids(claimed) ==> |claimed| == limit
      ensures forall c :: c in claimed ==> c in rows && c.status.Sending?
      ensures forall r :: r in old(rows) && r.id in Ids(claimed) ==> Due(old(rows), now, r)
      ensures Ascending(claimed, Age)
      ensures forall r :: r in old(rows) && Due(old(rows), now, r) && r.id !in Ids(claimed) ==>
                |claimed| == limit && forall c :: c in claimed ==> Older(c, r)
    {
      KeysDistinct(rows);
      var due := DueRows(rows, now);
      forall r ensures Due(rows, now, r) <==> MayGo(rows, now, r) { DueMeans(rows, now, r); }
      var picked := Limit(due, limit);
      claimed := seq(|picked|, i requires 0 <= i < |picked| => Edited(picked[i], Claim, now));
      PickedAreClaimed(rows, due, picked, claimed, now);
      UpdatedKeepsIds(rows, Ids(picked), Claim, now);
      rows := Updated(rows, Ids(picked), Claim, now);
    }

    method RecordChunk(id: nat, messageId: nat, now: int) returns (ok: bool)
      requires Valid()
      modifies this`rows
      ensures Valid() && rows == Updated(old(rows), {id}, AddChunk(messageId), now)
      ensures forall i :: 0 <= i < |rows| ==> var r := old(rows)[i];
                rows[i] == if r.id == id && r.status == Sending
                           then r.(messageIds := r.messageIds + [messageId], chunksDone := r.chunksDone + 1,
                                   updatedAt := now)
                           else r
      ensures ok <==> id in SendingIds(old(rows))
    {
      ok := id in SendingIds(rows);
      UpdatedKeepsIds(rows, {id}, AddChunk(messageId), now);
      rows := Updated(rows, {id}, AddChunk(messageId), now);
    }

    method MarkDelivered(id: nat, now: int) returns (ok: bool)
      requires Valid()
      modifies this`rows
      ensures Valid() && rows == Updated(old(rows), {id}, Deliver, now)
      ensures forall i :: 0 <= i < |rows| ==> var r := old(rows)[i];
                rows[i] == if r.id == id && r.status == Sending
                           then r.(status := Delivered, updatedAt := now, nextAttemptAt := None)
                           else r
      ensures ok <==> id in SendingIds(old(rows))
    {
      ok := id in SendingIds(rows);
      UpdatedKeepsIds(rows, {id}, Deliver, now);
      rows := Updated(rows, {id}, Deliver, now);
    }

    /** A failed attempt of a row being sent; anything else is left alone. */
    method RecordFailure(id: nat, kind: Kind, retryAfter: Option<int>, jitter: int, now: int)
      returns (status: Option<Status>)
      requires Valid() && 900 <= jitter <= 1100
      modifies this`rows
      ensures Valid()
      ensures id !in SendingIds(old(rows)) ==> status.None? && rows == old(rows)
      ensures |rows| == |old(rows)|
      ensures forall i :: 0 <= i < |rows| ==> var r := old(rows)[i];
                if r.id == id && r.status == Sending then Failed(policy, r, rows[i], kind, retryAfter, jitter, now)
                else rows[i] == r
      ensures forall r :: r in old(rows) && r.id == id && r.status.Sending? ==>
                && rows == Updated(old(rows), {id}, Failure(policy, r, kind, retryAfter, jitter, now), now)
                && status == Some(if GivesUp(policy, r, kind, now) then Dead else Pending)
    {
      if id !in SendingIds(rows) {
        return None;
      }
      var r :| r in rows && r.id == id && r.status.Sending?;
      SameRow(rows, r);
      FailureMeans(policy, r, kind, retryAfter, jitter, now);
      UpdatedKeepsIds(rows, {id}, Failure(policy, r, kind, retryAfter, jitter, now), now);
      if GivesUp(policy, r, kind, now) {
        rows, status := Updated(rows, {id}, Die, now), Some(Dead);
      } else {
        rows, status := Updated(rows, {id}, RetryIn(Wait(r, kind, retryAfter, jitter)), now), Some(Pending);
      }
    }

    /** At start: every row left sending goes back to pending, due at once. */
    method RecoverSending(now: int) returns (n: nat)
      requires Valid()
      modifies this`rows
      ensures Valid() && rows == Updated(old(rows), SendingIds(old(rows)), Recover, now)
      ensures |rows| == |old(rows)|
      ensures forall i :: 0 <= i < |rows| ==> var r := old(rows)[i];
                rows[i] == if r.status == Sending
                           then r.(status := Pending, updatedAt := now, nextAttemptAt := Some(now)) else r
      ensures forall r :: r in old(rows) && r.status == Sending && OldestActive(old(rows), r) ==>
                GoesAgain(rows, r, now)
      ensures forall r :: r in rows ==> !r.status.Sending?
      ensures n == |SendingIds(old(rows))|
    {
      var ids := SendingIds(rows);
      ghost var was := rows;
      UpdatedKeepsIds(was, ids, Recover, now);
      n := |ids|;
      var left := ids;
      while left != {}
        invariant left <= ids
        invariant rows == Updated(was, ids - left, Recover, now)
        decreases left
      {
        var id :| id in left;
        rows := Updated(rows, {id}, Recover, now);
        RecoverOne(was, ids - left, id, now);
        OneMore(ids, left, id);
        left := left - {id};
      }
      assert ids - left == ids;
      NoneSending(was, now);
      RecoverMeans(was, now);
      forall r | r in was && r.status == Sending && OldestActive(was, r) ensures GoesAgain(rows, r, now) {
        RecoveredGoes(was, r, now);
      }
    }

    method DiscardRow(id: nat, now: int) returns (ok: bool)
      requires Valid()
      modifies this`rows
      ensures Valid() && rows == Updated(old(rows), {id}, Discard, now)
      ensures forall i :: 0 <= i < |rows| ==> var r := old(rows)[i];
                rows[i] == if r.id == id && (r.status == Pending || r.status == Dead)
                           then r.(status := Discarded, updatedAt := now, nextAttemptAt := None)
                           else r
      ensures ok <==> exists r :: r in old(rows) && r.id == id && Applies(Discard, r)
    {
      ok := exists r :: r in rows && r.id == id && Applies(Discard, r);
      UpdatedKeepsIds(rows, {id}, Discard, now);
      rows := Updated(rows, {id}, Discard, now);
    }

    method RetryRow(id: nat, now: int) returns (ok: bool)
      requires Valid()
      modifies this`rows
      ensures Valid() && rows == Updated(old(rows), {id}, Retry, now)
      ensures forall i :: 0 <= i < |rows| ==> var r := old(rows)[i];
                rows[i] == if r.id == id && (r.status == Dead || r.status == Discarded)
                           then r.(status := Pending, attempts := 0, updatedAt := now, nextAttemptAt := Some(now))
                           else r
      ensures ok <==> exists r :: r in old(rows) && r.id == id && Applies(Retry, r)
    {
      ok := exists r :: r in rows && r.id == id && Applies(Retry, r);
      UpdatedKeepsIds(rows, {id}, Retry, now);
      rows := Updated(rows, {id}, Retry, now);
    }

    /** Deletes old finished rows, one by one; the others keep their places. */
    method Purge(now: int, deliveredDays: nat, deadDays: nat) returns (purged: nat)
      requires Valid()
      modifies this`rows
      ensures Valid()
      ensures rows == Without(old(rows), PurgeIds(old(rows), now, deliveredDays, deadDays))
      ensures forall r :: r in rows <==> r in old(rows) && !OldAndFinished(r, now, deliveredDays, deadDays)
      ensures InOrderOf(rows, old(rows))
      ensures purged == |PurgeIds(old(rows), now, deliveredDays, deadDays)|
    {
      var gone := PurgeIds(rows, now, deliveredDays, deadDays);
      WithoutMeans(rows, now, deliveredDays, deadDays);
      ghost var was := rows;
      var left := gone;
      WithoutNone(rows);
      assert gone - left == {};
      while left != {}
        invariant left <= gone && rows == Without(was, gone - left)
        decreases left
      {
        var id :| id in left;
        WithoutTwice(was, gone - left, {id});
        rows := Without(rows, {id});
        OneMore(gone, left, id);
        left := left - {id};
      }
      assert gone - left == gone;
      WithoutKeepsIds(was, gone);
      WithoutKeepsBound(was, gone, nextId);
      purged := |gone|;
    }
  }

  lemma LeftIsYounger(due: seq<Row>, picked: seq<Row>, r: Row)
    requires Ascending(due, Age) && picked <= due && r in due && r.id !in Ids(picked)
    ensures |picked| < |due| && forall c :: c in picked ==> Older(c, r)
  {
    var j :| 0 <= j < |due| && due[j] == r;
    assert forall k :: 0 <= k < |picked| ==> picked[k] in picked && picked[k].id in Ids(picked);
    assert j >= |picked|;
    forall c | c in picked ensures Older(c, r) {
      var i :| 0 <= i < |picked| && picked[i] == c;
      assert Less(Age(due[i]), Age(due[j]));
    }
  }

  lemma OneMore(all: set<nat>, left: set<nat>, id: nat)
    requires id in left && left <= all
    ensures all - left + {id} == all - (left - {id})
  {
  }

  lemma RecoverOne(rows: seq<Row>, done: set<nat>, id: nat, now: int)
    ensures Updated(Updated(rows, done, Recover, now), {id}, Recover, now) == Updated(rows, done + {id}, Recover, now)
  {
    var a := Updated(rows, done, Recover, now);
    forall i | 0 <= i < |rows|
      ensures Updated(a, {id}, Recover, now)[i] == Updated(rows, done + {id}, Recover, now)[i]
    {
      assert a[i].id == rows[i].id;
    }
  }

  lemma NoneSending(rows: seq<Row>, now: int)
    ensures forall r :: r in Updated(rows, SendingIds(rows), Recover, now) ==> !r.status.Sending?
  {
    var after := Updated(rows, SendingIds(rows), Recover, now);
    forall i | 0 <= i < |rows| ensures !after[i].status.Sending? {
      assert rows[i] in rows;
    }
  }

  lemma SameIds(picked: seq<Row>, claimed: seq<Row>)
    requires |claimed| == |picked| && forall i :: 0 <= i < |picked| ==> claimed[i].id == picked[i].id
    ensures Ids(claimed) == Ids(picked)
  {
    forall i | 0 <= i < |picked| ensures picked[i].id in Ids(picked) && picked[i].id in Ids(claimed) {
      assert picked[i] in picked && claimed[i] in claimed;
    }
    forall c | c in claimed ensures c.id in Ids(picked) {
      var i :| 0 <= i < |claimed| && claimed[i] == c;
    }
    forall p | p in picked ensures p.id in Ids(claimed) {
      var i :| 0 <= i < |picked| && picked[i] == p;
    }
  }

  lemma KeysDistinct(rows: seq<Row>)
    requires DistinctIds(rows)
    ensures DistinctKeys(rows, Age)
  {
  }

  lemma ClaimedAreRows(rows: seq<Row>, picked: seq<Row>, claimed: seq<Row>, now: int)
    requires forall r :: r in picked ==> r in rows && r.status.Pending?
    requires |claimed| == |picked| && forall i :: 0 <= i < |picked| ==> claimed[i] == Edited(picked[i], Claim, now)
    ensures forall c :: c in claimed ==> c in Updated(rows, Ids(picked), Claim, now) && c.status.Sending?
  {
    forall c | c in claimed ensures c in Updated(rows, Ids(picked), Claim, now) && c.status.Sending? {
      var i :| 0 <= i < |claimed| && claimed[i] == c;
      assert picked[i] in picked;
      var j :| 0 <= j < |rows| && rows[j] == picked[i];
      assert Updated(rows, Ids(picked), Claim, now)[j] == c;
    }
  }

  lemma PickedIdsAreDue(rows: seq<Row>, due: seq<Row>, picked: seq<Row>)
    requires DistinctIds(rows) && picked <= due && forall r :: r in due ==> r in rows
    ensures forall r :: r in picked ==> r in due
    ensures forall r :: r in rows && r.id in Ids(picked) ==> r in due
  {
    forall p | p in picked ensures p in due {
      var i :| 0 <= i < |picked| && picked[i] == p;
      assert due[i] == p;
    }
    forall r | r in rows && r.id in Ids(picked) ensures r in due {
      var p :| p in picked && p.id == r.id;
      SameRow(rows, p);
    }
  }

  lemma LeftAreYounger(due: seq<Row>, picked: seq<Row>, claimed: seq<Row>, now: int)
    requires Ascending(due, Age) && picked <= due
    requires |claimed| == |picked| && forall i :: 0 <= i < |picked| ==> claimed[i] == Edited(picked[i], Claim, now)
    ensures forall r :: r in due && r.id !in Ids(picked) ==>
        |picked| < |due| && forall c :: c in claimed ==> Older(c, r)
  {
    forall r | r in due && r.id !in Ids(picked) ensures |picked| < |due| && forall c :: c in claimed ==> Older(c, r) {
      LeftIsYounger(due, picked, r);
      forall c | c in claimed ensures Older(c, r) {
        var i :| 0 <= i < |claimed| && claimed[i] == c;
        assert picked[i] in picked;
      }
    }
  }

  lemma PickedAreClaimed(rows: seq<Row>, due: seq<Row>, picked: seq<Row>, claimed: seq<Row>, now: int)
    requires DistinctIds(rows) && Ascending(due, Age) && picked <= due
    requires forall r :: r in due ==> r in rows && r.status.Pending?
    requires |claimed| == |picked| && forall i :: 0 <= i < |picked| ==> claimed[i] == Edited(picked[i], Claim, now)
    ensures Ids(claimed) == Ids(picked) && Ascending(claimed, Age)
    ensures forall c :: c in claimed ==> c in Updated(rows, Ids(picked), Claim, now) && c.status.Sending?
    ensures forall r :: r in rows && r.id in Ids(picked) ==> r in due
    ensures forall r :: r in due && r.id !in Ids(picked) ==>
        |picked| < |due| && forall c :: c in claimed ==> Older(c, r)
  {
    SameIds(picked, claimed);
    PickedIdsAreDue(rows, due, picked);
    ClaimedAreRows(rows, picked, claimed, now);
    LeftAreYounger(due, picked, claimed, now);
    AgesKept(due, picked, claimed, now);
  }

  lemma AgesKept(due: seq<Row>, picked: seq<Row>, claimed: seq<Row>, now: int)
    requires Ascending(due, Age) && picked <= due
    requires |claimed| == |picked| && forall i :: 0 <= i < |picked| ==> claimed[i] == Edited(picked[i], Claim, now)
    ensures Ascending(claimed, Age)
  {
    assert forall i :: 0 <= i < |picked| ==> picked[i] == due[i] && Age(claimed[i]) == Age(picked[i]);
  }

  lemma {:induction false} WithoutNone(rows: seq<Row>)
    ensures Without(rows, {}) == rows
  {
    if rows != [] {
      WithoutNone(rows[1..]);
    }
  }

  lemma {:induction false} WithoutTwice(rows: seq<Row>, a: set<nat>, b: set<nat>)
    ensures Without(Without(rows, a), b) == Without(rows, a + b)
  {
    if rows != [] {
      WithoutTwice(rows[1..], a, b);
      var rest := Without(rows[1..], a);
      if rows[0].id !in a {
        assert Without(rows, a) == [rows[0]] + rest;
        assert ([rows[0]] + rest)[1..] == rest;
      } else {
        assert Without(rows, a) == rest;
      }
    }
  }

  lemma {:induction false} WithoutKeepsIds(rows: seq<Row>, ids: set<nat>)
    requires DistinctIds(rows)
    ensures DistinctIds(Without(rows, ids))
  {
    if rows != [] {
      WithoutKeepsIds(rows[1..], ids);
      assert forall x :: x in rows[1..] ==> x.id != rows[0].id;
    }
  }

  lemma WithoutKeepsBound(rows: seq<Row>, ids: set<nat>, n: nat)
    requires IdsBelow(rows, n)
    ensures IdsBelow(Without(rows, ids), n)
  {
    var kept := Without(rows, ids);
    assert forall i :: 0 <= i < |kept| ==> kept[i] in rows;
  }

  // ---- the operator's retry ----

  lemma OneUpdated(rows: seq<Row>, r: Row, e: Edit, now: int)
    requires DistinctIds(rows) && r in rows && Applies(e, r)
    ensures forall x :: x in Updated(rows, {r.id}, e, now) <==> x == Edited(r, e, now) || (x in rows && x.id != r.id)
  {
    var after := Updated(rows, {r.id}, e, now);
    var j :| 0 <= j < |rows| && rows[j] == r;
    assert after[j] == Edited(r, e, now);
    forall x | x in rows && x.id != r.id ensures x in after {
      var i :| 0 <= i < |rows| && rows[i] == x;
      assert after[i] == x;
    }
    forall x | x in after ensures x == Edited(r, e, now) || (x in rows && x.id != r.id) {
      var i :| 0 <= i < |after| && after[i] == x;
    }
  }

  /** An operator's retry keeps the order of a lane exactly when no younger row of the lane is
      being sent. */
  lemma RetryKeepsOrderIff(rows: seq<Row>, r: Row, now: int)
    requires DistinctIds(rows) && SendingIsOldest(rows) && r in rows && Applies(Retry, r)
    ensures SendingIsOldest(Updated(rows, {r.id}, Retry, now)) <==>
            !exists s :: s in rows && s.status.Sending? && s.lane == r.lane && Older(r, s)
  {
    OneUpdated(rows, r, Retry, now);
  }

  /** What goes wrong otherwise: with no third row in the way, the retried row is due at once, and
      claiming it gives its lane two rows being sent. */
  lemma RetryBesideSender(rows: seq<Row>, r: Row, s: Row, now: int)
    requires DistinctIds(rows) && r in rows && Applies(Retry, r)
    requires s in rows && s.status.Sending? && s.lane == r.lane && Older(r, s)
    requires forall p :: p in rows && p.lane == r.lane && Active(p) ==> !Older(p, r)
    ensures var retried := Updated(rows, {r.id}, Retry, now);
            && Due(retried, now, Edited(r, Retry, now))
            && s in Updated(retried, {r.id}, Claim, now)
            && Edited(Edited(r, Retry, now), Claim, now) in Updated(retried, {r.id}, Claim, now)
  {
    OneUpdated(rows, r, Retry, now);
    var retried := Updated(rows, {r.id}, Retry, now);
    UpdatedKeepsIds(rows, {r.id}, Retry, now);
    OneUpdated(retried, Edited(r, Retry, now), Claim, now);
  }
}
