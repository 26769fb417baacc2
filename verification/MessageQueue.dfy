/** The message queue table (lib/msgqueue.py). Every statement is one atomic method; rows keep
    their place in the table, in the order of their ids. Times are in seconds. */
module MessageQueue {
  import opened Ordering

  type Shard = string
  type CallId = string

  const EXPIRED := "expired"

  datatype Channel = Handoff | HiveLine | CallLine | Line(name: string)
  datatype ChannelId = Zero | Chan(name: string)
  datatype MessageId = Plain(text: string) | EditOf(text: string) | ErrorFor(code: string, call: CallId, row: nat)

  datatype Status = Queued | InProgress | Complete | Crashed | Skipped

  /** The part of the `response` column that matters here: why a call row was refused. */
  datatype Outcome = Unset | Refused(code: string) | OtherOutcome

  datatype Row = Row(id: nat, agent: Shard, channel: Channel, channelId: ChannelId, isBot: bool, message: MessageId,
                     status: Status, outcome: Outcome, createdAt: int, notBefore: Option<int>, expiresAt: Option<int>,
                     call: Option<CallId>, replyTo: Option<Shard>, priority: int, claimedBy: Option<Shard>)

  /** A reply row is read by the waiting caller's tool call, never run as a turn. */
  predicate IsReply(r: Row) {
    r.call.Some? && r.replyTo.None?
  }

  predicate IsCall(r: Row) {
    r.call.Some? && r.replyTo.Some?
  }

  // ---- orders ----

  function ById(r: Row): Key {
    Key(r.id, 0, 0, 0)
  }

  function ByAge(r: Row): Key {
    Key(r.createdAt, r.id, 0, 0)
  }

  /** priority DESC, created_at, id. */
  function DispatchOrder(r: Row): Key {
    Key(-r.priority, r.createdAt, r.id, 0)
  }

  /** The same, but an ordinary automated row yields to the others of its priority. */
  function HeadOrder(r: Row): Key {
    Key(-r.priority, if r.call.None? && !r.channel.Handoff? && r.isBot then 1 else 0, r.createdAt, r.id)
  }

  predicate Earlier(a: Row, b: Row) {
    a.createdAt < b.createdAt || (a.createdAt == b.createdAt && a.id < b.id)
  }

  predicate DispatchedBefore(a: Row, b: Row) {
    a.priority > b.priority || (a.priority == b.priority && Earlier(a, b))
  }

  /** An ordinary row that no human wrote: a heartbeat or a poke of the system. */
  predicate Automated(r: Row) {
    r.isBot && r.call.None? && r.channel != Handoff
  }

  /** Priority first; then all calls, internal rows and human rows before the automated ones; then age. */
  predicate HeadsBefore(h: Row, x: Row) {
    || h.priority > x.priority
    || (h.priority == x.priority && !Automated(h) && Automated(x))
    || (h.priority == x.priority && Automated(h) == Automated(x) && Earlier(h, x))
  }

  lemma OrdersMean(a: Row, b: Row)
    ensures Less(ByAge(a), ByAge(b)) <==> Earlier(a, b)
    ensures Less(DispatchOrder(a), DispatchOrder(b)) <==> DispatchedBefore(a, b)
    ensures Less(HeadOrder(a), HeadOrder(b)) <==> HeadsBefore(a, b)
  {
  }

  ghost predicate DistinctIds(rows: seq<Row>) {
    forall i, j :: 0 <= i < j < |rows| ==> rows[i].id != rows[j].id
  }

  ghost predicate IdsBelow(rows: seq<Row>, n: nat) {
    forall i :: 0 <= i < |rows| ==> rows[i].id < n
  }

  lemma KeysDistinct(rows: seq<Row>)
    requires DistinctIds(rows)
    ensures DistinctKeys(rows, ById) && DistinctKeys(rows, ByAge)
    ensures DistinctKeys(rows, DispatchOrder) && DistinctKeys(rows, HeadOrder)
  {
  }

  lemma SameRow(rows: seq<Row>, r: Row)
    requires DistinctIds(rows) && r in rows
    ensures forall x :: x in rows && x.id == r.id ==> x == r
  {
  }

  // ---- what the statements select ----

  predicate Overdue(r: Row, shard: Shard, now: int) {
    r.agent == shard && r.status.Queued? && r.expiresAt.Some? && r.expiresAt.value < now
  }

  predicate Live(r: Row, now: int) {
    r.expiresAt.None? || r.expiresAt.value >= now
  }

  /** A queued row that a turn may be run for. */
  predicate Runnable(r: Row, shard: Shard) {
    r.agent == shard && r.status.Queued? && !IsReply(r)
  }

  /** Claimed alone, never merged into a batch. */
  predicate Alone(r: Row) {
    r.call.Some? || r.channel.Handoff?
  }

  predicate Ordinary(r: Row, shard: Shard, c: ChannelId) {
    r.agent == shard && r.status.Queued? && !Alone(r) && r.channelId == c
  }

  predicate Steerable(r: Row, shard: Shard, c: ChannelId) {
    && r.agent == shard && r.status.Queued? && r.call.None? && r.replyTo.None? && r.priority == 0
    && !r.message.EditOf? && !r.channel.Handoff? && r.channelId == c
  }

  predicate OpenCallTo(r: Row, shard: Shard) {
    r.agent == shard && r.status.Queued? && IsCall(r)
  }

  predicate StaleReply(r: Row, cutoff: int) {
    r.status.Queued? && IsReply(r) && r.createdAt <= cutoff
  }

  /** A row of a kind a thief may take. */
  predicate Stealable(r: Row, now: int) {
    && r.call.None? && r.replyTo.None? && !r.channel.HiveLine? && !r.channel.CallLine? && r.priority == 0
    && (r.notBefore.None? || r.notBefore.value <= now)
  }

  /** A row of the victim that may be stolen now: outside channel '0', only where the victim runs
      nothing and no earlier queued row of the channel has to stay. */
  predicate Eligible(rows: seq<Row>, victim: Shard, now: int, cutoff: int, m: Row) {
    && m.agent == victim && m.status.Queued? && Stealable(m, now) && m.createdAt <= cutoff
    && (m.channelId.Zero?
        || ((!exists p :: p in rows && p.agent == victim && p.channelId == m.channelId && p.status.InProgress?)
            && !exists e :: e in rows && e.agent == victim && e.channelId == m.channelId
                            && e.status.Queued? && Earlier(e, m)
                            && !(Stealable(e, now) && e.createdAt <= cutoff)))
  }

  function OverdueRows(rows: seq<Row>, shard: Shard, now: int): (r: seq<Row>)
    requires DistinctIds(rows)
    ensures Ascending(r, ById) && forall x :: x in r <==> x in rows && Overdue(x, shard, now)
  {
    KeysDistinct(rows);
    Select(rows, (x: Row) => Overdue(x, shard, now), ById)
  }

  function OpenCallRows(rows: seq<Row>, shard: Shard): (r: seq<Row>)
    requires DistinctIds(rows)
    ensures Ascending(r, ById) && forall x :: x in r <==> x in rows && OpenCallTo(x, shard)
  {
    KeysDistinct(rows);
    Select(rows, (x: Row) => OpenCallTo(x, shard), ById)
  }

  function HeadRows(rows: seq<Row>, shard: Shard): (r: seq<Row>)
    requires DistinctIds(rows)
    ensures Ascending(r, HeadOrder) && forall x :: x in r <==> x in rows && Runnable(x, shard)
  {
    KeysDistinct(rows);
    Select(rows, (x: Row) => Runnable(x, shard), HeadOrder)
  }

  function LiveHeadRows(rows: seq<Row>, shard: Shard, now: int): (r: seq<Row>)
    requires DistinctIds(rows)
    ensures Ascending(r, HeadOrder) && forall x :: x in r <==> x in rows && Runnable(x, shard) && Live(x, now)
  {
    KeysDistinct(rows);
    Select(rows, (x: Row) => Runnable(x, shard) && Live(x, now), HeadOrder)
  }

  function OrdinaryRows(rows: seq<Row>, shard: Shard, c: ChannelId): (r: seq<Row>)
    requires DistinctIds(rows)
    ensures Ascending(r, DispatchOrder) && forall x :: x in r <==> x in rows && Ordinary(x, shard, c)
  {
    KeysDistinct(rows);
    Select(rows, (x: Row) => Ordinary(x, shard, c), DispatchOrder)
  }

  function LiveOrdinaryRows(rows: seq<Row>, shard: Shard, c: ChannelId, now: int): (r: seq<Row>)
    requires DistinctIds(rows)
    ensures Ascending(r, DispatchOrder)
    ensures forall x :: x in r <==> x in rows && Ordinary(x, shard, c) && Live(x, now) && !IsReply(x)
  {
    KeysDistinct(rows);
    Select(rows, (x: Row) => Ordinary(x, shard, c) && Live(x, now) && !IsReply(x), DispatchOrder)
  }

  /** The row with this id, if it may still be claimed. */
  function ClaimableById(rows: seq<Row>, id: nat): (r: seq<Row>)
    requires DistinctIds(rows)
    ensures Ascending(r, ById)
    ensures forall x :: x in r <==> x in rows && x.id == id && x.status.Queued? && !IsReply(x)
  {
    KeysDistinct(rows);
    Select(rows, (x: Row) => x.id == id && x.status.Queued? && !IsReply(x), ById)
  }

  function RowsById(rows: seq<Row>, id: nat): (r: seq<Row>)
    requires DistinctIds(rows)
    ensures Ascending(r, ById) && forall x :: x in r <==> x in rows && x.id == id
  {
    KeysDistinct(rows);
    Select(rows, (x: Row) => x.id == id, ById)
  }

  function SteerableRows(rows: seq<Row>, shard: Shard, c: ChannelId): (r: seq<Row>)
    requires DistinctIds(rows)
    ensures Ascending(r, DispatchOrder) && forall x :: x in r <==> x in rows && Steerable(x, shard, c)
  {
    KeysDistinct(rows);
    Select(rows, (x: Row) => Steerable(x, shard, c), DispatchOrder)
  }

  function EligibleRows(rows: seq<Row>, victim: Shard, now: int, cutoff: int): (r: seq<Row>)
    requires DistinctIds(rows)
    ensures Ascending(r, ByAge) && forall x :: x in r <==> x in rows && Eligible(rows, victim, now, cutoff, x)
  {
    KeysDistinct(rows);
    Select(rows, (x: Row) => Eligible(rows, victim, now, cutoff, x), ByAge)
  }

  function EligibleRowsOf(rows: seq<Row>, victim: Shard, now: int, cutoff: int, c: ChannelId): (r: seq<Row>)
    requires DistinctIds(rows)
    ensures Ascending(r, ByAge)
    ensures forall x :: x in r <==> x in rows && Eligible(rows, victim, now, cutoff, x) && x.channelId == c
  {
    KeysDistinct(rows);
    Select(rows, (x: Row) => Eligible(rows, victim, now, cutoff, x) && x.channelId == c, ByAge)
  }

  /** The victim's queued rows of a stealable kind, old enough or not. */
  function StealableRows(rows: seq<Row>, victim: Shard, now: int): (r: seq<Row>)
    requires DistinctIds(rows)
    ensures Ascending(r, ByAge)
    ensures forall x :: x in r <==>
        x in rows && x.agent == victim && x.status.Queued? && Stealable(x, now) && Live(x, now)
  {
    KeysDistinct(rows);
    Select(rows, (x: Row) => x.agent == victim && x.status.Queued? && Stealable(x, now) && Live(x, now), ByAge)
  }

  function First(s: seq<Row>): (r: Option<Row>)
    ensures r.Some? <==> s != []
    ensures r.Some? ==> r.value in s
  {
    if s == [] then None else Some(s[0])
  }

  /** The rows the UPDATE of claim_batch takes, given the head read before it. */
  function BatchTargets(rows: seq<Row>, shard: Shard, head: Row, limit: int): seq<Row>
    requires DistinctIds(rows)
  {
    if Alone(head) then ClaimableById(rows, head.id) else Limit(OrdinaryRows(rows, shard, head.channelId), limit)
  }

  /** One channel per stolen batch: the first takeable row's. */
  function StealTargets(rows: seq<Row>, victim: Shard, now: int, cutoff: int, limit: int): seq<Row>
    requires DistinctIds(rows)
  {
    var all := EligibleRows(rows, victim, now, cutoff);
    if all == [] then [] else Limit(EligibleRowsOf(rows, victim, now, cutoff, all[0].channelId), limit)
  }

  /** Newest creation time, in whole seconds, of a row that is certainly `minAge` old. */
  function AgeCutoff(now: real, minAge: real): int {
    (now - minAge).Floor - 1
  }

  predicate SomeOldEnough(rows: seq<Row>, now: real, minAge: real) {
    exists r :: r in rows && r.createdAt <= AgeCutoff(now, minAge)
  }

  /** What the wait computed from the oldest stealable row means at any later time. */
  lemma StealWaitIsExact(rows: seq<Row>, victim: Shard, minAge: real, now: real, later: real)
    requires DistinctIds(rows) && StealableRows(rows, victim, now.Floor) != []
    ensures var kind := StealableRows(rows, victim, now.Floor);
            SomeOldEnough(kind, later, minAge) <==> later >= now + (kind[0].createdAt as real + 1.0 + minAge - now)
  {
    var kind := StealableRows(rows, victim, now.Floor);
    assert kind[0] in kind;
    forall r | r in kind ensures kind[0].createdAt <= r.createdAt {
      var i :| 0 <= i < |kind| && kind[i] == r;
    }
    var c := kind[0].createdAt;
    assert c as real + 1.0 <= later - minAge <==> c + 1 <= (later - minAge).Floor;
  }

  /** `head` is the first runnable row of the shard in head order, or there is none. */
  ghost predicate IsHead(rows: seq<Row>, shard: Shard, head: Option<Row>) {
    match head
    case None => forall x :: x in rows ==> !Runnable(x, shard)
    case Some(h) =>
      && h in rows && Runnable(h, shard)
      && forall x :: x in rows && Runnable(x, shard) && x != h ==> HeadsBefore(h, x)
  }

  lemma HeadIsFirst(rows: seq<Row>, shard: Shard, head: Option<Row>)
    requires DistinctIds(rows)
    ensures IsHead(rows, shard, head) <==> head == First(HeadRows(rows, shard))
  {
    var all := HeadRows(rows, shard);
    assert forall i :: 0 <= i < |all| ==> all[i] in all;
    forall x | x in rows && Runnable(x, shard)
      ensures all != [] && (x == all[0] || HeadsBefore(all[0], x))
    {
      assert x in all;
      var i :| 0 <= i < |all| && all[i] == x;
      OrdersMean(all[0], x);
    }
  }

  /** The callers a refusal notifies. */
  function Told(refused: seq<Row>): set<Shard> {
    set r | r in refused && IsCall(r) :: r.replyTo.value
  }

  // ---- the statements ----

  datatype Edit = Claim(claimer: Shard) | Requeue | Refuse(code: string) | Skip | End(crashed: bool) | Consume

  predicate Applies(e: Edit, r: Row) {
    match e
    case Requeue => r.status.InProgress?
    case End(_) => r.status.InProgress?
    case _ => r.status.Queued?
  }

  function Edited(r: Row, e: Edit): Row {
    match e
    case Claim(claimer) => r.(status := InProgress, claimedBy := Some(claimer))
    case Requeue => r.(status := Queued, claimedBy := None)
    case Refuse(code) => r.(status := Skipped, outcome := Refused(code))
    case Skip => r.(status := Skipped, outcome := OtherOutcome)
    case End(crashed) => r.(status := if crashed then Crashed else Complete, outcome := OtherOutcome)
    case Consume => r.(status := Complete)
  }

  /** UPDATE message_queue SET ... WHERE id IN `ids` AND the guard of `e`. */
  function Updated(rows: seq<Row>, ids: set<nat>, e: Edit): (r: seq<Row>)
    ensures |r| == |rows|
    ensures forall i :: 0 <= i < |rows| ==>
              r[i] == if rows[i].id in ids && Applies(e, rows[i]) then Edited(rows[i], e) else rows[i]
  {
    seq(|rows|, i requires 0 <= i < |rows| =>
      if rows[i].id in ids && Applies(e, rows[i]) then Edited(rows[i], e) else rows[i])
  }

  function Ids(rows: seq<Row>): set<nat> {
    set r | r in rows :: r.id
  }

  function StaleIds(rows: seq<Row>, cutoff: int): set<nat> {
    set r | r in rows && StaleReply(r, cutoff) :: r.id
  }

  function ReleasedIds(rows: seq<Row>, ids: set<nat>): set<nat> {
    set r | r in rows && r.id in ids && r.status.InProgress? :: r.id
  }

  /** What RETURNING gives for the claimed rows, in the order of `targets`. */
  function Claimed(targets: seq<Row>, claimer: Shard): (r: seq<Row>)
    ensures |r| == |targets| && forall i :: 0 <= i < |targets| ==> r[i] == Edited(targets[i], Claim(claimer))
  {
    seq(|targets|, i requires 0 <= i < |targets| => Edited(targets[i], Claim(claimer)))
  }

  datatype Table = Table(rows: seq<Row>, nextId: nat)

  predicate HasMessage(rows: seq<Row>, m: MessageId) {
    exists r :: r in rows && r.message == m
  }

  function ReplyRow(id: nat, r: Row, code: string, now: int): Row
    requires IsCall(r)
  {
    Row(id, r.replyTo.value, CallLine, Zero, true, ErrorFor(code, r.call.value, r.id), Queued, Unset, now, None, None,
        r.call, None, 0, None)
  }

  /** INSERT OR IGNORE of the error reply a refused call gets. */
  function AddReply(t: Table, r: Row, code: string, now: int): Table {
    if IsCall(r) && !HasMessage(t.rows, ErrorFor(code, r.call.value, r.id)) then
      Table(t.rows + [ReplyRow(t.nextId, r, code, now)], t.nextId + 1)
    else
      t
  }

  function AddReplies(t: Table, refused: seq<Row>, code: string, now: int): Table {
    if refused == [] then t
    else AddReply(AddReplies(t, refused[..|refused| - 1], code, now), refused[|refused| - 1], code, now)
  }

  /** Skips rows with a reason and answers the calls among them. */
  function AfterRefusal(t: Table, refused: seq<Row>, code: string, now: int): Table {
    AddReplies(Table(Updated(t.rows, Ids(refused), Refuse(code)), t.nextId), refused, code, now)
  }

  function AfterExpire(t: Table, shard: Shard, now: int): Table
    requires DistinctIds(t.rows)
  {
    AfterRefusal(t, OverdueRows(t.rows, shard, now), EXPIRED, now)
  }

  function AfterFailCalls(t: Table, shard: Shard, code: string, now: int): Table
    requires DistinctIds(t.rows)
  {
    AfterRefusal(t, OpenCallRows(t.rows, shard), code, now)
  }

  /** What an undisturbed claim_batch takes: the head and the batch as they are after expiry. */
  function NextBatch(t: Table, shard: Shard, limit: int, now: int): seq<Row>
    requires ValidTable(t)
  {
    AfterExpireValid(t, shard, now);
    FirstBatch(AfterExpire(t, shard, now).rows, shard, limit)
  }

  function FirstBatch(rows: seq<Row>, shard: Shard, limit: int): seq<Row>
    requires DistinctIds(rows)
  {
    var head := First(HeadRows(rows, shard));
    if head.None? then [] else BatchTargets(rows, shard, head.value, limit)
  }

  ghost predicate ValidTable(t: Table) {
    DistinctIds(t.rows) && IdsBelow(t.rows, t.nextId)
  }

  lemma UpdatedKeepsIds(rows: seq<Row>, ids: set<nat>, e: Edit)
    ensures var after := Updated(rows, ids, e);
            && (DistinctIds(rows) ==> DistinctIds(after))
            && forall n :: IdsBelow(rows, n) ==> IdsBelow(after, n)
  {
    var after := Updated(rows, ids, e);
    assert forall i :: 0 <= i < |rows| ==> after[i].id == rows[i].id;
  }

  lemma AddReplyValid(t: Table, r: Row, code: string, now: int)
    requires ValidTable(t)
    ensures ValidTable(AddReply(t, r, code, now))
  {
  }

  lemma {:induction false} AddRepliesValid(t: Table, refused: seq<Row>, code: string, now: int)
    requires ValidTable(t)
    ensures ValidTable(AddReplies(t, refused, code, now))
  {
    if refused != [] {
      AddRepliesValid(t, refused[..|refused| - 1], code, now);
      AddReplyValid(AddReplies(t, refused[..|refused| - 1], code, now), refused[|refused| - 1], code, now);
    }
  }

  lemma AfterRefusalValid(t: Table, refused: seq<Row>, code: string, now: int)
    requires ValidTable(t)
    ensures ValidTable(AfterRefusal(t, refused, code, now))
  {
    UpdatedKeepsIds(t.rows, Ids(refused), Refuse(code));
    AddRepliesValid(Table(Updated(t.rows, Ids(refused), Refuse(code)), t.nextId), refused, code, now);
  }

  lemma AfterExpireValid(t: Table, shard: Shard, now: int)
    requires ValidTable(t)
    ensures ValidTable(AfterExpire(t, shard, now))
  {
    AfterRefusalValid(t, OverdueRows(t.rows, shard, now), EXPIRED, now);
  }

  // ---- what the statements do, column by column ----

  /** `x` tells the caller of `q` that its call failed. */
  predicate TellsCaller(x: Row, q: Row, code: string, now: int) {
    && q.call.Some? && q.replyTo == Some(x.agent)
    && x.channel.CallLine? && x.channelId.Zero? && x.isBot && x.message == ErrorFor(code, q.call.value, q.id)
    && x.status.Queued? && x.outcome.Unset? && x.createdAt == now && x.notBefore.None? && x.expiresAt.None?
    && x.call == q.call && x.replyTo.None? && x.priority == 0 && x.claimedBy.None?
  }

  /** The rows with these ids are skipped with the reason, the others stay, and what is added answers
      a call among them; every call among them has its answer. */
  ghost predicate RefusedInPlace(was: seq<Row>, rows: seq<Row>, ids: set<nat>, code: string, now: int) {
    && |was| <= |rows|
    && (forall i :: 0 <= i < |was| ==>
          rows[i] == if was[i].id in ids then was[i].(status := Skipped, outcome := Refused(code)) else was[i])
    && (forall i :: |was| <= i < |rows| ==> exists q :: q in was && q.id in ids && TellsCaller(rows[i], q, code, now))
    && forall q :: q in was && q.id in ids && q.call.Some? && q.replyTo.Some? ==>
         exists x :: x in rows && x.message == ErrorFor(code, q.call.value, q.id)
  }

  /** The claimed rows were queued and are now in progress of the claimer, in place; the others stay. */
  ghost predicate ClaimedInPlace(was: seq<Row>, rows: seq<Row>, claimed: seq<Row>, claimer: Shard) {
    && |rows| == |was|
    && (forall c :: c in claimed ==>
          exists r :: r in was && r.status.Queued? && c == r.(status := InProgress, claimedBy := Some(claimer)))
    && forall i :: 0 <= i < |was| ==>
         rows[i] == if exists c :: c in claimed && c.id == was[i].id
                    then was[i].(status := InProgress, claimedBy := Some(claimer)) else was[i]
  }

  ghost predicate TellsOne(x: Row, refused: seq<Row>, code: string, now: int) {
    exists q :: q in refused && TellsCaller(x, q, code, now)
  }

  lemma TellsMore(x: Row, rest: seq<Row>, last: Row, refused: seq<Row>, code: string, now: int)
    requires last in refused && forall q :: q in rest ==> q in refused
    ensures TellsOne(x, rest, code, now) || TellsCaller(x, last, code, now) ==> TellsOne(x, refused, code, now)
  {
  }

  lemma {:induction false} RepliesAppended(t: Table, refused: seq<Row>, code: string, now: int)
    ensures t.rows <= AddReplies(t, refused, code, now).rows
    ensures var rows := AddReplies(t, refused, code, now).rows;
            && (forall i :: |t.rows| <= i < |rows| ==> TellsOne(rows[i], refused, code, now))
            && forall q :: q in refused && q.call.Some? && q.replyTo.Some? ==>
                 HasMessage(rows, ErrorFor(code, q.call.value, q.id))
  {
    if refused != [] {
      var rest, last := refused[..|refused| - 1], refused[|refused| - 1];
      RepliesAppended(t, rest, code, now);
      var before := AddReplies(t, rest, code, now);
      assert forall q :: q in refused <==> q in rest || q == last;
      ReplyAppended(before, last, code, now);
      var rows := AddReplies(t, refused, code, now).rows;
      forall i | |t.rows| <= i < |rows| ensures TellsOne(rows[i], refused, code, now) {
        TellsMore(rows[i], rest, last, refused, code, now);
        assert i < |before.rows| ==> rows[i] == before.rows[i];
      }
    }
  }

  lemma ReplyAppended(t: Table, q: Row, code: string, now: int)
    ensures var rows := AddReply(t, q, code, now).rows;
            && t.rows <= rows
            && (forall i :: |t.rows| <= i < |rows| ==> TellsCaller(rows[i], q, code, now))
            && (forall x :: x in t.rows ==> x in rows)
            && (q.call.Some? && q.replyTo.Some? ==> HasMessage(rows, ErrorFor(code, q.call.value, q.id)))
  {
    var rows := AddReply(t, q, code, now).rows;
    if |rows| > |t.rows| {
      assert rows[|t.rows|] in rows;
    }
  }

  lemma IdsPick(rows: seq<Row>, some: seq<Row>, r: Row)
    requires DistinctIds(rows) && r in rows && forall x :: x in some ==> x in rows
    ensures r.id in Ids(some) <==> r in some
  {
    if x :| x in some && x.id == r.id {
      SameRow(rows, r);
    }
  }

  lemma RefusalMeans(t: Table, refused: seq<Row>, code: string, now: int)
    requires ValidTable(t) && forall r :: r in refused ==> r in t.rows && r.status.Queued?
    ensures RefusedInPlace(t.rows, AfterRefusal(t, refused, code, now).rows, Ids(refused), code, now)
  {
    var skipped := Table(Updated(t.rows, Ids(refused), Refuse(code)), t.nextId);
    RepliesAppended(skipped, refused, code, now);
    var rows := AfterRefusal(t, refused, code, now).rows;
    forall r | r in t.rows ensures r.id in Ids(refused) <==> r in refused { IdsPick(t.rows, refused, r); }
    forall i | 0 <= i < |t.rows|
      ensures rows[i] == if t.rows[i].id in Ids(refused) then t.rows[i].(status := Skipped, outcome := Refused(code))
                         else t.rows[i]
    {
      assert t.rows[i] in t.rows;
      assert rows[i] == skipped.rows[i];
    }
  }

  function OverdueIds(rows: seq<Row>, shard: Shard, now: int): set<nat> {
    set r | r in rows && r.agent == shard && r.status == Queued && r.expiresAt.Some? && now > r.expiresAt.value :: r.id
  }

  function OpenCallIds(rows: seq<Row>, shard: Shard): set<nat> {
    set r | r in rows && r.agent == shard && r.status == Queued && r.call.Some? && r.replyTo.Some? :: r.id
  }

  lemma ExpireMeans(t: Table, shard: Shard, now: int)
    requires ValidTable(t)
    ensures RefusedInPlace(t.rows, AfterExpire(t, shard, now).rows, OverdueIds(t.rows, shard, now), EXPIRED, now)
  {
    var overdue := OverdueRows(t.rows, shard, now);
    RefusalMeans(t, overdue, EXPIRED, now);
    assert Ids(overdue) == OverdueIds(t.rows, shard, now);
  }

  lemma TakeMeans(rows: seq<Row>, targets: seq<Row>, claimer: Shard)
    requires DistinctIds(rows) && forall r :: r in targets ==> r in rows && r.status.Queued?
    ensures ClaimedInPlace(rows, Updated(rows, Ids(targets), Claim(claimer)), Claimed(targets, claimer), claimer)
  {
    var after, claimed := Updated(rows, Ids(targets), Claim(claimer)), Claimed(targets, claimer);
    forall c | c in claimed
      ensures exists r :: r in rows && r.status.Queued? && c == r.(status := InProgress, claimedBy := Some(claimer))
    {
      var i :| 0 <= i < |claimed| && claimed[i] == c;
      assert targets[i] in targets;
    }
    forall i | 0 <= i < |rows|
      ensures (exists c :: c in claimed && c.id == rows[i].id) <==> rows[i] in targets
    {
      ClaimedPick(rows, targets, claimer, rows[i]);
    }
    forall i | 0 <= i < |rows| ensures rows[i].id in Ids(targets) <==> rows[i] in targets {
      IdsPick(rows, targets, rows[i]);
    }
  }

  lemma ClaimedPick(rows: seq<Row>, targets: seq<Row>, claimer: Shard, r: Row)
    requires DistinctIds(rows) && r in rows && forall x :: x in targets ==> x in rows
    ensures (exists c :: c in Claimed(targets, claimer) && c.id == r.id) <==> r in targets
  {
    var claimed := Claimed(targets, claimer);
    if c :| c in claimed && c.id == r.id {
      var i :| 0 <= i < |claimed| && claimed[i] == c;
      assert targets[i] in targets;
      SameRow(rows, r);
    }
    if r in targets {
      var i :| 0 <= i < |targets| && targets[i] == r;
      assert claimed[i] in claimed;
    }
  }

  /** A queued row of the shard that is no reply. */
  predicate MayRun(r: Row, shard: Shard) {
    r.agent == shard && r.status == Queued && (r.call.Some? ==> r.replyTo.Some?)
  }

  /** No head exactly when nothing may run. A head has the highest priority; an automated head means
      that all rows of its priority are automated and none is older; before a head of another kind, no
      row of its priority that is not automated is older, whatever its channel and whether it is a
      call, an internal row or a human row. */
  ghost predicate RightHead(rows: seq<Row>, shard: Shard, head: Option<Row>) {
    match head
    case None => forall x :: x in rows ==> !MayRun(x, shard)
    case Some(h) =>
      && h in rows && MayRun(h, shard)
      && (forall x :: x in rows && MayRun(x, shard) ==> x.priority <= h.priority)
      && forall x :: x in rows && MayRun(x, shard) && x.priority == h.priority ==>
           if Automated(h) then Automated(x) && !Earlier(x, h) else Automated(x) || !Earlier(x, h)
  }

  /** The same, and it has not expired. */
  predicate CanRun(r: Row, shard: Shard, now: int) {
    && MayRun(r, shard)
    && (r.expiresAt.Some? ==> now <= r.expiresAt.value)
  }

  /** `batch` holds the first of `from` by priority and age, up to the limit. */
  ghost predicate FirstOf(batch: seq<Row>, from: set<Row>, limit: int) {
    && (0 <= limit ==> |batch| <= limit)
    && (forall r :: r in batch ==> r in from)
    && (forall i, j :: 0 <= i < j < |batch| ==> DispatchedBefore(batch[i], batch[j]))
    && forall x :: x in from && x !in batch ==> |batch| == limit && forall r :: r in batch ==> DispatchedBefore(r, x)
  }

  /** The row whose turn it is. */
  ghost predicate NextUp(rows: seq<Row>, shard: Shard, now: int, h: Row) {
    && h in rows && CanRun(h, shard, now)
    && forall x :: x in rows && CanRun(x, shard, now) && x != h ==> HeadsBefore(h, x)
  }

  function OrdinaryOf(rows: seq<Row>, shard: Shard, now: int, c: ChannelId): set<Row> {
    set r | r in rows && CanRun(r, shard, now) && r.call.None? && r.channel != Handoff && r.channelId == c
  }

  /** The rows of the next batch: none if nothing can run; a call or internal row whose turn it is, alone;
      else the first ordinary rows of the channel whose turn it is. */
  ghost predicate RightBatch(rows: seq<Row>, shard: Shard, limit: int, now: int, batch: seq<Row>) {
    || (batch == [] && forall x :: x in rows ==> !CanRun(x, shard, now))
    || exists h :: NextUp(rows, shard, now, h) &&
         if h.call.Some? || h.channel == Handoff then batch == [h]
         else FirstOf(batch, OrdinaryOf(rows, shard, now, h.channelId), limit)
  }

  /** The rows that may join the turn in flight. */
  function SteerableOf(rows: seq<Row>, shard: Shard, now: int, c: ChannelId): set<Row> {
    set r | r in rows && CanRun(r, shard, now) && r.call.None? && r.replyTo.None? && r.priority == 0
            && !r.message.EditOf? && r.channel != Handoff && r.channelId == c
  }

  lemma LimitIsFirst(all: seq<Row>, limit: int, from: set<Row>)
    requires Ascending(all, DispatchOrder) && forall x :: x in all <==> x in from
    ensures FirstOf(Limit(all, limit), from, limit)
  {
    var batch := Limit(all, limit);
    PrefixMembers(batch, all);
    forall i, j | 0 <= i < j < |batch| ensures DispatchedBefore(batch[i], batch[j]) {
      assert batch[i] == all[i] && batch[j] == all[j];
      OrdersMean(batch[i], batch[j]);
    }
    forall x, r | x in from && x !in batch && r in batch ensures DispatchedBefore(r, x) {
      LeftComesLater(all, batch, x);
    }
    forall x | x in from && x !in batch ensures |batch| == limit {
      LeftComesLater(all, batch, x);
    }
  }

  /** What an undisturbed claim takes is the right batch of the table before expiry. */
  lemma NextBatchMeans(t: Table, shard: Shard, limit: int, now: int)
    requires ValidTable(t)
    ensures RightBatch(t.rows, shard, limit, now, NextBatch(t, shard, limit, now))
  {
    AfterExpireValid(t, shard, now);
    var rows := AfterExpire(t, shard, now).rows;
    var head := First(HeadRows(rows, shard));
    forall x ensures x in rows && Runnable(x, shard) <==> x in t.rows && CanRun(x, shard, now) {
      ExpiryKeepsLive(t, shard, now, x);
    }
    HeadIsFirst(rows, shard, head);
    if head.Some? {
      var h := head.value;
      assert NextUp(t.rows, shard, now, h);
      if Alone(h) {
        OnlyRow(rows, h);
      } else {
        LimitIsFirst(OrdinaryRows(rows, shard, h.channelId), limit, OrdinaryOf(t.rows, shard, now, h.channelId));
      }
    }
  }

  lemma OnlyRow(rows: seq<Row>, h: Row)
    requires DistinctIds(rows) && h in rows && h.status.Queued? && !IsReply(h)
    ensures ClaimableById(rows, h.id) == [h]
  {
    SameRow(rows, h);
    AscendingUnique(ClaimableById(rows, h.id), [h], ById);
  }

  /** What is steered is the first of the live rows that may be. */
  lemma SteerMeans(t: Table, shard: Shard, c: ChannelId, limit: int, now: int)
    requires ValidTable(t)
    ensures ValidTable(AfterExpire(t, shard, now))
    ensures FirstOf(Limit(SteerableRows(AfterExpire(t, shard, now).rows, shard, c), limit),
                    SteerableOf(t.rows, shard, now, c), limit)
  {
    AfterExpireValid(t, shard, now);
    var rows := AfterExpire(t, shard, now).rows;
    forall x ensures x in rows && Steerable(x, shard, c) <==> x in SteerableOf(t.rows, shard, now, c) {
      ExpiryKeepsLive(t, shard, now, x);
    }
    LimitIsFirst(SteerableRows(rows, shard, c), limit, SteerableOf(t.rows, shard, now, c));
  }

  function LineOf(rows: seq<Row>, shard: Shard, c: ChannelId): set<Row> {
    set r | r in rows && MayRun(r, shard) && r.call.None? && r.channel != Handoff && r.channelId == c
  }

  /** The rows a claim takes for a head read before: the head itself if it is claimed alone and still
      may be, else the first ordinary rows of its channel. */
  ghost predicate BatchFor(rows: seq<Row>, shard: Shard, head: Row, limit: int, batch: seq<Row>) {
    if head.call.Some? || head.channel == Handoff then
      && |batch| <= 1
      && forall r :: r in batch <==>
           r in rows && r.id == head.id && MayRun(r, r.agent)
    else
      FirstOf(batch, LineOf(rows, shard, head.channelId), limit)
  }

  lemma BatchMeans(rows: seq<Row>, shard: Shard, head: Row, limit: int)
    requires DistinctIds(rows)
    ensures BatchFor(rows, shard, head, limit, BatchTargets(rows, shard, head, limit))
  {
    if Alone(head) {
      AtMostOne(ClaimableById(rows, head.id), head.id);
    } else {
      LimitIsFirst(OrdinaryRows(rows, shard, head.channelId), limit, LineOf(rows, shard, head.channelId));
    }
  }

  /** The claimed rows are the ones chosen, with their new status and owner. */
  ghost predicate Returned(claimed: seq<Row>, chosen: seq<Row>, claimer: Shard) {
    && |claimed| == |chosen|
    && forall i :: 0 <= i < |chosen| ==> claimed[i] == chosen[i].(status := InProgress, claimedBy := Some(claimer))
  }

  // ---- theft, in the words of its contract ----

  /** A plain row, not held any more. */
  predicate OfStealableKind(r: Row, now: real) {
    && r.call.None? && r.replyTo.None? && r.channel != HiveLine && r.channel != CallLine && r.priority == 0
    && (r.notBefore.Some? ==> r.notBefore.value as real <= now)
  }

  predicate WaitsForThief(r: Row, victim: Shard, now: real) {
    CanRun(r, victim, now.Floor) && OfStealableKind(r, now)
  }

  ghost predicate OldestForThief(rows: seq<Row>, victim: Shard, now: real, r: Row) {
    && r in rows && WaitsForThief(r, victim, now)
    && forall x :: x in rows && WaitsForThief(x, victim, now) ==> r.createdAt <= x.createdAt
  }

  /** A plain row, not held, and waiting long enough whenever in its second it came. */
  predicate Takeable(r: Row, now: real, minAge: real) {
    OfStealableKind(r, now) && r.createdAt as real + 1.0 + minAge <= now
  }

  lemma TakeableMeans(r: Row, now: real, minAge: real)
    ensures OfStealableKind(r, now) <==> Stealable(r, now.Floor)
    ensures Takeable(r, now, minAge) <==> Stealable(r, now.Floor) && r.createdAt <= AgeCutoff(now, minAge)
  {
    assert r.createdAt as real + 1.0 <= now - minAge <==> r.createdAt + 1 <= (now - minAge).Floor;
    assert r.notBefore.Some? ==> (r.notBefore.value as real <= now <==> r.notBefore.value <= now.Floor);
  }

  /** A thief may take `m`: it is takeable, and its conversation is not being run and all that waits in
      it before `m` is takeable too. Channel '0' is no conversation. */
  ghost predicate OpenToTheft(rows: seq<Row>, victim: Shard, now: real, minAge: real, m: Row) {
    && m in rows && m.agent == victim && m.status == Queued && Takeable(m, now, minAge)
    && (m.channelId != Zero ==> forall e :: e in rows && e.agent == victim && e.channelId == m.channelId ==>
          e.status != InProgress && (e.status == Queued && Earlier(e, m) ==> Takeable(e, now, minAge)))
  }

  lemma OpenToTheftMeans(rows: seq<Row>, victim: Shard, now: real, minAge: real, m: Row)
    ensures OpenToTheft(rows, victim, now, minAge, m) <==>
            m in rows && Eligible(rows, victim, now.Floor, AgeCutoff(now, minAge), m)
  {
    TakeableMeans(m, now, minAge);
    forall e ensures Takeable(e, now, minAge) <==> Stealable(e, now.Floor) && e.createdAt <= AgeCutoff(now, minAge) {
      TakeableMeans(e, now, minAge);
    }
  }

  ghost function OpenIn(rows: seq<Row>, victim: Shard, now: real, minAge: real, c: ChannelId): set<Row> {
    set r | r in rows && OpenToTheft(rows, victim, now, minAge, r) && r.channelId == c
  }

  /** The rows of a theft: the first ones of the conversation of the oldest row open to it. */
  ghost predicate RightTheft(rows: seq<Row>, victim: Shard, limit: int, minAge: real, now: real, stolen: seq<Row>) {
    || (stolen == [] && forall m :: !OpenToTheft(rows, victim, now, minAge, m))
    || exists h :: OpenToTheft(rows, victim, now, minAge, h)
         && (forall m :: OpenToTheft(rows, victim, now, minAge, m) && m != h ==> Earlier(h, m))
         && FirstOf(stolen, OpenIn(rows, victim, now, minAge, h.channelId), limit)
  }

  lemma StealMeans(rows: seq<Row>, victim: Shard, limit: int, minAge: real, now: real)
    requires DistinctIds(rows)
    ensures RightTheft(rows, victim, limit, minAge, now,
                       StealTargets(rows, victim, now.Floor, AgeCutoff(now, minAge), limit))
  {
    var cutoff := AgeCutoff(now, minAge);
    var all := EligibleRows(rows, victim, now.Floor, cutoff);
    forall m ensures OpenToTheft(rows, victim, now, minAge, m) <==> m in all {
      OpenToTheftMeans(rows, victim, now, minAge, m);
    }
    if all != [] {
      var h := all[0];
      assert h in all;
      forall m | m in all && m != h ensures Earlier(h, m) {
        var i :| 0 <= i < |all| && all[i] == m;
        OrdersMean(h, m);
      }
      var line := EligibleRowsOf(rows, victim, now.Floor, cutoff, h.channelId);
      PlainByAge(line);
      LimitIsFirst(line, limit, OpenIn(rows, victim, now, minAge, h.channelId));
    }
  }

  // ---- what the claims return ----

  ghost predicate ReturnsBatchFor(rows: seq<Row>, shard: Shard, head: Row, limit: int, claimed: seq<Row>) {
    exists chosen :: BatchFor(rows, shard, head, limit, chosen) && Returned(claimed, chosen, shard)
  }

  ghost predicate ReturnsBatch(rows: seq<Row>, shard: Shard, limit: int, now: int, claimed: seq<Row>) {
    exists chosen :: RightBatch(rows, shard, limit, now, chosen) && Returned(claimed, chosen, shard)
  }

  ghost predicate ReturnsFirst(from: set<Row>, limit: int, claimed: seq<Row>, claimer: Shard) {
    exists chosen :: FirstOf(chosen, from, limit) && Returned(claimed, chosen, claimer)
  }

  ghost predicate ReturnsTheft(rows: seq<Row>, victim: Shard, limit: int, minAge: real, now: real,
                               claimed: seq<Row>, thief: Shard) {
    exists chosen :: RightTheft(rows, victim, limit, minAge, now, chosen) && Returned(claimed, chosen, thief)
  }

  /** `c` is a row of the shard that waited, unexpired, and is now run by the claimer; nothing else about
      it has changed. */
  ghost predicate TakenFrom(rows: seq<Row>, c: Row, agent: Shard, now: int, claimer: Shard) {
    && c.status == InProgress && c.claimedBy == Some(claimer) && c.agent == agent
    && exists r :: r in rows && CanRun(r, agent, now) && c == r.(status := InProgress, claimedBy := Some(claimer))
  }

  lemma TakenRows(t: Table, agent: Shard, now: int, chosen: seq<Row>, claimer: Shard)
    requires ValidTable(t)
    requires forall r :: r in chosen ==> r in AfterExpire(t, agent, now).rows && Runnable(r, agent)
    ensures forall c :: c in Claimed(chosen, claimer) ==> TakenFrom(t.rows, c, agent, now, claimer)
  {
    var claimed := Claimed(chosen, claimer);
    forall c | c in claimed ensures TakenFrom(t.rows, c, agent, now, claimer) {
      var i :| 0 <= i < |claimed| && claimed[i] == c;
      assert chosen[i] in chosen;
      ExpiryKeepsLive(t, agent, now, chosen[i]);
    }
  }

  lemma ClaimForHeadMeans(rows: seq<Row>, shard: Shard, head: Row, limit: int)
    requires DistinctIds(rows)
    ensures var chosen := BatchTargets(rows, shard, head, limit);
            && ReturnsBatchFor(rows, shard, head, limit, Claimed(chosen, shard))
            && ClaimedInPlace(rows, Updated(rows, Ids(chosen), Claim(shard)), Claimed(chosen, shard), shard)
  {
    var chosen := BatchTargets(rows, shard, head, limit);
    BatchTargetsSpec(rows, shard, head, limit);
    BatchMeans(rows, shard, head, limit);
    assert Returned(Claimed(chosen, shard), chosen, shard);
    TakeMeans(rows, chosen, shard);
  }

  lemma ClaimBatchMeans(t: Table, shard: Shard, limit: int, now: int)
    requires ValidTable(t)
    ensures var chosen := NextBatch(t, shard, limit, now);
            var rows := AfterExpire(t, shard, now).rows;
            && ReturnsBatch(t.rows, shard, limit, now, Claimed(chosen, shard))
            && ClaimedInPlace(rows, Updated(rows, Ids(chosen), Claim(shard)), Claimed(chosen, shard), shard)
            && forall c :: c in Claimed(chosen, shard) ==> TakenFrom(t.rows, c, shard, now, shard)
  {
    var chosen := NextBatch(t, shard, limit, now);
    var rows := AfterExpire(t, shard, now).rows;
    AfterExpireValid(t, shard, now);
    NextBatchMeans(t, shard, limit, now);
    assert Returned(Claimed(chosen, shard), chosen, shard);
    BatchIsQueued(t, shard, limit, now);
    TakeMeans(rows, chosen, shard);
    TakenRows(t, shard, now, chosen, shard);
  }

  lemma BatchIsQueued(t: Table, shard: Shard, limit: int, now: int)
    requires ValidTable(t)
    ensures forall r :: r in NextBatch(t, shard, limit, now) ==>
              r in AfterExpire(t, shard, now).rows && Runnable(r, shard)
  {
    AfterExpireValid(t, shard, now);
    var rows := AfterExpire(t, shard, now).rows;
    var head := First(HeadRows(rows, shard));
    if head.Some? {
      BatchTargetsSpec(rows, shard, head.value, limit);
      SameRow(rows, head.value);
    }
  }

  lemma ClaimSteerableMeans(t: Table, shard: Shard, c: ChannelId, limit: int, now: int)
    requires ValidTable(t)
    ensures ValidTable(AfterExpire(t, shard, now))
    ensures var rows := AfterExpire(t, shard, now).rows;
            var chosen := Limit(SteerableRows(rows, shard, c), limit);
            && ReturnsFirst(SteerableOf(t.rows, shard, now, c), limit, Claimed(chosen, shard), shard)
            && ClaimedInPlace(rows, Updated(rows, Ids(chosen), Claim(shard)), Claimed(chosen, shard), shard)
            && forall x :: x in Claimed(chosen, shard) ==> TakenFrom(t.rows, x, shard, now, shard)
  {
    SteerMeans(t, shard, c, limit, now);
    var rows := AfterExpire(t, shard, now).rows;
    var chosen := Limit(SteerableRows(rows, shard, c), limit);
    PrefixMembers(chosen, SteerableRows(rows, shard, c));
    assert Returned(Claimed(chosen, shard), chosen, shard);
    TakeMeans(rows, chosen, shard);
    TakenRows(t, shard, now, chosen, shard);
  }

  lemma ClaimStolenMeans(t: Table, thief: Shard, victim: Shard, limit: int, minAge: real, now: real)
    requires ValidTable(t)
    ensures ValidTable(AfterExpire(t, victim, now.Floor))
    ensures var rows := AfterExpire(t, victim, now.Floor).rows;
            var chosen := StealTargets(rows, victim, now.Floor, AgeCutoff(now, minAge), limit);
            && ReturnsTheft(rows, victim, limit, minAge, now, Claimed(chosen, thief), thief)
            && ClaimedInPlace(rows, Updated(rows, Ids(chosen), Claim(thief)), Claimed(chosen, thief), thief)
            && forall c :: c in Claimed(chosen, thief) ==> TakenFrom(t.rows, c, victim, now.Floor, thief)
  {
    AfterExpireValid(t, victim, now.Floor);
    var rows := AfterExpire(t, victim, now.Floor).rows;
    var chosen := StealTargets(rows, victim, now.Floor, AgeCutoff(now, minAge), limit);
    StealTargetsSpec(rows, victim, now.Floor, AgeCutoff(now, minAge), limit);
    StealMeans(rows, victim, limit, minAge, now);
    assert Returned(Claimed(chosen, thief), chosen, thief);
    TakeMeans(rows, chosen, thief);
    TakenRows(t, victim, now.Floor, chosen, thief);
  }

  lemma PlainByAge(all: seq<Row>)
    requires Ascending(all, ByAge) && forall r :: r in all ==> r.priority == 0
    ensures Ascending(all, DispatchOrder)
  {
    assert forall i :: 0 <= i < |all| ==> all[i] in all;
  }

  class MessageQueue {
    var rows: seq<Row>
    var nextId: nat

    constructor ()
      ensures rows == [] && nextId == 0 && Valid()
    {
      rows, nextId := [], 0;
    }

    function Contents(): Table
      reads this
    {
      Table(rows, nextId)
    }

    ghost predicate Valid()
      reads this
    {
      ValidTable(Contents())
    }

    /** Skips `refused` with `code`, then inserts the error replies one by one. */
    method Refuse(refused: seq<Row>, code: string, now: int)
      requires Valid()
      modifies this
      ensures Valid() && Contents() == AfterRefusal(old(Contents()), refused, code, now)
    {
      AfterRefusalValid(Contents(), refused, code, now);
      rows := Updated(rows, Ids(refused), Edit.Refuse(code));
      ghost var skipped := Contents();
      for i := 0 to |refused|
        invariant Contents() == AddReplies(skipped, refused[..i], code, now)
      {
        assert refused[..i + 1][..i] == refused[..i];
        var r := refused[i];
        if r.call.Some? && r.replyTo.Some? {
          var m := ErrorFor(code, r.call.value, r.id);
          if !HasMessage(rows, m) {
            rows, nextId := rows + [ReplyRow(nextId, r, code, now)], nextId + 1;
          }
        }
      }
      assert refused[..|refused|] == refused;
    }

    /** Skips what is overdue; `told` are the shards notified, among them the reader of every reply
        that is inserted. */
    method Expire(shard: Shard, now: int) returns (n: nat, told: set<Shard>)
      requires Valid()
      modifies this
      ensures Valid() && Contents() == AfterExpire(old(Contents()), shard, now)
      ensures RefusedInPlace(old(rows), rows, OverdueIds(old(rows), shard, now), EXPIRED, now)
      ensures n == |OverdueRows(old(rows), shard, now)|
      ensures forall s :: s in told <==>
          exists r :: r in old(rows) && Overdue(r, shard, now) && IsCall(r) && r.replyTo == Some(s)
      ensures forall m :: m in rows && m.id >= old(nextId) ==> m.agent in told
    {
      var overdue := OverdueRows(rows, shard, now);
      NewRepliesTold(Contents(), overdue, EXPIRED, now);
      ExpireMeans(Contents(), shard, now);
      Refuse(overdue, EXPIRED, now);
      n, told := |overdue|, Told(overdue);
    }

    method FailCalls(shard: Shard, code: string, now: int) returns (n: nat, told: set<Shard>)
      requires Valid()
      modifies this
      ensures Valid() && Contents() == AfterFailCalls(old(Contents()), shard, code, now)
      ensures RefusedInPlace(old(rows), rows, OpenCallIds(old(rows), shard), code, now)
      ensures n == |OpenCallRows(old(rows), shard)|
      ensures forall s :: s in told <==> exists r :: r in old(rows) && OpenCallTo(r, shard) && r.replyTo == Some(s)
      ensures forall m :: m in rows && m.id >= old(nextId) ==> m.agent in told
    {
      var calls := OpenCallRows(rows, shard);
      NewRepliesTold(Contents(), calls, code, now);
      RefusalMeans(Contents(), calls, code, now);
      assert Ids(calls) == OpenCallIds(rows, shard);
      Refuse(calls, code, now);
      n, told := |calls|, Told(calls);
    }

    /** No head exactly when nothing is runnable; else the runnable row that all others come after.
        An automated head means that only automated ordinary rows share its priority. */
    method ReadHead(shard: Shard) returns (head: Option<Row>)
      requires Valid()
      ensures IsHead(rows, shard, head) && head == First(HeadRows(rows, shard))
      ensures RightHead(rows, shard, head)
    {
      head := First(HeadRows(rows, shard));
      HeadIsFirst(rows, shard, head);
    }

    /** UPDATE ... RETURNING: the targets become rows in progress of `claimer`. */
    method Take(targets: seq<Row>, claimer: Shard) returns (claimed: seq<Row>)
      requires Valid() && forall r :: r in targets ==> r in rows && r.status.Queued?
      modifies this`rows
      ensures Valid() && rows == Updated(old(rows), Ids(targets), Claim(claimer))
      ensures claimed == Claimed(targets, claimer) && forall c :: c in claimed ==> c in rows
    {
      UpdatedKeepsIds(rows, Ids(targets), Claim(claimer));
      ClaimedAreRows(rows, targets, claimer);
      rows := Updated(rows, Ids(targets), Claim(claimer));
      claimed := Claimed(targets, claimer);
    }

    /** The second half of claim_batch, for a head read before; other statements may have run since. */
    method ClaimForHead(shard: Shard, head: Row, limit: int) returns (claimed: seq<Row>)
      requires Valid()
      modifies this`rows
      ensures Valid()
      ensures var targets := BatchTargets(old(rows), shard, head, limit);
              claimed == Claimed(targets, shard) && rows == Updated(old(rows), Ids(targets), Claim(shard))
      ensures ClaimedInPlace(old(rows), rows, claimed, shard)
      ensures ReturnsBatchFor(old(rows), shard, head, limit, claimed)
      ensures forall c :: c in claimed ==> c.status == InProgress && c.claimedBy == Some(shard)
    {
      ClaimForHeadMeans(rows, shard, head, limit);
      BatchTargetsSpec(rows, shard, head, limit);
      claimed := Take(BatchTargets(rows, shard, head, limit), shard);
    }

    method ClaimBatch(shard: Shard, limit: int, now: int) returns (claimed: seq<Row>)
      requires Valid()
      modifies this
      ensures Valid()
      ensures var targets := NextBatch(old(Contents()), shard, limit, now);
              var t := AfterExpire(old(Contents()), shard, now);
              && claimed == Claimed(targets, shard)
              && rows == Updated(t.rows, Ids(targets), Claim(shard)) && nextId == t.nextId
      ensures ClaimedInPlace(AfterExpire(old(Contents()), shard, now).rows, rows, claimed, shard)
      ensures ReturnsBatch(old(rows), shard, limit, now, claimed)
      ensures forall c :: c in claimed ==> TakenFrom(old(rows), c, shard, now, shard)
    {
      ClaimBatchMeans(Contents(), shard, limit, now);
      var _, _ := Expire(shard, now);
      claimed := ClaimWaiting(shard, limit);
    }

    /** The head and its batch, with nothing in between. */
    method ClaimWaiting(shard: Shard, limit: int) returns (claimed: seq<Row>)
      requires Valid()
      modifies this`rows
      ensures Valid()
      ensures var targets := FirstBatch(old(rows), shard, limit);
              claimed == Claimed(targets, shard) && rows == Updated(old(rows), Ids(targets), Claim(shard))
    {
      var head := ReadHead(shard);
      if head.None? {
        NothingUpdated(rows, Claim(shard));
        return [];
      }
      claimed := ClaimForHead(shard, head.value, limit);
    }

    method ClaimSteerable(shard: Shard, c: ChannelId, limit: int, now: int) returns (claimed: seq<Row>)
      requires Valid()
      modifies this
      ensures Valid()
      ensures var t := AfterExpire(old(Contents()), shard, now);
              && DistinctIds(t.rows)
              && var targets := Limit(SteerableRows(t.rows, shard, c), limit);
                 && claimed == Claimed(targets, shard)
                 && rows == Updated(t.rows, Ids(targets), Claim(shard)) && nextId == t.nextId
      ensures ClaimedInPlace(AfterExpire(old(Contents()), shard, now).rows, rows, claimed, shard)
      ensures ReturnsFirst(SteerableOf(old(rows), shard, now, c), limit, claimed, shard)
      ensures forall x :: x in claimed ==> TakenFrom(old(rows), x, shard, now, shard)
    {
      ClaimSteerableMeans(Contents(), shard, c, limit, now);
      var _, _ := Expire(shard, now);
      var targets := Limit(SteerableRows(rows, shard, c), limit);
      PrefixMembers(targets, SteerableRows(rows, shard, c));
      claimed := Take(targets, shard);
    }

    method ClaimStolen(thief: Shard, victim: Shard, limit: int, minAge: real, now: real) returns (claimed: seq<Row>)
      requires Valid()
      modifies this
      ensures Valid()
      ensures var t := AfterExpire(old(Contents()), victim, now.Floor);
              && DistinctIds(t.rows)
              && var targets := StealTargets(t.rows, victim, now.Floor, AgeCutoff(now, minAge), limit);
                 && claimed == Claimed(targets, thief)
                 && rows == Updated(t.rows, Ids(targets), Claim(thief)) && nextId == t.nextId
      ensures ClaimedInPlace(AfterExpire(old(Contents()), victim, now.Floor).rows, rows, claimed, thief)
      ensures var waiting := AfterExpire(old(Contents()), victim, now.Floor).rows;
              ReturnsTheft(waiting, victim, limit, minAge, now, claimed, thief)
      ensures forall c :: c in claimed ==> TakenFrom(old(rows), c, victim, now.Floor, thief)
    {
      ClaimStolenMeans(Contents(), thief, victim, limit, minAge, now);
      var _, _ := Expire(victim, now.Floor);
      var targets := StealTargets(rows, victim, now.Floor, AgeCutoff(now, minAge), limit);
      StealTargetsSpec(rows, victim, now.Floor, AgeCutoff(now, minAge), limit);
      claimed := Take(targets, thief);
    }

    /** None without a stealable live row; otherwise the exact time until the first of them passes the
        age test: it has passed at a time if and only if the wait is over. */
    method StealWait(victim: Shard, minAge: real, now: real) returns (wait: Option<real>)
      requires Valid()
      ensures wait.None? <==> StealableRows(rows, victim, now.Floor) == []
      ensures wait.None? <==> forall r :: r in rows ==> !WaitsForThief(r, victim, now)
      ensures wait.Some? ==>
          exists r :: OldestForThief(rows, victim, now, r) && wait.value == r.createdAt as real + 1.0 + minAge - now
      ensures wait.Some? ==> forall later ::
                SomeOldEnough(StealableRows(rows, victim, now.Floor), later, minAge) <==> later >= now + wait.value
    {
      var kind := StealableRows(rows, victim, now.Floor);
      forall r | r in rows ensures WaitsForThief(r, victim, now) <==> r in kind {
        TakeableMeans(r, now, minAge);
      }
      if kind == [] {
        return None;
      }
      assert kind[0] in kind;
      forall x | x in kind ensures kind[0].createdAt <= x.createdAt {
        var i :| 0 <= i < |kind| && kind[i] == x;
      }
      assert OldestForThief(rows, victim, now, kind[0]);
      forall later { StealWaitIsExact(rows, victim, minAge, now, later); }
      return Some(kind[0].createdAt as real + 1.0 + minAge - now);
    }

    /** Claimed rows go back to the queue; rows no longer in progress stay as they are. */
    method Release(ids: set<nat>) returns (n: nat)
      requires Valid()
      modifies this`rows
      ensures Valid() && rows == Updated(old(rows), ids, Requeue)
      ensures |rows| == |old(rows)|
      ensures forall i :: 0 <= i < |rows| ==>
                rows[i] == if old(rows)[i].id in ids && old(rows)[i].status == InProgress
                           then old(rows)[i].(status := Queued, claimedBy := None) else old(rows)[i]
      ensures n == |ReleasedIds(old(rows), ids)|
    {
      UpdatedKeepsIds(rows, ids, Requeue);
      n := |ReleasedIds(rows, ids)|;
      rows := Updated(rows, ids, Requeue);
    }

    method ReapHiveRows(now: int, ttl: int) returns (n: nat)
      requires Valid()
      modifies this`rows
      ensures Valid() && rows == Updated(old(rows), StaleIds(old(rows), now - ttl), Skip)
      ensures |rows| == |old(rows)|
      ensures forall i :: 0 <= i < |rows| ==> var r := old(rows)[i];
                rows[i] == if r.status == Queued && r.call.Some? && r.replyTo.None? && r.createdAt + ttl <= now
                           then r.(status := Skipped, outcome := OtherOutcome) else r
      ensures n == |StaleIds(old(rows), now - ttl)|
    {
      var stale := StaleIds(rows, now - ttl);
      UpdatedKeepsIds(rows, stale, Skip);
      n := |stale|;
      forall i | 0 <= i < |rows| ensures rows[i].id in stale <==> StaleReply(rows[i], now - ttl) {
        assert rows[i] in rows;
        SameRow(rows, rows[i]);
      }
      rows := Updated(rows, stale, Skip);
    }

    /** The rows the next claim_batch would claim, found without claiming or expiring anything. */
    method PeekClaimable(shard: Shard, limit: int, now: int) returns (found: seq<Row>)
      requires Valid()
      ensures found == NextBatch(Contents(), shard, limit, now)
      ensures RightBatch(rows, shard, limit, now, found)
    {
      NextBatchMeans(Contents(), shard, limit, now);
      PeekAgrees(Contents(), shard, limit, now);
      var head := First(LiveHeadRows(rows, shard, now));
      if head.None? {
        return [];
      }
      if Alone(head.value) {
        return RowsById(rows, head.value.id);
      }
      return Limit(LiveOrdinaryRows(rows, shard, head.value.channelId, now), limit);
    }
  }

  lemma {:induction false} RepliesToTold(t: Table, refused: seq<Row>, code: string, now: int)
    ensures forall x :: x in AddReplies(t, refused, code, now).rows ==> x in t.rows || x.agent in Told(refused)
  {
    if refused != [] {
      var rest, last := refused[..|refused| - 1], refused[|refused| - 1];
      RepliesToTold(t, rest, code, now);
      assert forall r :: r in rest ==> r in refused;
      assert last in refused;
    }
  }

  lemma NewRepliesTold(t: Table, refused: seq<Row>, code: string, now: int)
    requires ValidTable(t)
    ensures forall x :: x in AfterRefusal(t, refused, code, now).rows && x.id >= t.nextId ==> x.agent in Told(refused)
  {
    var skipped := Updated(t.rows, Ids(refused), Refuse(code));
    UpdatedKeepsIds(t.rows, Ids(refused), Refuse(code));
    RepliesToTold(Table(skipped, t.nextId), refused, code, now);
    forall x | x in skipped ensures x.id < t.nextId {
      var i :| 0 <= i < |skipped| && skipped[i] == x;
    }
  }

  lemma PrefixMembers(a: seq<Row>, b: seq<Row>)
    requires a <= b
    ensures forall x :: x in a ==> x in b
  {
    assert forall i :: 0 <= i < |a| ==> a[i] == b[i] && b[i] in b;
  }

  lemma NothingUpdated(rows: seq<Row>, e: Edit)
    ensures Updated(rows, Ids([]), e) == rows
  {
    assert Ids([]) == {};
  }

  lemma ClaimedAreRows(rows: seq<Row>, targets: seq<Row>, claimer: Shard)
    requires forall r :: r in targets ==> r in rows && r.status.Queued?
    ensures forall c :: c in Claimed(targets, claimer) ==> c in Updated(rows, Ids(targets), Claim(claimer))
  {
    var claimed := Claimed(targets, claimer);
    forall c | c in claimed ensures c in Updated(rows, Ids(targets), Claim(claimer)) {
      var i :| 0 <= i < |claimed| && claimed[i] == c;
      assert targets[i] in targets;
      var j :| 0 <= j < |rows| && rows[j] == targets[i];
      assert Updated(rows, Ids(targets), Claim(claimer))[j] == c;
    }
  }

  lemma AtMostOne(s: seq<Row>, id: nat)
    requires Ascending(s, ById) && forall r :: r in s ==> r.id == id
    ensures |s| <= 1
  {
    assert forall i :: 0 <= i < |s| ==> s[i] in s;
    assert |s| > 1 ==> s[0].id < s[1].id;
  }

  /** What a batch holds: queued rows that are no replies; a call or internal row only alone;
      otherwise rows of the head's channel only, in dispatch order, and nothing of that channel is
      passed over for a later row. */
  lemma BatchTargetsSpec(rows: seq<Row>, shard: Shard, head: Row, limit: int)
    requires DistinctIds(rows)
    ensures var batch := BatchTargets(rows, shard, head, limit);
            && (forall r :: r in batch ==> r in rows && r.status.Queued? && !IsReply(r))
            && (Alone(head) ==> |batch| <= 1 && forall r :: r in batch ==> r.id == head.id)
            && (!Alone(head) ==>
                  && (forall r :: r in batch ==> !Alone(r) && r.agent == shard && r.channelId == head.channelId)
                  && Ascending(batch, DispatchOrder)
                  && forall x :: x in rows && Ordinary(x, shard, head.channelId) && x !in batch ==>
                       |batch| == limit && forall r :: r in batch ==> DispatchedBefore(r, x))
  {
    var batch := BatchTargets(rows, shard, head, limit);
    if Alone(head) {
      AtMostOne(batch, head.id);
    } else {
      var all := OrdinaryRows(rows, shard, head.channelId);
      PrefixMembers(batch, all);
      forall x | x in all && x !in batch
        ensures |batch| == limit && forall r :: r in batch ==> DispatchedBefore(r, x)
      {
        LeftComesLater(all, batch, x);
      }
    }
  }

  lemma LeftComesLater(all: seq<Row>, batch: seq<Row>, x: Row)
    requires Ascending(all, DispatchOrder) && batch <= all && x in all && x !in batch
    ensures |batch| < |all| && forall r :: r in batch ==> DispatchedBefore(r, x)
  {
    var j :| 0 <= j < |all| && all[j] == x;
    assert forall k :: 0 <= k < |batch| ==> batch[k] == all[k] && batch[k] in batch;
    assert j >= |batch|;
    forall r | r in batch ensures DispatchedBefore(r, x) {
      var i :| 0 <= i < |batch| && batch[i] == r;
      assert all[i] == r;
      OrdersMean(r, x);
    }
  }

  lemma StealTargetsSpec(rows: seq<Row>, victim: Shard, now: int, cutoff: int, limit: int)
    requires DistinctIds(rows)
    ensures var stolen := StealTargets(rows, victim, now, cutoff, limit);
            && (forall r :: r in stolen ==> r in rows && Eligible(rows, victim, now, cutoff, r))
            && (forall a, b :: a in stolen && b in stolen ==> a.channelId == b.channelId)
            && Ascending(stolen, ByAge)
  {
    var all := EligibleRows(rows, victim, now, cutoff);
    if all != [] {
      PrefixMembers(StealTargets(rows, victim, now, cutoff, limit),
                    EligibleRowsOf(rows, victim, now, cutoff, all[0].channelId));
    }
  }

  // ---- expiry seen from the queue of the same shard ----

  lemma {:induction false} RepliesAdded(t: Table, refused: seq<Row>, code: string, now: int)
    ensures forall x :: x in t.rows ==> x in AddReplies(t, refused, code, now).rows
    ensures forall x :: x in AddReplies(t, refused, code, now).rows ==> x in t.rows || IsReply(x)
  {
    if refused != [] {
      RepliesAdded(t, refused[..|refused| - 1], code, now);
    }
  }

  lemma QueuedUntouched(rows: seq<Row>, ids: set<nat>, code: string, x: Row)
    requires x in Updated(rows, ids, Refuse(code)) && x.status.Queued?
    ensures x in rows && x.id !in ids
  {
    var after := Updated(rows, ids, Refuse(code));
    var i :| 0 <= i < |after| && after[i] == x;
    assert rows[i] == x;
  }

  lemma ExpiredIsDead(t: Table, shard: Shard, now: int, x: Row)
    requires ValidTable(t) && Runnable(x, shard)
    requires x in Updated(t.rows, Ids(OverdueRows(t.rows, shard, now)), Refuse(EXPIRED))
    ensures x in t.rows && Live(x, now)
  {
    var overdue := OverdueRows(t.rows, shard, now);
    QueuedUntouched(t.rows, Ids(overdue), EXPIRED, x);
    assert x in overdue ==> x.id in Ids(overdue);
  }

  lemma LiveStays(t: Table, shard: Shard, now: int, x: Row)
    requires ValidTable(t) && x in t.rows && Runnable(x, shard) && Live(x, now)
    ensures x in Updated(t.rows, Ids(OverdueRows(t.rows, shard, now)), Refuse(EXPIRED))
  {
    var overdue := OverdueRows(t.rows, shard, now);
    SameRow(t.rows, x);
    assert x.id !in Ids(overdue);
    var i :| 0 <= i < |t.rows| && t.rows[i] == x;
    assert Updated(t.rows, Ids(overdue), Refuse(EXPIRED))[i] == x;
  }

  /** After expiry the runnable rows are the live ones from before, unchanged; the replies it
      inserts are not runnable even if they belong to the same shard. */
  lemma ExpiryKeepsLive(t: Table, shard: Shard, now: int, x: Row)
    requires ValidTable(t)
    ensures x in AfterExpire(t, shard, now).rows && Runnable(x, shard) <==>
        x in t.rows && Runnable(x, shard) && Live(x, now)
  {
    var overdue := OverdueRows(t.rows, shard, now);
    var skipped := Updated(t.rows, Ids(overdue), Refuse(EXPIRED));
    RepliesAdded(Table(skipped, t.nextId), overdue, EXPIRED, now);
    if x in skipped && Runnable(x, shard) {
      ExpiredIsDead(t, shard, now, x);
    }
    if x in t.rows && Runnable(x, shard) && Live(x, now) {
      LiveStays(t, shard, now, x);
    }
  }

  /** The read-only queries of peek_claimable select exactly what claim_batch selects after its
      expiry step, for every table, shard, limit and time. */
  lemma PeekAgrees(t: Table, shard: Shard, limit: int, now: int)
    requires ValidTable(t)
    ensures ValidTable(AfterExpire(t, shard, now))
    ensures var rows := AfterExpire(t, shard, now).rows;
            && LiveHeadRows(t.rows, shard, now) == HeadRows(rows, shard)
            && (forall c :: LiveOrdinaryRows(t.rows, shard, c, now) == OrdinaryRows(rows, shard, c))
            && forall head :: head in HeadRows(rows, shard) ==>
                RowsById(t.rows, head.id) == ClaimableById(rows, head.id)
  {
    AfterExpireValid(t, shard, now);
    var rows := AfterExpire(t, shard, now).rows;
    forall x { ExpiryKeepsLive(t, shard, now, x); }
    AscendingUnique(LiveHeadRows(t.rows, shard, now), HeadRows(rows, shard), HeadOrder);
    forall c ensures LiveOrdinaryRows(t.rows, shard, c, now) == OrdinaryRows(rows, shard, c) {
      AscendingUnique(LiveOrdinaryRows(t.rows, shard, c, now), OrdinaryRows(rows, shard, c), DispatchOrder);
    }
    forall head | head in HeadRows(rows, shard) ensures RowsById(t.rows, head.id) == ClaimableById(rows, head.id) {
      SameRow(t.rows, head);
      SameRow(rows, head);
      AscendingUnique(RowsById(t.rows, head.id), ClaimableById(rows, head.id), ById);
    }
  }
}
