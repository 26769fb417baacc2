/** The outbox, its senders (outbox_send_row in bin/agent-server.py) and Discord as one machine.
    A sender may lose its process or an answer after any POST. */
module OutboxDelivery {
  import opened Ordering
  import opened Outbox

  /** A message Discord shows; its id is its place on the wire. Its nonce is (`row`, `chunk`). */
  datatype Message = Message(lane: Lane, row: nat, chunk: nat)

  /** Where a sender is: about to POST a chunk, or holding the answer to one. */
  datatype Phase = Posting(chunk: nat) | Answered(chunk: nat, messageId: nat)

  datatype Delivery = Delivery(lane: Lane, row: nat, chunks: nat)

  datatype World = World(rows: seq<Row>, nextId: nat, clock: int, senders: map<nat, Phase>,
                         wire: seq<Message>, log: seq<Delivery>)

  datatype Step =
    | Enqueue(lane: Lane, chunks: nat, claimed: bool)
    | InsertDead(lane: Lane, chunks: nat, createdAt: int, attempts: nat)
    | ClaimRows(ids: set<nat>)
    | Post(row: Row, again: bool)       // `again`: a second message although the nonce is known
    | Record(row: Row)
    | Finish(row: Row)
    | Fail(row: Row, kind: Kind, retryAfter: Option<int>, jitter: int)
    | Abandon(id: nat)                  // the sender is gone, its row stays sending
    | Crash
    | RecoverAll                        // at start only
    | DiscardRow(row: Row)
    | RetryRow(row: Row)                // by an operator, and only where it keeps the lane in line
    | Purge(deliveredDays: nat, deadDays: nat)

  function Find(rows: seq<Row>, id: nat): (r: Option<Row>)
    ensures r.Some? ==> r.value in rows && r.value.id == id
    ensures r.None? ==> forall x :: x in rows ==> x.id != id
  {
    if rows == [] then None
    else if rows[0].id == id then Some(rows[0])
    else Find(rows[1..], id)
  }

  function FindNonce(wire: seq<Message>, row: nat, chunk: nat): (k: Option<nat>)
    ensures k.Some? ==> k.value < |wire| && wire[k.value].row == row && wire[k.value].chunk == chunk
    ensures k.None? ==> forall m :: m in wire ==> m.row != row || m.chunk != chunk
  {
    if wire == [] then None
    else
      var last := |wire| - 1;
      assert forall m :: m in wire ==> m == wire[last] || m in wire[..last];
      if wire[last].row == row && wire[last].chunk == chunk then Some(last) else FindNonce(wire[..last], row, chunk)
  }

  predicate HasSender(w: World, r: Row) {
    r in w.rows && r.id in w.senders
  }

  /** A row that may be put back without disturbing its lane: its creation time fits its place in the
      table, no message and no delivery of the lane is of a younger row, and no younger row of the
      lane is being sent. */
  ghost predicate InLine(w: World, now: int, r: Row) {
    && r.createdAt <= now
    && (forall a :: a in w.rows && Active(a) ==>
          && (a.id < r.id ==> a.createdAt <= r.createdAt)
          && (r.id < a.id ==> r.createdAt <= a.createdAt))
    && (forall m :: m in w.wire && m.lane == r.lane ==> m.row <= r.id)
    && (forall d :: d in w.log && d.lane == r.lane ==> d.row < r.id)
    && (forall s :: s in w.rows && s.status.Sending? && s.lane == r.lane ==> s.id < r.id)
  }

  ghost predicate Possible(w: World, now: int, s: Step) {
    && now >= w.clock
    && match s
       case ClaimRows(ids) => forall id :: id in ids ==> exists r :: r in w.rows && r.id == id && Due(w.rows, now, r)
       case Post(r, _) => HasSender(w, r) && w.senders[r.id].Posting? && w.senders[r.id].chunk < r.chunks
       case Record(r) => HasSender(w, r) && w.senders[r.id].Answered?
       case Finish(r) => HasSender(w, r) && w.senders[r.id].Posting? && 0 < r.chunks <= w.senders[r.id].chunk
       case Fail(r, _, _, jitter) => HasSender(w, r) && 900 <= jitter <= 1100
       case RecoverAll => w.senders == map[]
       case DiscardRow(r) => r in w.rows && Applies(Discard, r)
       case RetryRow(r) => r in w.rows && Applies(Retry, r) && InLine(w, now, r)
       case _ => true
  }

  /** Messages on the wire after a POST, and the message the answer names. */
  function Posted(wire: seq<Message>, r: Row, chunk: nat, again: bool): (seq<Message>, nat) {
    var known := FindNonce(wire, r.id, chunk);
    if known.Some? && !again then (wire, known.value) else (wire + [Message(r.lane, r.id, chunk)], |wire|)
  }

  function Started(w: World, ids: set<nat>): map<nat, Phase> {
    map id | id in w.senders.Keys + ids ::
      if id in ids then Posting(var r := Find(w.rows, id); if r.Some? then r.value.chunksDone else 0) else w.senders[id]
  }

  function Edit1(w: World, r: Row, e: Edit, now: int): seq<Row> {
    Updated(w.rows, {r.id}, e, now)
  }

  function After(p: Policy, w: World, now: int, s: Step): World
    requires Possible(w, now, s)
  {
    var w := w.(clock := now);
    match s
    case Enqueue(lane, chunks, claimed) =>
      var mine := claimed && !LaneBusy(w.rows, lane);
      w.(rows := w.rows + [NewRow(w.nextId, lane, chunks, if mine then Sending else Pending, now)],
         nextId := w.nextId + 1,
         senders := if mine then w.senders[w.nextId := Posting(0)] else w.senders)
    case InsertDead(lane, chunks, createdAt, attempts) =>
      w.(rows := w.rows + [DeadRow(w.nextId, lane, chunks, createdAt, attempts, now)], nextId := w.nextId + 1)
    case ClaimRows(ids) => w.(rows := Updated(w.rows, ids, Claim, now), senders := Started(w, ids))
    case Post(r, again) =>
      var chunk := w.senders[r.id].chunk;
      var (wire, messageId) := Posted(w.wire, r, chunk, again);
      w.(wire := wire, senders := w.senders[r.id := Answered(chunk, messageId)])
    case Record(r) =>
      w.(rows := Edit1(w, r, AddChunk(w.senders[r.id].messageId), now),
         senders := w.senders[r.id := Posting(w.senders[r.id].chunk + 1)])
    case Finish(r) =>
      w.(rows := Edit1(w, r, Deliver, now), senders := w.senders - {r.id},
         log := w.log + [Delivery(r.lane, r.id, r.chunks)])
    case Fail(r, kind, retryAfter, jitter) =>
      w.(rows := Edit1(w, r, Failure(p, r, kind, retryAfter, jitter, now), now), senders := w.senders - {r.id})
    case Abandon(id) => w.(senders := w.senders - {id})
    case Crash => w.(senders := map[])
    case RecoverAll => w.(rows := Updated(w.rows, SendingIds(w.rows), Recover, now))
    case DiscardRow(r) => w.(rows := Edit1(w, r, Discard, now))
    case RetryRow(r) => w.(rows := Edit1(w, r, Retry, now))
    case Purge(deliveredDays, deadDays) => w.(rows := Without(w.rows, PurgeIds(w.rows, now, deliveredDays, deadDays)))
  }

  // ---- what every step keeps ----

  ghost predicate IdsOk(rows: seq<Row>, n: nat) {
    DistinctIds(rows) && IdsBelow(rows, n)
  }

  ghost predicate OrderOk(rows: seq<Row>, clock: int) {
    && (forall r :: r in rows && Active(r) ==> r.createdAt <= clock)
    && (forall a, b :: a in rows && b in rows && Active(a) && Active(b) && a.id < b.id ==> a.createdAt <= b.createdAt)
    && SendingIsOldest(rows)
  }

  /** What was shown or delivered in a lane came from rows no younger than its active rows. */
  ghost predicate AheadOk(rows: seq<Row>, wire: seq<Message>, log: seq<Delivery>) {
    && (forall m, r :: m in wire && r in rows && Active(r) && m.lane == r.lane ==> m.row <= r.id)
    && (forall d, r :: d in log && r in rows && Active(r) && d.lane == r.lane ==> d.row < r.id)
  }

  ghost predicate WireOrdered(wire: seq<Message>) {
    forall i, j :: 0 <= i < j < |wire| && wire[i].lane == wire[j].lane ==>
      wire[i].row < wire[j].row || (wire[i].row == wire[j].row && wire[i].chunk <= wire[j].chunk)
  }

  predicate OnWire(wire: seq<Message>, row: nat, chunk: nat) {
    exists m :: m in wire && m.row == row && m.chunk == chunk
  }

  /** No chunk is shown unless all earlier chunks of its row are. */
  ghost predicate Gapless(wire: seq<Message>) {
    forall m, c: nat :: m in wire && c < m.chunk ==> OnWire(wire, m.row, c)
  }

  ghost predicate WireBelow(wire: seq<Message>, log: seq<Delivery>, n: nat) {
    (forall m :: m in wire ==> m.row < n) && forall d :: d in log ==> d.row < n
  }

  /** The accepted chunks of a row are 0 .. chunksDone - 1, or one more. */
  ghost predicate RowOk(wire: seq<Message>, r: Row) {
    && |r.messageIds| == r.chunksDone <= r.chunks
    && (forall k :: 0 <= k < r.chunksDone ==>
          r.messageIds[k] < |wire| && wire[r.messageIds[k]].row == r.id && wire[r.messageIds[k]].chunk == k)
    && (forall m :: m in wire && m.row == r.id ==> m.lane == r.lane && m.chunk <= r.chunksDone && m.chunk < r.chunks)
    && (r.status.Delivered? ==> r.chunksDone == r.chunks)
  }

  ghost predicate RowsOk(rows: seq<Row>, wire: seq<Message>) {
    forall r :: r in rows ==> RowOk(wire, r)
  }

  ghost predicate SenderOk(wire: seq<Message>, r: Row, ph: Phase) {
    && r.status.Sending? && ph.chunk == r.chunksDone
    && (ph.Answered? ==>
          && ph.chunk < r.chunks && ph.messageId < |wire|
          && wire[ph.messageId].row == r.id && wire[ph.messageId].chunk == ph.chunk)
  }

  ghost predicate SendersOk(rows: seq<Row>, senders: map<nat, Phase>, wire: seq<Message>) {
    forall id :: id in senders ==> exists r :: r in rows && r.id == id && SenderOk(wire, r, senders[id])
  }

  ghost predicate LogOk(wire: seq<Message>, log: seq<Delivery>) {
    && (forall i, j :: 0 <= i < j < |log| && log[i].lane == log[j].lane ==> log[i].row < log[j].row)
    && (forall d, c: nat :: d in log && c < d.chunks ==> OnWire(wire, d.row, c))
  }

  ghost predicate Inv(w: World) {
    && IdsOk(w.rows, w.nextId) && OrderOk(w.rows, w.clock) && AheadOk(w.rows, w.wire, w.log)
    && RowsOk(w.rows, w.wire) && SendersOk(w.rows, w.senders, w.wire)
    && WireOrdered(w.wire) && Gapless(w.wire) && WireBelow(w.wire, w.log, w.nextId) && LogOk(w.wire, w.log)
  }

  // ---- rows ----

  /** Every row left is a row from before, no more active and no more being sent than it was. */
  ghost predicate Settles(rows: seq<Row>, rows': seq<Row>) {
    forall x :: x in rows' ==> exists y :: y in rows && Fades(y, x)
  }

  predicate Fades(y: Row, x: Row) {
    && y.id == x.id && y.lane == x.lane && y.createdAt == x.createdAt
    && (Active(x) ==> Active(y)) && (x.status.Sending? ==> y.status.Sending?)
  }

  lemma SettlingKeepsOrder(rows: seq<Row>, rows': seq<Row>, clock: int, now: int)
    requires OrderOk(rows, clock) && Settles(rows, rows') && clock <= now
    ensures OrderOk(rows', now)
  {
    forall a, b | a in rows' && b in rows' && Active(a) && Active(b) && a.id < b.id ensures a.createdAt <= b.createdAt {
      var a0 :| a0 in rows && Fades(a0, a);
      var b0 :| b0 in rows && Fades(b0, b);
    }
    forall a, b | a in rows' && b in rows' && a.lane == b.lane && a.status.Sending? && Active(b) ensures !Older(b, a) {
      var a0 :| a0 in rows && Fades(a0, a);
      var b0 :| b0 in rows && Fades(b0, b);
    }
    forall a | a in rows' && Active(a) ensures a.createdAt <= now {
      var a0 :| a0 in rows && Fades(a0, a);
    }
  }

  lemma SettlingKeepsAhead(w: World, rows': seq<Row>)
    requires AheadOk(w.rows, w.wire, w.log) && Settles(w.rows, rows')
    ensures AheadOk(rows', w.wire, w.log)
  {
    forall r | r in rows' && Active(r)
      ensures exists y :: y in w.rows && Active(y) && y.id == r.id && y.lane == r.lane
    {
      var y :| y in w.rows && Fades(y, r);
    }
  }

  lemma EditSettles(rows: seq<Row>, ids: set<nat>, e: Edit, now: int)
    requires !e.Claim? && !e.Retry?
    ensures Settles(rows, Updated(rows, ids, e, now))
  {
    var after := Updated(rows, ids, e, now);
    forall x | x in after ensures exists y :: y in rows && Fades(y, x) {
      var i :| 0 <= i < |after| && after[i] == x;
      assert rows[i] in rows && Fades(rows[i], x);
    }
  }

  lemma WithoutSettles(rows: seq<Row>, ids: set<nat>)
    ensures Settles(rows, Without(rows, ids))
  {
    forall x | x in Without(rows, ids) ensures exists y :: y in rows && Fades(y, x) {
      assert Fades(x, x);
    }
  }

  lemma AppendKeepsIds(w: World, r: Row)
    requires IdsOk(w.rows, w.nextId) && r.id == w.nextId
    ensures IdsOk(w.rows + [r], w.nextId + 1)
  {
  }

  lemma AppendKeepsOrder(rows: seq<Row>, clock: int, now: int, r: Row, n: nat)
    requires OrderOk(rows, clock) && IdsBelow(rows, n) && r.id == n && clock <= now
    requires Active(r) ==> r.createdAt == now
    requires r.status.Sending? ==> !LaneBusy(rows, r.lane)
    ensures OrderOk(rows + [r], now)
  {
    var rows' := rows + [r];
    assert forall x :: x in rows' <==> x in rows || x == r;
    assert forall x :: x in rows ==> x.id < n;
  }

  lemma AppendKeepsAhead(w: World, r: Row)
    requires AheadOk(w.rows, w.wire, w.log) && WireBelow(w.wire, w.log, w.nextId) && r.id == w.nextId
    ensures AheadOk(w.rows + [r], w.wire, w.log)
  {
    assert forall x :: x in w.rows + [r] <==> x in w.rows || x == r;
  }

  lemma ClaimedRow(rows: seq<Row>, ids: set<nat>, now: int, x: Row) returns (y: Row)
    requires x in Updated(rows, ids, Claim, now)
    ensures y in rows && x == if y.id in ids && y.status.Pending? then Edited(y, Claim, now) else y
  {
    var after := Updated(rows, ids, Claim, now);
    var i :| 0 <= i < |after| && after[i] == x;
    y := rows[i];
  }

  lemma ClaimedIsOldest(rows: seq<Row>, now: int, a: Row, b: Row)
    requires DistinctIds(rows) && SendingIsOldest(rows) && a in rows && b in rows && a.lane == b.lane && Active(b)
    requires a.status.Sending? || exists r :: r in rows && r.id == a.id && Due(rows, now, r)
    ensures !Older(b, a)
  {
    if !a.status.Sending? {
      var r :| r in rows && r.id == a.id && Due(rows, now, r);
      SameRow(rows, r);
    }
  }

  /** Claiming keeps the order although it makes rows sending: a claimed row is the oldest active
      row of its lane. */
  lemma ClaimKeepsOrder(rows: seq<Row>, ids: set<nat>, clock: int, now: int)
    requires DistinctIds(rows) && OrderOk(rows, clock) && clock <= now
    requires forall id :: id in ids ==> exists r :: r in rows && r.id == id && Due(rows, now, r)
    ensures OrderOk(Updated(rows, ids, Claim, now), now)
  {
    var after := Updated(rows, ids, Claim, now);
    forall a, b | a in after && b in after && Active(a) && Active(b)
      ensures a.createdAt <= now && (a.id < b.id ==> a.createdAt <= b.createdAt)
      ensures a.lane == b.lane && a.status.Sending? ==> !Older(b, a)
    {
      var a0 := ClaimedRow(rows, ids, now, a);
      var b0 := ClaimedRow(rows, ids, now, b);
      if a.lane == b.lane && a.status.Sending? {
        ClaimedIsOldest(rows, now, a0, b0);
      }
    }
  }

  // ---- posting ----

  lemma WireGrowsOk(wire: seq<Message>, wire': seq<Message>, r: Row, ph: Phase)
    requires wire <= wire' && RowOk(wire, r)
    requires forall m :: m in wire' && m !in wire ==> m.row != r.id
    ensures RowOk(wire', r)
    ensures SenderOk(wire, r, ph) ==> SenderOk(wire', r, ph)
  {
  }

  lemma PostKeepsRow(wire: seq<Message>, r: Row, again: bool)
    requires RowOk(wire, r) && r.chunksDone < r.chunks
    ensures var (wire', id) := Posted(wire, r, r.chunksDone, again);
            && RowOk(wire', r) && id < |wire'| && wire'[id].row == r.id && wire'[id].chunk == r.chunksDone
            && wire <= wire' && forall m :: m in wire' ==> m in wire || m == Message(r.lane, r.id, r.chunksDone)
  {
  }

  lemma PostKeepsWire(w: World, r: Row, again: bool)
    requires Inv(w) && r in w.rows && r.status.Sending? && r.chunksDone < r.chunks
    ensures var wire' := Posted(w.wire, r, r.chunksDone, again).0;
            WireOrdered(wire') && Gapless(wire')
  {
    var wire' := Posted(w.wire, r, r.chunksDone, again).0;
    assert RowOk(w.wire, r);
    forall m, c: nat | m in wire' && c < m.chunk ensures OnWire(wire', m.row, c) {
      if m in w.wire {
        assert OnWire(w.wire, m.row, c);
        var m' :| m' in w.wire && m'.row == m.row && m'.chunk == c;
        assert m' in wire';
      } else {
        assert w.wire[r.messageIds[c]] in wire';
      }
    }
    forall i | 0 <= i < |w.wire| && w.wire[i].lane == r.lane
      ensures w.wire[i].row < r.id || (w.wire[i].row == r.id && w.wire[i].chunk <= r.chunksDone)
    {
      assert w.wire[i] in w.wire;
    }
  }

  // ---- one step ----

  lemma RowsFollow(w: World, w': World, r: Row, r': Row)
    requires RowsOk(w.rows, w.wire) && w'.wire == w.wire && RowOk(w.wire, r')
    requires forall x :: x in w'.rows ==> x == r' || x in w.rows
    ensures RowsOk(w'.rows, w'.wire)
  {
  }

  lemma SendersFollow(w: World, w': World, r: Row, r': Row)
    requires SendersOk(w.rows, w.senders, w.wire) && DistinctIds(w.rows) && r in w.rows && w'.wire == w.wire
    requires forall x :: x in w'.rows <==> x == r' || (x in w.rows && x.id != r.id)
    requires r'.id == r.id && (r.id in w'.senders ==> SenderOk(w.wire, r', w'.senders[r.id]))
    requires forall id :: id in w'.senders && id != r.id ==> id in w.senders && w'.senders[id] == w.senders[id]
    ensures SendersOk(w'.rows, w'.senders, w'.wire)
  {
    forall id | id in w'.senders ensures exists x :: x in w'.rows && x.id == id && SenderOk(w.wire, x, w'.senders[id]) {
      if id == r.id {
        assert r' in w'.rows;
      } else {
        var x :| x in w.rows && x.id == id && SenderOk(w.wire, x, w.senders[id]);
        assert x in w'.rows;
      }
    }
  }

  /** Steps that edit one row: recording a chunk, finishing, failing and discarding. */
  lemma EditKeepsInv(w: World, now: int, r: Row, e: Edit, senders: map<nat, Phase>)
    requires Inv(w) && now >= w.clock && r in w.rows && Applies(e, r) && !e.Claim? && !e.Retry?
    requires RowOk(w.wire, Edited(r, e, now))
    requires r.id in senders ==> SenderOk(w.wire, Edited(r, e, now), senders[r.id])
    requires forall id :: id in senders && id != r.id ==> id in w.senders && senders[id] == w.senders[id]
    ensures Inv(w.(clock := now, rows := Updated(w.rows, {r.id}, e, now), senders := senders))
  {
    var w' := w.(clock := now, rows := Updated(w.rows, {r.id}, e, now), senders := senders);
    UpdatedKeepsIds(w.rows, {r.id}, e, now);
    EditSettles(w.rows, {r.id}, e, now);
    SettlingKeepsOrder(w.rows, w'.rows, w.clock, now);
    SettlingKeepsAhead(w, w'.rows);
    OneUpdated(w.rows, r, e, now);
    RowsFollow(w, w', r, Edited(r, e, now));
    SendersFollow(w, w', r, Edited(r, e, now));
  }

  lemma SenderOf(w: World, r: Row)
    requires SendersOk(w.rows, w.senders, w.wire) && DistinctIds(w.rows) && HasSender(w, r)
    ensures SenderOk(w.wire, r, w.senders[r.id])
  {
    SameRow(w.rows, r);
  }

  lemma YoungerStays(w: World, r: Row, x: Row)
    requires OrderOk(w.rows, w.clock) && r in w.rows && r.status.Sending?
    requires x in w.rows && Active(x) && x.lane == r.lane
    ensures r.id <= x.id
  {
    assert !Older(x, r);
  }

  lemma LogGrows(w: World, r: Row)
    requires Inv(w) && r in w.rows && r.status.Sending? && r.chunksDone == r.chunks
    ensures var log := w.log + [Delivery(r.lane, r.id, r.chunks)];
            LogOk(w.wire, log) && WireBelow(w.wire, log, w.nextId)
  {
    var d := Delivery(r.lane, r.id, r.chunks);
    var log := w.log + [d];
    assert forall x :: x in log <==> x in w.log || x == d;
    DeliveredIsPosted(w, r);
    var k :| 0 <= k < |w.rows| && w.rows[k] == r;
    forall i | 0 <= i < |w.log| && w.log[i].lane == r.lane ensures w.log[i].row < r.id {
      assert w.log[i] in w.log;
    }
  }

  lemma DeliverKeepsInv(w: World, now: int, r: Row)
    requires Inv(w) && now >= w.clock && r in w.rows && r.status.Sending? && r.chunksDone == r.chunks
    ensures Inv(Finished(w, now, r))
  {
    assert RowOk(w.wire, r);
    EditKeepsInv(w, now, r, Deliver, w.senders - {r.id});
  }

  /** The last chunk was recorded: the row is delivered and the sender done. */
  function Finished(w: World, now: int, r: Row): World {
    w.(clock := now, rows := Updated(w.rows, {r.id}, Deliver, now), senders := w.senders - {r.id})
  }

  lemma FinishKeepsInv(w: World, now: int, r: Row)
    requires Inv(w) && now >= w.clock && r in w.rows && r.status.Sending? && r.chunksDone == r.chunks
    ensures Inv(Finished(w, now, r).(log := w.log + [Delivery(r.lane, r.id, r.chunks)]))
  {
    DeliverKeepsInv(w, now, r);
    OneUpdated(w.rows, r, Deliver, now);
    LogDelivery(w, Finished(w, now, r), r);
  }

  lemma LogDelivery(w: World, w1: World, r: Row)
    requires Inv(w) && Inv(w1) && r in w.rows && r.status.Sending? && r.chunksDone == r.chunks
    requires w1.wire == w.wire && w1.log == w.log && w1.nextId == w.nextId
    requires forall x :: x in w1.rows && Active(x) ==> x in w.rows && x.id != r.id
    ensures Inv(w1.(log := w.log + [Delivery(r.lane, r.id, r.chunks)]))
  {
    LogGrows(w, r);
    FinishKeepsAhead(w, w1.rows, r);
  }

  lemma FinishKeepsAhead(w: World, rows: seq<Row>, r: Row)
    requires Inv(w) && r in w.rows && r.status.Sending?
    requires AheadOk(rows, w.wire, w.log)
    requires forall x :: x in rows && Active(x) ==> x in w.rows && x.id != r.id
    ensures AheadOk(rows, w.wire, w.log + [Delivery(r.lane, r.id, r.chunks)])
  {
    forall x | x in rows && Active(x) && x.lane == r.lane ensures r.id < x.id {
      YoungerStays(w, r, x);
    }
  }

  lemma DeliveredIsPosted(w: World, r: Row)
    requires RowOk(w.wire, r) && r.chunksDone == r.chunks
    ensures forall c: nat :: c < r.chunks ==> OnWire(w.wire, r.id, c)
  {
    forall c: nat | c < r.chunks ensures OnWire(w.wire, r.id, c) {
      assert w.wire[r.messageIds[c]] in w.wire;
    }
  }

  lemma PostKeepsRows(rows: seq<Row>, wire: seq<Message>, r: Row, again: bool)
    requires DistinctIds(rows) && RowsOk(rows, wire) && r in rows && r.chunksDone < r.chunks
    ensures RowsOk(rows, Posted(wire, r, r.chunksDone, again).0)
  {
    PostKeepsRow(wire, r, again);
    SameRow(rows, r);
    var wire' := Posted(wire, r, r.chunksDone, again).0;
    forall x | x in rows && x.id != r.id ensures RowOk(wire', x) {
      WireGrowsOk(wire, wire', x, Posting(0));
    }
  }

  lemma PostKeepsSenders(rows: seq<Row>, senders: map<nat, Phase>, wire: seq<Message>, r: Row, again: bool)
    requires DistinctIds(rows) && RowsOk(rows, wire) && SendersOk(rows, senders, wire)
    requires r in rows && r.status.Sending? && r.chunksDone < r.chunks
    ensures var (wire', id) := Posted(wire, r, r.chunksDone, again);
            SendersOk(rows, senders[r.id := Answered(r.chunksDone, id)], wire')
  {
    PostKeepsRow(wire, r, again);
    var (wire', id) := Posted(wire, r, r.chunksDone, again);
    assert SenderOk(wire', r, Answered(r.chunksDone, id));
    forall k | k in senders && k != r.id ensures exists x :: x in rows && x.id == k && SenderOk(wire', x, senders[k]) {
      var x :| x in rows && x.id == k && SenderOk(wire, x, senders[k]);
      WireGrowsOk(wire, wire', x, senders[k]);
    }
  }

  lemma PostKeepsInv(p: Policy, w: World, now: int, r: Row, again: bool)
    requires Inv(w) && Possible(w, now, Post(r, again))
    ensures Inv(After(p, w, now, Post(r, again)))
  {
    SenderOf(w, r);
    PostKeepsRow(w.wire, r, again);
    PostKeepsRows(w.rows, w.wire, r, again);
    PostKeepsSenders(w.rows, w.senders, w.wire, r, again);
    PostKeepsWire(w, r, again);
    PostKeepsAhead(w, After(p, w, now, Post(r, again)), r);
  }

  lemma PostKeepsAhead(w: World, w': World, r: Row)
    requires Inv(w) && r in w.rows && r.status.Sending? && w.wire <= w'.wire
    requires w'.rows == w.rows && w'.log == w.log && w'.nextId == w.nextId
    requires forall m :: m in w'.wire ==> m in w.wire || m == Message(r.lane, r.id, r.chunksDone)
    ensures AheadOk(w'.rows, w'.wire, w'.log) && WireBelow(w'.wire, w'.log, w'.nextId) && LogOk(w'.wire, w'.log)
  {
    var i :| 0 <= i < |w.rows| && w.rows[i] == r;
    forall x | x in w.rows && Active(x) && x.lane == r.lane ensures r.id <= x.id {
      YoungerStays(w, r, x);
    }
    forall d, c: nat | d in w.log && c < d.chunks ensures OnWire(w'.wire, d.row, c) {
      assert OnWire(w.wire, d.row, c);
      var m :| m in w.wire && m.row == d.row && m.chunk == c;
      assert m in w'.wire;
    }
  }

  lemma AppendKeepsRows(w: World, r: Row)
    requires RowsOk(w.rows, w.wire) && WireBelow(w.wire, w.log, w.nextId)
    requires r.id == w.nextId && r.chunksDone == 0 && r.messageIds == [] && !r.status.Delivered?
    ensures RowsOk(w.rows + [r], w.wire)
  {
    assert forall x :: x in w.rows + [r] <==> x in w.rows || x == r;
    assert RowOk(w.wire, r);
  }

  lemma AppendKeepsSenders(w: World, r: Row, senders: map<nat, Phase>)
    requires SendersOk(w.rows, w.senders, w.wire)
    requires senders == w.senders || (senders == w.senders[r.id := Posting(0)] && SenderOk(w.wire, r, Posting(0)))
    ensures SendersOk(w.rows + [r], senders, w.wire)
  {
    var rows := w.rows + [r];
    assert forall x :: x in rows <==> x in w.rows || x == r;
    forall id | id in senders ensures exists x :: x in rows && x.id == id && SenderOk(w.wire, x, senders[id]) {
      if id == r.id && senders != w.senders {
        assert r in rows;
      } else {
        var x :| x in w.rows && x.id == id && SenderOk(w.wire, x, w.senders[id]);
        assert x in rows;
      }
    }
  }

  lemma EnqueueKeepsInv(p: Policy, w: World, now: int, s: Step)
    requires Inv(w) && Possible(w, now, s) && (s.Enqueue? || s.InsertDead?)
    ensures Inv(After(p, w, now, s))
  {
    var w' := After(p, w, now, s);
    var r := w'.rows[|w.rows|];
    assert w'.rows == w.rows + [r];
    AppendKeepsIds(w, r);
    AppendKeepsOrder(w.rows, w.clock, now, r, w.nextId);
    AppendKeepsAhead(w, r);
    AppendKeepsRows(w, r);
    AppendKeepsSenders(w, r, w'.senders);
  }

  lemma BulkKeepsRows(w: World, ids: set<nat>, e: Edit, now: int)
    requires RowsOk(w.rows, w.wire) && (e.Claim? || e.Recover?)
    ensures RowsOk(Updated(w.rows, ids, e, now), w.wire)
  {
    var after := Updated(w.rows, ids, e, now);
    forall x | x in after ensures RowOk(w.wire, x) {
      var i :| 0 <= i < |after| && after[i] == x;
      assert RowOk(w.wire, w.rows[i]);
    }
  }

  lemma BulkRow(rows: seq<Row>, ids: set<nat>, e: Edit, now: int, r: Row)
    requires r in rows
    ensures (if r.id in ids && Applies(e, r) then Edited(r, e, now) else r) in Updated(rows, ids, e, now)
  {
    var i :| 0 <= i < |rows| && rows[i] == r;
    assert Updated(rows, ids, e, now)[i] in Updated(rows, ids, e, now);
  }

  lemma ClaimKeepsInv(p: Policy, w: World, now: int, ids: set<nat>)
    requires Inv(w) && Possible(w, now, ClaimRows(ids))
    ensures Inv(After(p, w, now, ClaimRows(ids)))
  {
    var w' := After(p, w, now, ClaimRows(ids));
    UpdatedKeepsIds(w.rows, ids, Claim, now);
    ClaimKeepsOrder(w.rows, ids, w.clock, now);
    BulkKeepsRows(w, ids, Claim, now);
    forall x | x in w'.rows && Active(x)
      ensures exists y :: y in w.rows && Active(y) && y.id == x.id && y.lane == x.lane
    {
      var y := ClaimedRow(w.rows, ids, now, x);
    }
    forall id | id in w'.senders
      ensures exists x :: x in w'.rows && x.id == id && SenderOk(w'.wire, x, w'.senders[id])
    {
      ClaimedSender(w, now, ids, id);
    }
  }

  lemma ClaimedSender(w: World, now: int, ids: set<nat>, id: nat)
    requires Inv(w) && Possible(w, now, ClaimRows(ids)) && id in Started(w, ids)
    ensures exists x :: x in Updated(w.rows, ids, Claim, now) && x.id == id && SenderOk(w.wire, x, Started(w, ids)[id])
  {
    if id in ids {
      var r :| r in w.rows && r.id == id && Due(w.rows, now, r);
      SameRow(w.rows, r);
      BulkRow(w.rows, ids, Claim, now, r);
      assert SenderOk(w.wire, Edited(r, Claim, now), Posting(r.chunksDone));
    } else {
      var x :| x in w.rows && x.id == id && SenderOk(w.wire, x, w.senders[id]);
      BulkRow(w.rows, ids, Claim, now, x);
    }
  }

  lemma RecoverKeepsInv(p: Policy, w: World, now: int)
    requires Inv(w) && Possible(w, now, RecoverAll)
    ensures Inv(After(p, w, now, RecoverAll))
  {
    var ids := SendingIds(w.rows);
    UpdatedKeepsIds(w.rows, ids, Recover, now);
    EditSettles(w.rows, ids, Recover, now);
    SettlingKeepsOrder(w.rows, Updated(w.rows, ids, Recover, now), w.clock, now);
    SettlingKeepsAhead(w, Updated(w.rows, ids, Recover, now));
    BulkKeepsRows(w, ids, Recover, now);
  }

  lemma PurgeKeepsInv(p: Policy, w: World, now: int, deliveredDays: nat, deadDays: nat)
    requires Inv(w) && Possible(w, now, Purge(deliveredDays, deadDays))
    ensures Inv(After(p, w, now, Purge(deliveredDays, deadDays)))
  {
    var ids := PurgeIds(w.rows, now, deliveredDays, deadDays);
    var w' := After(p, w, now, Purge(deliveredDays, deadDays));
    WithoutKeepsIds(w.rows, ids);
    WithoutKeepsBound(w.rows, ids, w.nextId);
    WithoutSettles(w.rows, ids);
    SettlingKeepsOrder(w.rows, w'.rows, w.clock, now);
    SettlingKeepsAhead(w, w'.rows);
    PurgeKeepsSenders(w, ids);
  }

  lemma PurgeKeepsSenders(w: World, ids: set<nat>)
    requires SendersOk(w.rows, w.senders, w.wire) && DistinctIds(w.rows)
    requires forall id :: id in ids ==> exists x :: x in w.rows && x.id == id && !x.status.Sending?
    ensures SendersOk(Without(w.rows, ids), w.senders, w.wire)
  {
    forall id | id in w.senders
      ensures exists x :: x in Without(w.rows, ids) && x.id == id && SenderOk(w.wire, x, w.senders[id])
    {
      var x :| x in w.rows && x.id == id && SenderOk(w.wire, x, w.senders[id]);
      SameRow(w.rows, x);
      assert x in Without(w.rows, ids);
    }
  }

  lemma RecordedRow(wire: seq<Message>, r: Row, messageId: nat, now: int)
    requires RowOk(wire, r) && SenderOk(wire, r, Answered(r.chunksDone, messageId))
    ensures var x := Edited(r, AddChunk(messageId), now);
            RowOk(wire, x) && SenderOk(wire, x, Posting(r.chunksDone + 1))
  {
    var x := Edited(r, AddChunk(messageId), now);
    assert forall k :: 0 <= k < r.chunksDone ==> x.messageIds[k] == r.messageIds[k];
    assert x.messageIds[r.chunksDone] == messageId;
  }

  /** The world with the answer to a POST recorded: one more chunk done. */
  function Recorded(w: World, now: int, r: Row, messageId: nat): World {
    w.(clock := now, rows := Updated(w.rows, {r.id}, AddChunk(messageId), now),
       senders := w.senders[r.id := Posting(r.chunksDone + 1)])
  }

  lemma RecordKeepsInv(w: World, now: int, r: Row, messageId: nat)
    requires Inv(w) && now >= w.clock && r in w.rows
    requires RowOk(w.wire, r) && SenderOk(w.wire, r, Answered(r.chunksDone, messageId))
    ensures Inv(Recorded(w, now, r, messageId))
  {
    RecordedRow(w.wire, r, messageId, now);
    EditKeepsInv(w, now, r, AddChunk(messageId), w.senders[r.id := Posting(r.chunksDone + 1)]);
  }

  lemma RecordStep(p: Policy, w: World, now: int, r: Row)
    requires Inv(w) && Possible(w, now, Record(r))
    ensures Inv(After(p, w, now, Record(r)))
  {
    SenderOf(w, r);
    var messageId := w.senders[r.id].messageId;
    assert RowOk(w.wire, r) && w.senders[r.id] == Answered(r.chunksDone, messageId);
    assert After(p, w, now, Record(r)) == Recorded(w, now, r, messageId);
    RecordKeepsInv(w, now, r, messageId);
  }

  lemma FinishStep(p: Policy, w: World, now: int, r: Row)
    requires Inv(w) && Possible(w, now, Finish(r))
    ensures Inv(After(p, w, now, Finish(r)))
  {
    SenderOf(w, r);
    assert RowOk(w.wire, r) && r.chunksDone == r.chunks;
    assert After(p, w, now, Finish(r)) == Finished(w, now, r).(log := w.log + [Delivery(r.lane, r.id, r.chunks)]);
    FinishKeepsInv(w, now, r);
  }

  lemma FailKeepsInv(p: Policy, w: World, now: int, s: Step)
    requires Inv(w) && Possible(w, now, s) && s.Fail?
    ensures Inv(After(p, w, now, s))
  {
    SenderOf(w, s.row);
    assert RowOk(w.wire, s.row);
    EditKeepsInv(w, now, s.row, Failure(p, s.row, s.kind, s.retryAfter, s.jitter, now), w.senders - {s.row.id});
  }

  lemma DiscardKeepsInv(p: Policy, w: World, now: int, r: Row)
    requires Inv(w) && Possible(w, now, DiscardRow(r))
    ensures Inv(After(p, w, now, DiscardRow(r)))
  {
    assert RowOk(w.wire, r);
    SameRow(w.rows, r);
    assert r.id !in w.senders;
    EditKeepsInv(w, now, r, Discard, w.senders);
  }

  /** The rows as an operator's retry leaves them. */
  function Retried(w: World, now: int, r: Row): World {
    w.(clock := now, rows := Updated(w.rows, {r.id}, Retry, now))
  }

  lemma RetryKeepsOrder(w: World, now: int, r: Row)
    requires Inv(w) && now >= w.clock && r in w.rows && Applies(Retry, r) && InLine(w, now, r)
    ensures OrderOk(Retried(w, now, r).rows, now)
    ensures AheadOk(Retried(w, now, r).rows, w.wire, w.log)
  {
    OneUpdated(w.rows, r, Retry, now);
  }

  lemma RetryKeepsRows(w: World, now: int, r: Row)
    requires Inv(w) && now >= w.clock && r in w.rows && Applies(Retry, r)
    ensures RowsOk(Retried(w, now, r).rows, w.wire) && SendersOk(Retried(w, now, r).rows, w.senders, w.wire)
  {
    OneUpdated(w.rows, r, Retry, now);
    assert RowOk(w.wire, r);
    SameRow(w.rows, r);
    assert r.id !in w.senders;
    RowsFollow(w, Retried(w, now, r), r, Edited(r, Retry, now));
    SendersFollow(w, Retried(w, now, r), r, Edited(r, Retry, now));
  }

  lemma InLineIfOrdered(w: World, now: int, r: Row)
    requires Inv(w) && r in w.rows && Applies(Retry, r)
    requires OrderOk(Retried(w, now, r).rows, now) && AheadOk(Retried(w, now, r).rows, w.wire, w.log)
    ensures InLine(w, now, r)
  {
    OneUpdated(w.rows, r, Retry, now);
    var x := Edited(r, Retry, now);
    assert x in Retried(w, now, r).rows && Active(x);
    SameRow(w.rows, r);
    forall a | a in w.rows && Active(a) ensures a.id != r.id && a in Retried(w, now, r).rows {
    }
    forall s | s in w.rows && s.status.Sending? && s.lane == r.lane ensures s.id < r.id {
      assert !Older(x, s);
    }
  }

  /** An operator's retry keeps everything a run promises if and only if the row is in line. */
  lemma RetryKeepsInvIff(w: World, now: int, r: Row)
    requires Inv(w) && now >= w.clock && r in w.rows && Applies(Retry, r)
    ensures Inv(Retried(w, now, r)) <==> InLine(w, now, r)
  {
    UpdatedKeepsIds(w.rows, {r.id}, Retry, now);
    RetryKeepsRows(w, now, r);
    if InLine(w, now, r) {
      RetryKeepsOrder(w, now, r);
    }
    if Inv(Retried(w, now, r)) {
      InLineIfOrdered(w, now, r);
    }
  }

  /** Why the wire matters: showing the next chunk of a row keeps the lane in order if and only if no
      younger row of the lane has been shown. */
  lemma PostKeepsOrderIff(wire: seq<Message>, r: Row)
    requires WireOrdered(wire) && RowOk(wire, r) && r.chunksDone < r.chunks
    ensures WireOrdered(wire + [Message(r.lane, r.id, r.chunksDone)]) <==>
            forall m :: m in wire && m.lane == r.lane ==> m.row <= r.id
  {
    var wire' := wire + [Message(r.lane, r.id, r.chunksDone)];
    assert forall i :: 0 <= i < |wire| ==> wire'[i] == wire[i] && wire[i] in wire;
    if WireOrdered(wire') {
      forall m | m in wire && m.lane == r.lane ensures m.row <= r.id {
        var i :| 0 <= i < |wire| && wire[i] == m;
        assert wire'[i] == m && wire'[|wire|] == Message(r.lane, r.id, r.chunksDone);
      }
    }
  }

  /** And the log: delivering a complete row keeps the deliveries of its lane in order if and only if
      no row of the lane that is as young has been delivered. */
  lemma DeliverKeepsOrderIff(wire: seq<Message>, log: seq<Delivery>, r: Row)
    requires LogOk(wire, log) && forall c: nat :: c < r.chunks ==> OnWire(wire, r.id, c)
    ensures LogOk(wire, log + [Delivery(r.lane, r.id, r.chunks)]) <==>
        forall d :: d in log && d.lane == r.lane ==> d.row < r.id
  {
    var log' := log + [Delivery(r.lane, r.id, r.chunks)];
    assert forall i :: 0 <= i < |log| ==> log'[i] == log[i] && log[i] in log;
    assert forall x :: x in log' <==> x in log || x == Delivery(r.lane, r.id, r.chunks);
    if LogOk(wire, log') {
      forall d | d in log && d.lane == r.lane ensures d.row < r.id {
        var i :| 0 <= i < |log| && log[i] == d;
        assert log'[i] == d && log'[|log|] == Delivery(r.lane, r.id, r.chunks);
      }
    }
  }

  lemma StepKeepsInv(p: Policy, w: World, now: int, s: Step)
    requires Inv(w) && Possible(w, now, s)
    ensures Inv(After(p, w, now, s))
  {
    match s
    case Enqueue(_, _, _) => EnqueueKeepsInv(p, w, now, s);
    case InsertDead(_, _, _, _) => EnqueueKeepsInv(p, w, now, s);
    case ClaimRows(ids) => ClaimKeepsInv(p, w, now, ids);
    case Post(r, again) => PostKeepsInv(p, w, now, r, again);
    case Record(r) => RecordStep(p, w, now, r);
    case Finish(r) => FinishStep(p, w, now, r);
    case Fail(_, _, _, _) => FailKeepsInv(p, w, now, s);
    case DiscardRow(r) => DiscardKeepsInv(p, w, now, r);
    case RetryRow(r) => RetryKeepsInvIff(w, now, r);
    case Purge(deliveredDays, deadDays) => PurgeKeepsInv(p, w, now, deliveredDays, deadDays);
    case RecoverAll => RecoverKeepsInv(p, w, now);
    case Abandon(_) =>
    case Crash =>
  }

  // ---- runs ----

  datatype Event = Event(now: int, step: Step)

  /** From an empty store, the events lead through `worlds`. */
  ghost predicate IsRun(p: Policy, worlds: seq<World>, run: seq<Event>) {
    && |worlds| == |run| + 1 && worlds[0] == World([], 0, worlds[0].clock, map[], [], [])
    && forall i :: 0 <= i < |run| ==>
         Possible(worlds[i], run[i].now, run[i].step) && worlds[i + 1] == After(p, worlds[i], run[i].now, run[i].step)
  }

  lemma {:induction false} EveryRun(p: Policy, worlds: seq<World>, run: seq<Event>, n: nat)
    requires IsRun(p, worlds, run) && n <= |run|
    ensures Inv(worlds[n])
    decreases n
  {
    if n > 0 {
      EveryRun(p, worlds, run, n - 1);
      StepKeepsInv(p, worlds[n - 1], run[n - 1].now, run[n - 1].step);
    }
  }

  // ---- what a run promises ----

  /** At most one row of a lane is being sent, and no active row of the lane is older. */
  lemma OneSenderPerLane(p: Policy, worlds: seq<World>, run: seq<Event>, n: nat, a: Row, b: Row)
    requires IsRun(p, worlds, run) && n <= |run|
    requires a in worlds[n].rows && b in worlds[n].rows && a.lane == b.lane && a.status.Sending? && Active(b)
    ensures a.id <= b.id && (b.status.Sending? ==> a == b)
  {
    EveryRun(p, worlds, run, n);
    YoungerStays(worlds[n], a, b);
    if b.status.Sending? {
      YoungerStays(worlds[n], b, a);
      SameRow(worlds[n].rows, a);
    }
  }

  /** Rows of a lane are delivered in the order they were enqueued, each at most once, and every
      delivered row has every chunk accepted. */
  lemma DeliveredInOrder(p: Policy, worlds: seq<World>, run: seq<Event>, n: nat, i: nat)
    requires IsRun(p, worlds, run) && n <= |run| && i < |worlds[n].log|
    ensures forall j :: i < j < |worlds[n].log| && worlds[n].log[i].lane == worlds[n].log[j].lane ==>
              worlds[n].log[i].row < worlds[n].log[j].row
    ensures forall c: nat :: c < worlds[n].log[i].chunks ==> OnWire(worlds[n].wire, worlds[n].log[i].row, c)
  {
    EveryRun(p, worlds, run, n);
    assert worlds[n].log[i] in worlds[n].log;
  }

  /** Whatever was lost on the way, the accepted chunks of a row are exactly those recorded, or
      those and the next one; and the recorded message ids are the messages that show them. */
  lemma AcceptedChunks(p: Policy, worlds: seq<World>, run: seq<Event>, n: nat, r: Row)
    requires IsRun(p, worlds, run) && n <= |run| && r in worlds[n].rows
    ensures |r.messageIds| == r.chunksDone <= r.chunks
    ensures forall c: nat :: c < r.chunksDone ==>
              r.messageIds[c] < |worlds[n].wire| && worlds[n].wire[r.messageIds[c]] == Message(r.lane, r.id, c)
    ensures (forall c: nat :: OnWire(worlds[n].wire, r.id, c) <==> c < r.chunksDone)
         || (r.chunksDone < r.chunks && forall c: nat :: OnWire(worlds[n].wire, r.id, c) <==> c <= r.chunksDone)
    ensures r.status.Delivered? ==> forall c: nat :: OnWire(worlds[n].wire, r.id, c) <==> c < r.chunks
  {
    EveryRun(p, worlds, run, n);
    var wire := worlds[n].wire;
    assert RowOk(wire, r);
    forall c: nat | c < r.chunksDone
      ensures OnWire(wire, r.id, c) && wire[r.messageIds[c]] == Message(r.lane, r.id, c)
    {
      assert wire[r.messageIds[c]] in wire;
    }
    forall c: nat | OnWire(wire, r.id, c) ensures c <= r.chunksDone && c < r.chunks {
      var m :| m in wire && m.row == r.id && m.chunk == c;
    }
  }

  /** What a reader of a lane sees: rows in the order they were enqueued, the chunks of a row in
      order, and no chunk without the chunks before it. */
  lemma ReaderSeesOrder(p: Policy, worlds: seq<World>, run: seq<Event>, n: nat, i: nat, j: nat)
    requires IsRun(p, worlds, run) && n <= |run| && i < j < |worlds[n].wire|
    requires worlds[n].wire[i].lane == worlds[n].wire[j].lane
    ensures var a, b := worlds[n].wire[i], worlds[n].wire[j];
            && (a.row < b.row || (a.row == b.row && a.chunk <= b.chunk))
            && forall c: nat :: c < b.chunk ==> OnWire(worlds[n].wire, b.row, c)
  {
    EveryRun(p, worlds, run, n);
    assert worlds[n].wire[j] in worlds[n].wire;
  }

  /** Discord's side of the nonce: it never makes a second message for a nonce it has seen. */
  ghost predicate Deduplicates(run: seq<Event>) {
    forall i :: 0 <= i < |run| && run[i].step.Post? ==> !run[i].step.again
  }

  ghost predicate NoTwice(wire: seq<Message>) {
    forall i, j :: 0 <= i < j < |wire| ==> wire[i].row != wire[j].row || wire[i].chunk != wire[j].chunk
  }

  /** With deduplication no chunk is ever shown twice, so each row reads 0, 1, 2, ... once. */
  lemma {:induction false} ExactlyOnce(p: Policy, worlds: seq<World>, run: seq<Event>, n: nat)
    requires IsRun(p, worlds, run) && n <= |run| && Deduplicates(run)
    ensures NoTwice(worlds[n].wire)
    decreases n
  {
    if n > 0 {
      ExactlyOnce(p, worlds, run, n - 1);
      var w, e := worlds[n - 1], run[n - 1];
      if e.step.Post? {
        PostedOnce(w.wire, e.step.row, w.senders[e.step.row.id].chunk);
      }
    }
  }

  lemma PostedOnce(wire: seq<Message>, r: Row, chunk: nat)
    requires NoTwice(wire)
    ensures NoTwice(Posted(wire, r, chunk, false).0)
  {
    assert forall i :: 0 <= i < |wire| ==> wire[i] in wire;
  }

  /** The messages of one row, in the order they appeared. */
  function ChunksOf(wire: seq<Message>, row: nat): (c: seq<nat>)
    ensures forall k :: k in c <==> exists m :: m in wire && m.row == row && m.chunk == k
  {
    if wire == [] then []
    else
      var last := wire[|wire| - 1];
      assert forall m :: m in wire <==> m == last || m in wire[..|wire| - 1];
      ChunksOf(wire[..|wire| - 1], row) + if last.row == row then [last.chunk] else []
  }

  lemma {:induction false} ChunksAscend(wire: seq<Message>, row: nat)
    requires NoTwice(wire) && WireOrdered(wire)
    requires forall a, b :: a in wire && b in wire && a.row == row && b.row == row ==> a.lane == b.lane
    ensures forall i, j :: 0 <= i < j < |ChunksOf(wire, row)| ==> ChunksOf(wire, row)[i] < ChunksOf(wire, row)[j]
  {
    if wire != [] {
      var rest, last := wire[..|wire| - 1], wire[|wire| - 1];
      ChunksAscend(rest, row);
      if last.row == row {
        LastChunk(wire, row);
        var seen := ChunksOf(rest, row);
        assert forall i :: 0 <= i < |seen| ==> seen[i] in seen;
      }
    }
  }

  lemma LastChunk(wire: seq<Message>, row: nat)
    requires NoTwice(wire) && WireOrdered(wire) && wire != [] && wire[|wire| - 1].row == row
    requires forall a, b :: a in wire && b in wire && a.row == row && b.row == row ==> a.lane == b.lane
    ensures var seen := ChunksOf(wire[..|wire| - 1], row); forall c :: c in seen ==> c < wire[|wire| - 1].chunk
  {
    var rest, last := wire[..|wire| - 1], wire[|wire| - 1];
    forall c | c in ChunksOf(rest, row) ensures c < last.chunk {
      var m :| m in rest && m.row == row && m.chunk == c;
      var k :| 0 <= k < |rest| && rest[k] == m;
      assert wire[k] == m && last in wire && m in wire;
    }
  }

  lemma {:induction false} AscendingRange(s: seq<nat>, n: nat)
    requires forall i, j :: 0 <= i < j < |s| ==> s[i] < s[j]
    requires forall k: nat :: k in s <==> k < n
    ensures |s| == n && forall i :: 0 <= i < |s| ==> s[i] == i
    decreases n
  {
    if s == [] {
      assert 0 in s <==> 0 < n;
    } else {
      var last := s[|s| - 1];
      assert last in s;
      assert n - 1 in s;
      var i :| 0 <= i < |s| && s[i] == n - 1;
      assert i == |s| - 1;
      var rest := s[..|s| - 1];
      forall k: nat ensures k in rest <==> k < n - 1 {
        if k in rest { assert k in s; }
        if k < n - 1 { assert k in s; }
      }
      AscendingRange(rest, n - 1);
    }
  }

  /** With deduplication the messages of a row read exactly 0, 1, 2, ..., each once, up to the last
      chunk recorded or the one after it; a delivered row reads in full. */
  lemma RowReadsInFull(p: Policy, worlds: seq<World>, run: seq<Event>, n: nat, r: Row)
    requires IsRun(p, worlds, run) && n <= |run| && Deduplicates(run) && r in worlds[n].rows
    ensures var seen := ChunksOf(worlds[n].wire, r.id);
            && (forall i :: 0 <= i < |seen| ==> seen[i] == i)
            && (|seen| == r.chunksDone || (|seen| == r.chunksDone + 1 && r.chunksDone < r.chunks))
            && (r.status.Delivered? ==> |seen| == r.chunks)
  {
    var wire := worlds[n].wire;
    ExactlyOnce(p, worlds, run, n);
    EveryRun(p, worlds, run, n);
    assert RowOk(wire, r);
    AcceptedChunks(p, worlds, run, n, r);
    ChunksAscend(wire, r.id);
    var seen := ChunksOf(wire, r.id);
    if forall c: nat :: OnWire(wire, r.id, c) <==> c < r.chunksDone {
      assert forall k: nat :: k in seen <==> OnWire(wire, r.id, k);
      AscendingRange(seen, r.chunksDone);
    } else {
      assert forall k: nat :: k in seen <==> OnWire(wire, r.id, k);
      AscendingRange(seen, r.chunksDone + 1);
    }
  }

  // ---- retry ----

  function FailedRow(lane: Lane): Row {
    Edited(NewRow(0, lane, 1, Sending, 1), Die, 1)
  }

  lemma EnqueueInline(p: Policy, w: World, now: int, lane: Lane)
    requires now >= w.clock && !LaneBusy(w.rows, lane)
    ensures After(p, w, now, Enqueue(lane, 1, true)) ==
            World(w.rows + [NewRow(w.nextId, lane, 1, Sending, now)], w.nextId + 1, now,
                  w.senders[w.nextId := Posting(0)], w.wire, w.log)
  {
  }

  lemma FailForGood(p: Policy, a: Row, w: World, now: int)
    requires now >= w.clock && w.rows == [a] && w.senders == map[a.id := Posting(0)] && a.status.Sending?
    ensures Possible(w, now, Fail(a, Permanent, None, 1000))
    ensures After(p, w, now, Fail(a, Permanent, None, 1000)) ==
        w.(clock := now, rows := [Edited(a, Die, now)], senders := map[])
  {
    assert Updated([a], {a.id}, Die, now) == [Edited(a, Die, now)];
    assert w.senders - {a.id} == map[];
  }

  /** A row fails for good, and a younger one of its lane is being sent. */
  lemma YoungerIsSending(p: Policy, lane: Lane) returns (worlds: seq<World>, run: seq<Event>)
    ensures IsRun(p, worlds, run)
    ensures worlds[|run|] ==
            World([FailedRow(lane), NewRow(1, lane, 1, Sending, 2)], 2, 2, map[1 := Posting(0)], [], [])
  {
    var a, r, s := NewRow(0, lane, 1, Sending, 1), FailedRow(lane), NewRow(1, lane, 1, Sending, 2);
    worlds := [World([], 0, 0, map[], [], []),
               World([a], 1, 1, map[0 := Posting(0)], [], []),
               World([r], 1, 1, map[], [], []),
               World([r, s], 2, 2, map[1 := Posting(0)], [], [])];
    run := [Event(1, Enqueue(lane, 1, true)), Event(1, Fail(a, Permanent, None, 1000)),
            Event(2, Enqueue(lane, 1, true))];
    assert [] + [a] == [a] && [r] + [s] == [r, s];
    EnqueueInline(p, worlds[0], 1, lane);
    FailForGood(p, a, worlds[1], 1);
    EnqueueInline(p, worlds[2], 2, lane);
  }

  /** An operator's retry does break the order: after that run the failed row is retried and is due
      at once, beside the younger row being sent. */
  lemma RetryBreaksOrder(p: Policy, lane: Lane) returns (worlds: seq<World>, run: seq<Event>, r: Row, s: Row)
    ensures IsRun(p, worlds, run)
    ensures var rows := worlds[|run|].rows;
            && r in rows && Applies(Retry, r)
            && s in rows && s.status.Sending? && s.lane == r.lane == lane && Older(r, s)
            && SendingIsOldest(rows) && !SendingIsOldest(Updated(rows, {r.id}, Retry, 3))
            && Due(Updated(rows, {r.id}, Retry, 3), 3, Edited(r, Retry, 3))
  {
    worlds, run := YoungerIsSending(p, lane);
    r, s := FailedRow(lane), NewRow(1, lane, 1, Sending, 2);
    EveryRun(p, worlds, run, |run|);
    RetryKeepsOrderIff([r, s], r, 3);
    RetryBesideSender([r, s], r, s, 3);
  }

  function SentRow(lane: Lane): Row {
    Edited(Edited(NewRow(1, lane, 1, Sending, 2), AddChunk(0), 2), Deliver, 2)
  }

  lemma SendTheOnly(p: Policy, w: World, r: Row, s: Row)
    requires w.rows == [r, s] && w.senders == map[s.id := Posting(0)] && w.wire == [] && w.log == []
    requires r.id != s.id && s.status.Sending? && s.chunks == 1 && s.chunksDone == 0
    ensures var t := w.clock;
            var s1 := Edited(s, AddChunk(0), t);
            var w1 := w.(wire := [Message(s.lane, s.id, 0)], senders := map[s.id := Answered(0, 0)]);
            var w2 := w1.(rows := [r, s1], senders := map[s.id := Posting(1)]);
            && Possible(w, t, Post(s, false)) && After(p, w, t, Post(s, false)) == w1
            && Possible(w1, t, Record(s)) && After(p, w1, t, Record(s)) == w2
            && Possible(w2, t, Finish(s1))
            && After(p, w2, t, Finish(s1)) ==
               w2.(rows := [r, Edited(s1, Deliver, t)], senders := map[], log := [Delivery(s.lane, s.id, 1)])
  {
    var t := w.clock;
    var s1 := Edited(s, AddChunk(0), t);
    assert w.wire + [Message(s.lane, s.id, 0)] == [Message(s.lane, s.id, 0)];
    assert Updated([r, s], {s.id}, AddChunk(0), t) == [r, s1];
    assert Updated([r, s1], {s.id}, Deliver, t) == [r, Edited(s1, Deliver, t)];
    assert map[s.id := Posting(1)] - {s.id} == map[];
  }

  /** A row fails for good, and a younger one of its lane is sent and delivered. */
  lemma YoungerIsDelivered(p: Policy, lane: Lane) returns (worlds: seq<World>, run: seq<Event>)
    ensures IsRun(p, worlds, run)
    ensures worlds[|run|] ==
        World([FailedRow(lane), SentRow(lane)], 2, 2, map[], [Message(lane, 1, 0)], [Delivery(lane, 1, 1)])
  {
    var before, events := YoungerIsSending(p, lane);
    var w := before[|events|];
    var s := NewRow(1, lane, 1, Sending, 2);
    var s1 := Edited(s, AddChunk(0), 2);
    SendTheOnly(p, w, FailedRow(lane), s);
    var w1 := After(p, w, 2, Post(s, false));
    var w2 := After(p, w1, 2, Record(s));
    worlds := before + [w1, w2, After(p, w2, 2, Finish(s1))];
    run := events + [Event(2, Post(s, false)), Event(2, Record(s)), Event(2, Finish(s1))];
  }

  /** A retry breaks the order even with nobody sending: after that run the failed row is not in
      line, yet its retry is due at once; once claimed, its message comes after the younger row's,
      and its delivery would too. */
  lemma RetryAfterYounger(p: Policy, lane: Lane) returns (worlds: seq<World>, run: seq<Event>, r: Row)
    ensures IsRun(p, worlds, run)
    ensures var w := worlds[|run|];
            var retried := Retried(w, 3, r);
            && r in w.rows && Applies(Retry, r) && !InLine(w, 3, r) && !Inv(retried)
            && SendingIsOldest(retried.rows) && Due(retried.rows, 3, Edited(r, Retry, 3))
            && Posted(w.wire, r, 0, false).0 == [Message(lane, 1, 0), Message(lane, 0, 0)]
            && !WireOrdered(Posted(w.wire, r, 0, false).0)
            && !LogOk(w.wire, w.log + [Delivery(lane, r.id, r.chunks)])
  {
    worlds, run := YoungerIsDelivered(p, lane);
    r := FailedRow(lane);
    var w := worlds[|run|];
    EveryRun(p, worlds, run, |run|);
    assert w.wire[0] in w.wire;
    RetryKeepsInvIff(w, 3, r);
    OneUpdated(w.rows, r, Retry, 3);
    RetryKeepsOrderIff(w.rows, r, 3);
    var log := w.log + [Delivery(lane, r.id, r.chunks)];
    assert log[0].row > log[1].row;
    var wire := Posted(w.wire, r, 0, false).0;
    assert wire[0].row > wire[1].row;
  }
}
