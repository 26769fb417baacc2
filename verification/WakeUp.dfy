/** The version-counter wake-up (lib/msgqueue.py) and the long poll built on it
    (bin/agent-server.py), as a machine over one shard's Condition.

    A step is what runs between two suspension points of the event loop. `asyncio.wait_for` may run
    the Condition's `wait` in a task of its own: the outer task then holds the lock until that task
    has registered, and again from the moment it has the lock back until the outer task resumes.
    `notify` is synchronous, and the notifier it spawns needs the lock. */
module WakeUp {
  import opened Ordering

  type Task = nat

  datatype Phase =
    | Seen(version: nat)                              // long poll: read the counter, not yet the table
    | AtLock(since: Option<nat>, polled: bool)        // inside wait_for_work, waiting for the lock
    | Holding(since: Option<nat>, polled: bool)       // saw no change; holds the lock until registered
    | Blocked(since: Option<nat>, polled: bool)       // registered waiter, lock given back
    | Waking(notified: bool)                          // woken or timed out; needs the lock to return
    | Returning(notified: bool)                       // has the lock; the outer task has still to resume
    | Done(result: bool)

  /** `reply`: the polled row is in the table. `owed`: inserters that have committed the row but
      not yet called notify. `pending`: spawned notifier tasks that have not run. */
  datatype World = World(version: nat, lock: Option<Task>, pending: nat, tasks: map<Task, Phase>,
                         reply: bool, owed: nat)

  datatype Step =
    | Notify                          // any other caller of notify
    | InsertReply                     // the reply row is committed ...
    | NotifyReply                     // ... and its inserter calls notify
    | RunNotifier                     // async with c: c.notify_all()
    | ReadVersion(t: Task)            // seen = work_version(caller)
    | CheckReply(t: Task)             // the poll's queries, then wait_for_work(since=seen)
    | Wait(t: Task, since: Option<nat>) // any other caller of wait_for_work
    | Acquire(t: Task)
    | Register(t: Task)
    | TimeOut(t: Task)
    | Reacquire(t: Task)
    | Return(t: Task)

  predicate In(w: World, t: Task, p: Phase -> bool) {
    t in w.tasks && p(w.tasks[t])
  }

  predicate Free(w: World, t: Task) {
    t !in w.tasks || w.tasks[t].Done?
  }

  predicate Enabled(w: World, s: Step) {
    match s
    case Notify => true
    case InsertReply => true
    case NotifyReply => w.owed > 0
    case RunNotifier => w.pending > 0 && w.lock.None?
    case ReadVersion(t) => Free(w, t)
    case CheckReply(t) => In(w, t, (p: Phase) => p.Seen?)
    case Wait(t, since) => Free(w, t) && (since.Some? ==> since.value <= w.version)
    case Acquire(t) => w.lock.None? && In(w, t, (p: Phase) => p.AtLock?)
    case Register(t) => In(w, t, (p: Phase) => p.Holding?)
    case TimeOut(t) => In(w, t, (p: Phase) => p.Holding? || p.Blocked? || p.Waking?)
    case Reacquire(t) => w.lock.None? && In(w, t, (p: Phase) => p.Waking?)
    case Return(t) => In(w, t, (p: Phase) => p.Returning?)
  }

  function Woken(p: Phase): Phase {
    if p.Blocked? then Waking(true) else p
  }

  function Next(w: World, s: Step): World
    requires Enabled(w, s)
  {
    match s
    case Notify => w.(version := w.version + 1, pending := w.pending + 1)
    case InsertReply => w.(reply := true, owed := w.owed + 1)
    case NotifyReply => w.(version := w.version + 1, pending := w.pending + 1, owed := w.owed - 1)
    case RunNotifier => w.(pending := w.pending - 1, tasks := map t | t in w.tasks :: Woken(w.tasks[t]))
    case ReadVersion(t) => w.(tasks := w.tasks[t := Seen(w.version)])
    case CheckReply(t) =>
      w.(tasks := w.tasks[t := if w.reply then Done(true) else AtLock(Some(w.tasks[t].version), true)])
    case Wait(t, since) => w.(tasks := w.tasks[t := AtLock(since, false)])
    case Acquire(t) =>
      var p := w.tasks[t];
      if p.since.Some? && w.version != p.since.value then
        w.(tasks := w.tasks[t := Done(true)])
      else
        w.(lock := Some(t), tasks := w.tasks[t := Holding(p.since, p.polled)])
    case Register(t) =>
      w.(lock := None, tasks := w.tasks[t := Blocked(w.tasks[t].since, w.tasks[t].polled)])
    case TimeOut(t) => w.(tasks := w.tasks[t := if w.tasks[t].Holding? then Returning(false) else Waking(false)])
    case Reacquire(t) => w.(lock := Some(t), tasks := w.tasks[t := Returning(w.tasks[t].notified)])
    case Return(t) => w.(lock := None, tasks := w.tasks[t := Done(w.tasks[t].notified)])
  }

  /** One shard's counter, Condition and waiters, changed by the code between two suspension
      points of `notify`, `_notify` and `wait_for_work`. */
  class ShardSignal {
    var version: nat
    var lock: Option<Task>
    var pending: nat
    var tasks: map<Task, Phase>

    function View(reply: bool, owed: nat): World
      reads this
    {
      World(version, lock, pending, tasks, reply, owed)
    }

    method Notify()
      modifies this
      ensures forall reply, owed :: View(reply, owed) == Next(old(View(reply, owed)), Step.Notify)
    {
      version := version + 1;
      pending := pending + 1;
    }

    /** Entering the Condition: return at once on a change, else keep the lock until registered. */
    method Enter(t: Task) returns (returned: bool)
      requires Enabled(View(false, 0), Acquire(t))
      modifies this
      ensures forall reply, owed :: View(reply, owed) == Next(old(View(reply, owed)), Acquire(t))
      ensures returned <==> old(tasks[t].since.Some? && version != tasks[t].since.value)
    {
      var since := tasks[t].since;
      if since.Some? && version != since.value {
        tasks := tasks[t := Done(true)];
        return true;
      }
      lock := Some(t);
      tasks := tasks[t := Holding(since, tasks[t].polled)];
      return false;
    }

    /** Condition.wait: give the lock back and join the waiters in one step. */
    method Join(t: Task)
      requires Enabled(View(false, 0), Register(t))
      modifies this
      ensures forall reply, owed :: View(reply, owed) == Next(old(View(reply, owed)), Register(t))
    {
      lock := None;
      tasks := tasks[t := Blocked(tasks[t].since, tasks[t].polled)];
    }

    /** The outer task resumes after the wait and leaves the Condition. */
    method Leave(t: Task) returns (notified: bool)
      requires Enabled(View(false, 0), Return(t))
      modifies this
      ensures forall reply, owed :: View(reply, owed) == Next(old(View(reply, owed)), Return(t))
      ensures tasks[t] == Done(notified) && lock.None?
    {
      notified := tasks[t].notified;
      lock := None;
      tasks := tasks[t := Done(notified)];
    }

    /** The notifier task, once it gets the lock: wake every registered waiter. */
    method NotifyAll()
      requires Enabled(View(false, 0), RunNotifier)
      modifies this
      ensures forall reply, owed :: View(reply, owed) == Next(old(View(reply, owed)), RunNotifier)
    {
      pending := pending - 1;
      var left := tasks.Keys;
      while left != {}
        invariant left <= tasks.Keys == old(tasks).Keys
        invariant forall t :: t in tasks ==> tasks[t] == if t in left then old(tasks)[t] else Woken(old(tasks)[t])
        invariant version == old(version) && lock == old(lock) && pending == old(pending) - 1
      {
        var t :| t in left;
        if tasks[t].Blocked? {
          tasks := tasks[t := Waking(true)];
        }
        left := left - {t};
      }
    }
  }

  ghost predicate IsRun(ws: seq<World>, steps: seq<Step>) {
    && |ws| == |steps| + 1
    && ws[0] == World(0, None, 0, map[], false, 0)
    && forall i :: 0 <= i < |steps| ==> Enabled(ws[i], steps[i]) && ws[i + 1] == Next(ws[i], steps[i])
  }

  /** The lock is held exactly by a task that is about to register or to return. */
  ghost predicate LockOk(w: World) {
    forall t :: w.lock == Some(t) <==> t in w.tasks && (w.tasks[t].Holding? || w.tasks[t].Returning?)
  }

  /** No waiter sleeps on a change: if the counter has moved since its `since`, a notifier that
      will wake it has still to run. */
  ghost predicate NoSleeper(w: World) {
    forall t :: t in w.tasks && (w.tasks[t].Holding? || w.tasks[t].Blocked?) && w.tasks[t].since.Some? ==>
      w.tasks[t].since.value == w.version || w.pending > 0
  }

  ghost predicate SinceOk(w: World) {
    forall t :: t in w.tasks ==>
      match w.tasks[t]
      case Seen(v) => v <= w.version
      case AtLock(since, polled) => (since.Some? ==> since.value <= w.version) && (polled ==> since.Some?)
      case Holding(since, polled) => (since.Some? ==> since.value <= w.version) && (polled ==> since.Some?)
      case Blocked(since, polled) => (since.Some? ==> since.value <= w.version) && (polled ==> since.Some?)
      case _ => true
  }

  /** A poll that found no reply and now waits: if the reply has come since, its notify is still
      owed or has already moved the counter. */
  ghost predicate ReplyCounted(w: World) {
    w.reply && w.owed == 0 ==> forall t :: t in w.tasks ==>
      match w.tasks[t]
      case AtLock(since, polled) => polled && since.Some? ==> since.value < w.version
      case Holding(since, polled) => polled && since.Some? ==> since.value < w.version
      case Blocked(since, polled) => polled && since.Some? ==> since.value < w.version
      case _ => true
  }

  ghost predicate Inv(w: World) {
    LockOk(w) && NoSleeper(w) && SinceOk(w) && ReplyCounted(w)
  }

  lemma NextKeepsLock(w: World, s: Step)
    requires Inv(w) && Enabled(w, s)
    ensures LockOk(Next(w, s)) && SinceOk(Next(w, s))
  {
    match s
    case Notify =>
    case InsertReply =>
    case NotifyReply =>
    case RunNotifier =>
    case ReadVersion(t) =>
    case CheckReply(t) =>
    case Wait(t, since) =>
    case Acquire(t) =>
    case Register(t) =>
    case TimeOut(t) =>
    case Reacquire(t) =>
    case Return(t) =>
  }

  lemma NextKeepsWakers(w: World, s: Step)
    requires Inv(w) && Enabled(w, s)
    ensures NoSleeper(Next(w, s))
  {
    match s
    case Notify =>
    case InsertReply =>
    case NotifyReply =>
    case RunNotifier =>
    case ReadVersion(t) =>
    case CheckReply(t) =>
    case Wait(t, since) =>
    case Acquire(t) =>
    case Register(t) =>
    case TimeOut(t) =>
    case Reacquire(t) =>
    case Return(t) =>
  }

  lemma NextKeepsReplies(w: World, s: Step)
    requires Inv(w) && Enabled(w, s)
    ensures ReplyCounted(Next(w, s))
  {
    match s
    case Notify =>
    case InsertReply =>
    case NotifyReply =>
    case RunNotifier =>
    case ReadVersion(t) =>
    case CheckReply(t) =>
    case Wait(t, since) =>
    case Acquire(t) =>
    case Register(t) =>
    case TimeOut(t) =>
    case Reacquire(t) =>
    case Return(t) =>
  }

  lemma NextKeepsInv(w: World, s: Step)
    requires Inv(w) && Enabled(w, s)
    ensures Inv(Next(w, s))
  {
    NextKeepsLock(w, s);
    NextKeepsWakers(w, s);
    NextKeepsReplies(w, s);
  }

  lemma {:induction false} EveryRun(ws: seq<World>, steps: seq<Step>, n: nat)
    requires IsRun(ws, steps) && n <= |steps|
    ensures Inv(ws[n])
    decreases n
  {
    if n > 0 {
      EveryRun(ws, steps, n - 1);
      NextKeepsInv(ws[n - 1], steps[n - 1]);
    }
  }

  /** The step by which a task that holds the lock gives it back. */
  function GiveBack(w: World, h: Task): Step
    requires h in w.tasks
  {
    if w.tasks[h].Holding? then Register(h) else Return(h)
  }

  /** Over every interleaving: a registered waiter whose `since` lies below the counter always
      has a notifier pending, and one step of the lock's holder at most away from waking it. */
  lemma NoLostWakeUp(ws: seq<World>, steps: seq<Step>, n: nat, t: Task)
    requires IsRun(ws, steps) && n <= |steps|
    requires t in ws[n].tasks && ws[n].tasks[t].Blocked? && ws[n].tasks[t].since.Some?
    requires ws[n].tasks[t].since.value < ws[n].version
    ensures var w := ws[n];
            && w.pending > 0
            && match w.lock
               case None => Enabled(w, RunNotifier) && Next(w, RunNotifier).tasks[t] == Waking(true)
               case Some(h) =>
                 && h in w.tasks && Enabled(w, GiveBack(w, h))
                 && Enabled(Next(w, GiveBack(w, h)), RunNotifier)
                 && Next(Next(w, GiveBack(w, h)), RunNotifier).tasks[t] == Waking(true)
  {
    EveryRun(ws, steps, n);
  }

  /** What the result of a wait says: true only if a notifier woke the waiter, false only if it timed
      out, and nothing of the kind has happened to it since. */
  lemma {:induction false} WhyReturned(ws: seq<World>, steps: seq<Step>, n: nat, t: Task) returns (k: nat)
    requires IsRun(ws, steps) && n < |steps| && steps[n] == Return(t)
    ensures k < n && t in ws[n + 1].tasks && ws[n + 1].tasks[t].Done? && t in ws[k].tasks
    ensures if ws[n + 1].tasks[t].result then steps[k].RunNotifier? && ws[k].tasks[t].Blocked?
            else steps[k] == TimeOut(t)
    ensures forall j :: k < j < n ==> steps[j] != TimeOut(t) && steps[j] != Acquire(t)
  {
    k := WhyAwake(ws, steps, n, t);
  }

  lemma {:induction false} WhyAwake(ws: seq<World>, steps: seq<Step>, n: nat, t: Task) returns (k: nat)
    requires IsRun(ws, steps) && n <= |steps|
    requires t in ws[n].tasks && (ws[n].tasks[t].Waking? || ws[n].tasks[t].Returning?)
    ensures k < n && t in ws[k].tasks
    ensures if ws[n].tasks[t].notified then steps[k].RunNotifier? && ws[k].tasks[t].Blocked? else steps[k] == TimeOut(t)
    ensures forall j :: k < j < n ==> steps[j] != TimeOut(t) && steps[j] != Acquire(t)
    decreases n
  {
    var w, s := ws[n - 1], steps[n - 1];
    assert ws[n] == Next(w, s);
    if s == TimeOut(t) || (s.RunNotifier? && w.tasks[t].Blocked?) {
      k := n - 1;
    } else {
      k := WhyAwake(ws, steps, n - 1, t);
    }
  }

  /** Entering the wait ends it at once, with true, exactly when the counter has passed the reading. */
  lemma ReturnsAtOnceIff(ws: seq<World>, steps: seq<Step>, n: nat, t: Task)
    requires IsRun(ws, steps) && n < |steps| && steps[n] == Acquire(t)
    ensures t in ws[n].tasks && ws[n].tasks[t].AtLock? && t in ws[n + 1].tasks
    ensures var since := ws[n].tasks[t].since;
            ws[n + 1].tasks[t] == Done(true) <==> since.Some? && since.value < ws[n].version
  {
    EveryRun(ws, steps, n);
  }

  // ---- the long poll, by the steps taken ----

  function Inserts(steps: seq<Step>): nat {
    if steps == [] then 0
    else Inserts(steps[..|steps| - 1]) + if steps[|steps| - 1].InsertReply? then 1 else 0
  }

  function ReplyNotifies(steps: seq<Step>): nat {
    if steps == [] then 0
    else ReplyNotifies(steps[..|steps| - 1]) + if steps[|steps| - 1].NotifyReply? then 1 else 0
  }

  function Notifies(steps: seq<Step>): nat {
    if steps == [] then 0
    else Notifies(steps[..|steps| - 1]) + if steps[|steps| - 1].Notify? || steps[|steps| - 1].NotifyReply? then 1 else 0
  }

  function NotifiersRun(steps: seq<Step>): nat {
    if steps == [] then 0
    else NotifiersRun(steps[..|steps| - 1]) + if steps[|steps| - 1].RunNotifier? then 1 else 0
  }

  /** The counter counts notifies; what is owed and pending is what has not followed yet. */
  lemma {:induction false} CountersMean(ws: seq<World>, steps: seq<Step>, n: nat)
    requires IsRun(ws, steps) && n <= |steps|
    ensures ws[n].version == Notifies(steps[..n])
    ensures ws[n].owed == Inserts(steps[..n]) - ReplyNotifies(steps[..n])
    ensures ws[n].pending == Notifies(steps[..n]) - NotifiersRun(steps[..n])
    ensures ws[n].reply <==> Inserts(steps[..n]) > 0
    decreases n
  {
    if n > 0 {
      CountersMean(ws, steps, n - 1);
      assert steps[..n][..n - 1] == steps[..n - 1];
      assert ws[n] == Next(ws[n - 1], steps[n - 1]);
    }
  }

  /** The check of a poll: with a reply inserted it is answered at once, else it goes on to wait with
      the counter it read before. */
  lemma CheckMeans(ws: seq<World>, steps: seq<Step>, n: nat, t: Task)
    requires IsRun(ws, steps) && n < |steps| && steps[n] == CheckReply(t)
    ensures t in ws[n].tasks && ws[n].tasks[t].Seen? && t in ws[n + 1].tasks
    ensures ws[n + 1].tasks[t] == if Inserts(steps[..n]) > 0 then Done(true)
                                  else AtLock(Some(ws[n].tasks[t].version), true)
  {
    CountersMean(ws, steps, n);
  }

  /** `t` has not begun another wait between step `k` and step `n`. */
  ghost predicate SameWait(steps: seq<Step>, k: nat, n: nat, t: Task)
    requires n <= |steps|
  {
    forall j :: k < j < n ==> steps[j] != ReadVersion(t) && !(steps[j].Wait? && steps[j].t == t)
  }

  predicate PollsOrDone(p: Phase) {
    match p
    case AtLock(_, polled) => polled
    case Holding(_, polled) => polled
    case Blocked(_, polled) => polled
    case Seen(_) => false
    case _ => true
  }

  lemma {:induction false} PollStaysPoll(ws: seq<World>, steps: seq<Step>, k: nat, n: nat, t: Task)
    requires IsRun(ws, steps) && k < n <= |steps| && steps[k] == CheckReply(t) && SameWait(steps, k, n, t)
    ensures t in ws[n].tasks && PollsOrDone(ws[n].tasks[t])
    decreases n
  {
    if n == k + 1 {
      CheckMeans(ws, steps, k, t);
    } else {
      PollStaysPoll(ws, steps, k, n - 1, t);
      assert ws[n] == Next(ws[n - 1], steps[n - 1]);
    }
  }

  /** Once every inserted reply has been notified and every notifier has run, a poll that still sleeps
      after its check sleeps because no reply was ever inserted: a reply notified after the counter was
      read is never slept through. */
  lemma ReplyNeverSleptThrough(ws: seq<World>, steps: seq<Step>, k: nat, n: nat, t: Task)
    requires IsRun(ws, steps) && k < n <= |steps| && steps[k] == CheckReply(t) && SameWait(steps, k, n, t)
    requires t in ws[n].tasks && ws[n].tasks[t].Blocked?
    requires ReplyNotifies(steps[..n]) == Inserts(steps[..n]) && NotifiersRun(steps[..n]) == Notifies(steps[..n])
    ensures forall i :: 0 <= i < n ==> !steps[i].InsertReply?
  {
    EveryRun(ws, steps, n);
    CountersMean(ws, steps, n);
    PollStaysPoll(ws, steps, k, n, t);
    NoneInserted(steps[..n]);
    forall i | 0 <= i < n ensures !steps[i].InsertReply? {
      assert steps[..n][i] == steps[i];
    }
  }

  lemma {:induction false} NoneInserted(steps: seq<Step>)
    requires Inserts(steps) == 0
    ensures forall i :: 0 <= i < |steps| ==> !steps[i].InsertReply?
  {
    if steps != [] {
      var rest := steps[..|steps| - 1];
      NoneInserted(rest);
      assert forall i :: 0 <= i < |rest| ==> rest[i] == steps[i];
    }
  }

  ghost predicate Leads(w: World, s: Step, w': World) {
    Enabled(w, s) && w' == Next(w, s)
  }

  ghost predicate Reached(ws: seq<World>, steps: seq<Step>, w: World) {
    IsRun(ws, steps) && ws[|steps|] == w
  }

  lemma Onward(ws: seq<World>, steps: seq<Step>, w: World, s: Step, w': World)
    returns (ws': seq<World>, steps': seq<Step>)
    requires Reached(ws, steps, w) && Leads(w, s, w')
    ensures Reached(ws', steps', w') && steps' == steps + [s]
  {
    ws', steps' := ws + [w'], steps + [s];
  }

  lemma PollSleeps(t: Task) returns (ws: seq<World>, steps: seq<Step>)
    ensures Reached(ws, steps, World(0, None, 0, map[t := Blocked(Some(0), true)], false, 0))
    ensures steps == [ReadVersion(t), CheckReply(t), Acquire(t), Register(t)]
  {
    var w0 := World(0, None, 0, map[], false, 0);
    var w1 := w0.(tasks := map[t := Seen(0)]);
    var w2 := w0.(tasks := map[t := AtLock(Some(0), true)]);
    var w3 := w0.(lock := Some(t), tasks := map[t := Holding(Some(0), true)]);
    ws, steps := [w0], [];
    ws, steps := Onward(ws, steps, w0, ReadVersion(t), w1);
    ws, steps := Onward(ws, steps, w1, CheckReply(t), w2);
    ws, steps := Onward(ws, steps, w2, Acquire(t), w3);
    ws, steps := Onward(ws, steps, w3, Register(t), w0.(tasks := map[t := Blocked(Some(0), true)]));
  }

  /** A poll finds nothing and sleeps, the reply wakes it, and it returns. */
  lemma PollIsAnswered(t: Task) returns (ws: seq<World>, steps: seq<Step>)
    ensures Reached(ws, steps, World(1, None, 0, map[t := Done(true)], true, 0))
    ensures steps == [ReadVersion(t), CheckReply(t), Acquire(t), Register(t)] +
                     [InsertReply, NotifyReply, RunNotifier, Reacquire(t), Return(t)]
  {
    var w4 := World(0, None, 0, map[t := Blocked(Some(0), true)], false, 0);
    var w5 := w4.(reply := true, owed := 1);
    var w6 := w5.(version := 1, pending := 1, owed := 0);
    var w7 := w6.(pending := 0, tasks := map[t := Waking(true)]);
    var w8 := w7.(lock := Some(t), tasks := map[t := Returning(true)]);
    ws, steps := PollSleeps(t);
    ws, steps := Onward(ws, steps, w4, InsertReply, w5);
    ws, steps := Onward(ws, steps, w5, NotifyReply, w6);
    ws, steps := Onward(ws, steps, w6, RunNotifier, w7);
    ws, steps := Onward(ws, steps, w7, Reacquire(t), w8);
    ws, steps := Onward(ws, steps, w8, Return(t), w7.(tasks := map[t := Done(true)]));
  }
}
