/** What becomes of the tasks given to the pool: who accepts them, and that they are run. */
module PoolTasks {
  import opened Sequences
  import opened BlockingQueue
  import opened BlockingAdds
  import BlockingTheorems
  import opened ThreadPool

  // ---------------------------------------------------------------- accepted tasks are submitted ones

  /** The task an event passes to add_task, called by thread t for queue i. */
  function Submission(p: Pool, e: Event, i: nat, t: nat): seq<Task>
    requires Sensible(p, e)
  {
    if e.Submit? && e.i == i && e.t == t && AtRest(p.lanes[i].queue.threads[t]) then [e.task] else []
  }

  /** What thread t passed to add_task for queue i in a run, in order. */
  ghost function Submitted(p: Pool, events: seq<Event>, i: nat, t: nat): seq<Task> {
    if events == [] then []
    else
      var before, e := ThreadPool.Run(p, events[..|events| - 1]), events[|events| - 1];
      Submitted(p, events[..|events| - 1], i, t) + if Sensible(before, e) then Submission(before, e, i, t) else []
  }

  ghost predicate LaneAccount(p: Pool, i: nat, t: nat, given: seq<Task>) {
    i < |p.lanes| && 2 <= |p.lanes[i].queue.threads| && Account(p.lanes[i].queue, t, given)
    && PushedByThreads(p.lanes[i].queue)
  }

  lemma MoveAccount(p: Pool, i: nat, m: Move<Task>, t: nat, given: seq<Task>)
    requires LaneAccount(p, i, t, given) && m.t < |p.lanes[i].queue.threads|
    ensures LaneAccount(ThreadPool.At(p, i, InQueue(p.lanes[i], m)), i, t, given + Passed(p.lanes[i].queue, m, t))
  {
    AccountKept(p.lanes[i].queue, m, t, given);
    PushersKept(p.lanes[i].queue, m);
    NextKeepsThreads(p.lanes[i].queue, m);
  }

  lemma WorkAccount(l: Lane, running: bool, pick: nat, t: nat, given: seq<Task>)
    requires 2 <= |l.queue.threads| && Account(l.queue, t, given) && PushedByThreads(l.queue)
    ensures var q := Work(l, running, pick).queue;
      2 <= |q.threads| && Account(q, t, given) && PushedByThreads(q)
  {
    AccountKept(l.queue, Begin(0, Take), t, given);
    PushersKept(l.queue, Begin(0, Take));
    AccountKept(l.queue, Go(0, pick), t, given);
    PushersKept(l.queue, Go(0, pick));
    NextKeepsThreads(l.queue, Go(0, pick));
    assert given + [] == given;
  }

  lemma ShutdownAccount(p: Pool, pick: nat, i: nat, t: nat, given: seq<Task>)
    requires Sensible(p, Shutdown(pick)) && LaneAccount(p, i, t, given)
    ensures LaneAccount(ShutdownStep(p, pick), i, t, given)
  {
    MoveAccount(p, i, Begin(1, Stop), t, given);
    MoveAccount(p, i, Go(1, pick), t, given);
    assert given + [] == given;
  }

  lemma EventAccount(p: Pool, e: Event, i: nat, t: nat, given: seq<Task>)
    requires Sensible(p, e) && LaneAccount(p, i, t, given)
    ensures LaneAccount(Happen(p, e), i, t, given + Submission(p, e, i, t))
  {
    assert given + [] == given;
    if e.Shutdown? {
      ShutdownAccount(p, e.pick, i, t, given);
    } else if e.i == i {
      match e {
        case Worker(_, pick) => WorkAccount(p.lanes[i], p.running, pick, t, given);
        case WorkerWakes(_) => MoveAccount(p, i, Spurious(0), t, given);
        case Submit(_, u, task) => MoveAccount(p, i, Begin(u, Add(task)), t, given);
        case Adder(_, u, pick) => MoveAccount(p, i, Go(u, pick), t, given);
        case AdderWakes(_, u) => MoveAccount(p, i, Spurious(u), t, given);
      }
    }
  }

  lemma {:induction false} RunAccount(p: Pool, events: seq<Event>, i: nat, t: nat)
    requires PoolInit(p) && i < |p.lanes| && t < |p.lanes[i].queue.threads|
    ensures LaneAccount(ThreadPool.Run(p, events), i, t, Submitted(p, events, i, t))
  {
    if events == [] {
      assert LaneInit(p.lanes[i]);
    } else {
      var before, e := ThreadPool.Run(p, events[..|events| - 1]), events[|events| - 1];
      RunAccount(p, events[..|events| - 1], i, t);
      if Sensible(before, e) {
        EventAccount(before, e, i, t, Submitted(p, events[..|events| - 1], i, t));
      } else {
        assert Submitted(p, events[..|events| - 1], i, t) + [] == Submitted(p, events[..|events| - 1], i, t);
      }
    }
  }

  // ---------------------------------------------------------------- queues stay open until the shutdown

  /** The shutdown has not reached queue i, and it is not stopped. */
  ghost predicate OpenBefore(p: Pool, i: nat) {
    i < |p.lanes| && (PhaseOf(p.stopper, i).Before? ==> !p.lanes[i].queue.stop)
  }

  lemma MoveLeavesOpen(q: State<Task>, m: Move<Task>)
    requires m.t < |q.threads| && Cast(q.threads) && q.threads[1].Idle? && !q.stop
    ensures !Next(q, m).stop
  {
    OnlyStopStops(q, m);
  }

  lemma EventLeavesOpen(p: Pool, e: Event, i: nat)
    requires PoolInv(p) && Sensible(p, e) && OpenBefore(p, i)
    ensures OpenBefore(Happen(p, e), i)
  {
    assert LaneAt(p, i);
    var l := p.lanes[i];
    if !e.Shutdown? && e.i == i && PhaseOf(p.stopper, i).Before? {
      match e {
        case Worker(_, pick) =>
          MoveLeavesOpen(l.queue, Begin(0, Take));
          MoveLeavesOpen(l.queue, Go(0, pick));
        case WorkerWakes(_) => MoveLeavesOpen(l.queue, Spurious(0));
        case Submit(_, u, task) => MoveLeavesOpen(l.queue, Begin(u, Add(task)));
        case Adder(_, u, pick) => MoveLeavesOpen(l.queue, Go(u, pick));
        case AdderWakes(_, u) => MoveLeavesOpen(l.queue, Spurious(u));
      }
    }
  }

  lemma {:induction false} RunLeavesOpen(p: Pool, events: seq<Event>, i: nat)
    requires PoolInit(p) && i < |p.lanes|
    ensures OpenBefore(ThreadPool.Run(p, events), i)
  {
    if events == [] {
      assert LaneInit(p.lanes[i]);
    } else {
      var before, e := ThreadPool.Run(p, events[..|events| - 1]), events[|events| - 1];
      RunLeavesOpen(p, events[..|events| - 1], i);
      InitPool(p);
      RunKeepsPool(p, events[..|events| - 1]);
      if Sensible(before, e) {
        EventLeavesOpen(before, e, i);
      }
    }
  }

  /** The tasks accepted on queue i are those given to add_task for queue i: of each thread, in the order of
      its calls and once each, all but those refused, which there are only once the shutdown has reached the
      queue, and the one whose call has not returned. */
  lemma AcceptedAreSubmitted(p: Pool, events: seq<Event>, i: nat, t: nat)
    requires PoolInit(p) && i < |p.lanes| && t < |p.lanes[i].queue.threads|
    ensures i < |ThreadPool.Run(p, events).lanes|
    ensures var r := ThreadPool.Run(p, events);
      var q := r.lanes[i].queue;
      && PushedByThreads(q) && t < |q.threads| && t < |q.refused|
      && Submitted(p, events, i, t) == OfThread(q.accepted, q.adders, t) + q.refused[t] + Pending(q.threads[t])
      && (q.refused[t] != [] ==> q.stop && !r.stopper.NotCalled?)
  {
    RunAccount(p, events, i, t);
    RunLeavesOpen(p, events, i);
  }

  // ---------------------------------------------------------------- workers stay in their loops

  ghost predicate AllStay(p: Pool) {
    p.running ==> forall i :: 0 <= i < |p.lanes| ==> !p.lanes[i].worker.Exited?
  }

  lemma EventKeepsStay(p: Pool, e: Event)
    requires Sensible(p, e) && AllStay(p)
    ensures AllStay(Happen(p, e))
  {
  }

  /** While the pool is running, no worker leaves its loop. */
  lemma {:induction false} WorkersStay(p: Pool, events: seq<Event>)
    requires PoolInit(p)
    ensures var r := ThreadPool.Run(p, events);
      r.running ==> forall i :: 0 <= i < |r.lanes| ==> !r.lanes[i].worker.Exited?
  {
    if events == [] {
      assert forall i :: 0 <= i < |p.lanes| ==> LaneInit(p.lanes[i]);
    } else {
      var before, e := ThreadPool.Run(p, events[..|events| - 1]), events[|events| - 1];
      WorkersStay(p, events[..|events| - 1]);
      if Sensible(before, e) {
        EventKeepsStay(before, e);
      }
    }
  }

  lemma WorkerAsleep(p: Pool, i: nat)
    requires PoolInv(p) && PoolStuck(p) && p.running && i < |p.lanes| && !p.lanes[i].worker.Exited?
    ensures p.lanes[i].queue.threads != []
    ensures p.lanes[i].worker.Dequeuing? && p.lanes[i].queue.threads[0].TakeSleep?
  {
    assert LaneAt(p, i);
    QueueIsStuck(p, i);
    BlockingTheorems.StuckForAReason(p.lanes[i].queue);
    assert Happen(p, Worker(i, 0)) == p;
    assert Happen(p, Worker(i, 0)).lanes[i] == p.lanes[i];
  }

  /** The worker waits for more, and all that was accepted has been run. */
  predicate Served(l: Lane) {
    && 2 <= |l.queue.threads|
    && l.worker.Dequeuing? && l.queue.threads[0].TakeSleep?
    && l.queue.queue == [] && l.ran == Jobs(l.queue.accepted)
  }

  /** What was accepted from thread t is just this. */
  predicate AcceptedFrom(q: State<Task>, t: nat, given: seq<Task>) {
    |q.adders| == |q.accepted| && given == OfThread(q.accepted, q.adders, t)
  }

  /** Unless a shutdown was begun, when no thread of the pool can go on, every worker waits in dequeue on an
      empty queue and has run every task that was accepted; and if the queue has room for any at all, every
      call of add_task has returned and every task given to it has been accepted. */
  lemma EverythingIsRun(p: Pool, events: seq<Event>, i: nat)
    requires PoolInit(p) && i < |p.lanes|
    requires PoolStuck(ThreadPool.Run(p, events)) && ThreadPool.Run(p, events).stopper.NotCalled?
    ensures i < |ThreadPool.Run(p, events).lanes| && Served(ThreadPool.Run(p, events).lanes[i])
    ensures var q := ThreadPool.Run(p, events).lanes[i].queue;
      0 < q.max ==> forall t :: 2 <= t < |q.threads| ==>
        AtRest(q.threads[t]) && AcceptedFrom(q, t, Submitted(p, events, i, t))
  {
    InitPool(p);
    RunKeepsPool(p, events);
    WorkersStay(p, events);
    LaneDone(ThreadPool.Run(p, events), i);
    if 0 < ThreadPool.Run(p, events).lanes[i].queue.max {
      AllAccepted(p, events, i);
    }
  }

  lemma LaneDone(p: Pool, i: nat)
    requires PoolInv(p) && PoolStuck(p) && p.running && i < |p.lanes| && !p.lanes[i].worker.Exited?
    ensures Served(p.lanes[i])
    ensures var q := p.lanes[i].queue;
      0 < q.max ==> forall t :: 2 <= t < |q.threads| ==> AtRest(q.threads[t])
  {
    WorkerAsleep(p, i);
    assert LaneAt(p, i);
    QueueIsStuck(p, i);
    var l := p.lanes[i];
    BlockingTheorems.StuckForAReason(l.queue);
    assert l.queue.taken + [] == l.queue.taken && l.ran + [] == l.ran;
  }

  lemma AllAccepted(p: Pool, events: seq<Event>, i: nat)
    requires PoolInit(p) && i < |p.lanes| && ThreadPool.Run(p, events).stopper.NotCalled?
    requires i < |ThreadPool.Run(p, events).lanes|
    requires var q := ThreadPool.Run(p, events).lanes[i].queue;
      forall t :: 2 <= t < |q.threads| ==> AtRest(q.threads[t])
    ensures var q := ThreadPool.Run(p, events).lanes[i].queue;
      forall t :: 2 <= t < |q.threads| ==> AcceptedFrom(q, t, Submitted(p, events, i, t))
  {
    var q := ThreadPool.Run(p, events).lanes[i].queue;
    RunSize(p, events, i);
    forall t | 2 <= t < |q.threads| ensures AcceptedFrom(q, t, Submitted(p, events, i, t)) {
      AcceptedFromThread(p, events, i, t);
    }
  }

  lemma AcceptedFromThread(p: Pool, events: seq<Event>, i: nat, t: nat)
    requires PoolInit(p) && i < |p.lanes| && t < |p.lanes[i].queue.threads|
    requires var r := ThreadPool.Run(p, events);
      r.stopper.NotCalled? && i < |r.lanes| && t < |r.lanes[i].queue.threads| && AtRest(r.lanes[i].queue.threads[t])
    ensures AcceptedFrom(ThreadPool.Run(p, events).lanes[i].queue, t, Submitted(p, events, i, t))
  {
    AcceptedAreSubmitted(p, events, i, t);
    var q := ThreadPool.Run(p, events).lanes[i].queue;
    NothingElse(OfThread(q.accepted, q.adders, t));
  }

  lemma NothingElse<T>(s: seq<T>)
    ensures s + [] + [] == s
  {
  }

  /** The number of threads at a queue is fixed. */
  lemma {:induction false} RunSize(p: Pool, events: seq<Event>, i: nat)
    requires i < |p.lanes|
    ensures i < |ThreadPool.Run(p, events).lanes|
    ensures |ThreadPool.Run(p, events).lanes[i].queue.threads| == |p.lanes[i].queue.threads|
  {
    if events != [] {
      var before, e := ThreadPool.Run(p, events[..|events| - 1]), events[|events| - 1];
      RunSize(p, events[..|events| - 1], i);
      if Sensible(before, e) {
        EventKeepsSize(before, e, i);
      }
    }
  }

  lemma EventKeepsSize(p: Pool, e: Event, i: nat)
    requires Sensible(p, e) && i < |p.lanes|
    ensures i < |Happen(p, e).lanes|
    ensures |Happen(p, e).lanes[i].queue.threads| == |p.lanes[i].queue.threads|
  {
    var q := p.lanes[i].queue;
    match e {
      case Worker(k, pick) => if k == i { NextKeepsThreads(q, Begin(0, Take)); NextKeepsThreads(q, Go(0, pick)); }
      case WorkerWakes(k) => if k == i { NextKeepsThreads(q, Spurious(0)); }
      case Submit(k, u, task) => if k == i { NextKeepsThreads(q, Begin(u, Add(task))); }
      case Adder(k, u, pick) => if k == i { NextKeepsThreads(q, Go(u, pick)); }
      case AdderWakes(k, u) => if k == i { NextKeepsThreads(q, Spurious(u)); }
      case Shutdown(pick) =>
        if 2 <= |q.threads| { NextKeepsThreads(q, Begin(1, Stop)); NextKeepsThreads(q, Go(1, pick)); }
    }
  }
}
