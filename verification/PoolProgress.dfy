/** Without new tasks the pool comes to rest, and then everything has been run. */
module PoolProgress {
  import opened Sequences
  import opened BlockingQueue
  import BlockingAdds
  import opened ThreadPool
  import opened PoolTasks

  /** What a thread can still cause, itself or by waking another, while the queue is not stopped. */
  function Weight(pc: Thread<Task>): nat {
    match pc
    case Idle => 5
    case Returned(_) => 5
    case AddWant(_) => 22
    case AddAwake(_) => 22
    case AddHold(_) => 21
    case AddSleep(_) => 20
    case AddGo(_) => 20
    case AddDone => 9
    case AddNotify => 8
    case TakeWant => 2
    case TakeAwake => 2
    case TakeHold => 1
    case TakeSleep => 0
    case TakeGo => 0
    case TakeDone(_) => 9
    case TakeNotify(_) => 8
    case _ => 0
  }

  /** An item in the queue is still to be taken and to be run. */
  function QueueWeight(q: State<Task>): nat {
    Total(q.threads, Weight) + 10 * |q.queue|
  }

  lemma NotifyLowers(q: State<Task>, t: nat, pick: nat)
    requires t < |q.threads| && (q.threads[t].AddNotify? || q.threads[t].TakeNotify?)
    ensures Step(q, t, pick) == q || QueueWeight(Step(q, t, pick)) < QueueWeight(q)
  {
    var pc := q.threads[t];
    if Wakes(q.threads, t, pick) {
      WakingLowers(q, t, pick);
    } else {
      TotalUpdate(q.threads, Weight, t, if pc.AddNotify? then Idle else Returned(Some(pc.item)));
    }
  }

  lemma WakingLowers(q: State<Task>, t: nat, pick: nat)
    requires t < |q.threads| && (q.threads[t].AddNotify? || q.threads[t].TakeNotify?) && Wakes(q.threads, t, pick)
    ensures QueueWeight(Step(q, t, pick)) < QueueWeight(q)
  {
    var pc, woken := q.threads[t], Woken(q.threads[pick]);
    var pc' := if pc.AddNotify? then Idle else Returned(Some(pc.item));
    TotalUpdate(q.threads, Weight, pick, woken);
    TotalUpdate(q.threads[pick := woken], Weight, t, pc');
    assert Step(q, t, pick).threads == q.threads[pick := woken][t := pc'];
  }

  lemma PlainLowers(q: State<Task>, t: nat, pick: nat)
    requires t < |q.threads| && !q.stop && !StopperPc(q.threads[t]) && !Notifies(q.threads[t])
    ensures Step(q, t, pick) == q || QueueWeight(Step(q, t, pick)) < QueueWeight(q)
  {
    PlainMove(q, Go(t, pick));
    TotalUpdate(q.threads, Weight, t, Step(q, t, pick).threads[t]);
    PlainWeighs(q, t, pick);
  }

  lemma PlainWeighs(q: State<Task>, t: nat, pick: nat)
    requires t < |q.threads| && !q.stop && !StopperPc(q.threads[t]) && !Notifies(q.threads[t])
    ensures var q' := Step(q, t, pick);
      q' == q || Weight(q'.threads[t]) + 10 * |q'.queue| < Weight(q.threads[t]) + 10 * |q.queue|
  {
  }

  lemma StepLowers(q: State<Task>, t: nat, pick: nat)
    requires t < |q.threads| && !q.stop && (q.threads[t].Idle? || !StopperPc(q.threads[t]))
    ensures Step(q, t, pick) == q || QueueWeight(Step(q, t, pick)) < QueueWeight(q)
  {
    if q.threads[t].AddNotify? || q.threads[t].TakeNotify? {
      NotifyLowers(q, t, pick);
    } else if !q.threads[t].Idle? {
      PlainLowers(q, t, pick);
    }
  }

  function WorkerWeight(w: Worker): nat {
    match w
    case Dequeuing => 2
    case AtTask(_) => 1
    case _ => 0
  }

  function LaneWeight(l: Lane): nat {
    QueueWeight(l.queue) + WorkerWeight(l.worker)
  }

  lemma WorkLowers(l: Lane, pick: nat)
    requires LaneInv(l) && !l.queue.stop && !l.worker.Exited?
    ensures Work(l, true, pick) == l || LaneWeight(Work(l, true, pick)) < LaneWeight(l)
  {
    match l.worker {
      case AtTest => TotalUpdate(l.queue.threads, Weight, 0, TakeWant);
      case Dequeuing =>
        if !l.queue.threads[0].Returned? {
          StepLowers(l.queue, 0, pick);
        }
      case AtTask(_) =>
    }
  }

  lemma LaneLowers(p: Pool, i: nat, l: Lane)
    requires i < |p.lanes| && (l == p.lanes[i] || LaneWeight(l) < LaneWeight(p.lanes[i]))
    ensures var p' := ThreadPool.At(p, i, l);
      p' == p || Total(p'.lanes, LaneWeight) < Total(p.lanes, LaneWeight)
  {
    TotalUpdate(p.lanes, LaneWeight, i, l);
    assert p.lanes[i := p.lanes[i]] == p.lanes;
  }

  /** No shutdown yet, so nothing is stopped and nobody has left. */
  ghost predicate Working(p: Pool) {
    && PoolInv(p) && p.stopper.NotCalled? && AllStay(p)
    && forall i :: 0 <= i < |p.lanes| ==> OpenBefore(p, i)
  }

  /** The steps of workers and of threads inside add_task. */
  predicate OwnStep(e: Event) {
    e.Worker? || e.Adder?
  }

  lemma EventLowers(p: Pool, e: Event)
    requires Working(p) && Sensible(p, e) && OwnStep(e)
    ensures Happen(p, e) == p || Total(Happen(p, e).lanes, LaneWeight) < Total(p.lanes, LaneWeight)
  {
    assert LaneAt(p, e.i) && OpenBefore(p, e.i);
    var l := p.lanes[e.i];
    match e {
      case Worker(i, pick) =>
        WorkLowers(l, pick);
        LaneLowers(p, i, Work(l, true, pick));
      case Adder(i, t, pick) =>
        StepLowers(l.queue, t, pick);
        LaneLowers(p, i, InQueue(l, Go(t, pick)));
    }
  }

  lemma EventKeepsWorking(p: Pool, e: Event)
    requires Working(p) && Sensible(p, e) && OwnStep(e)
    ensures Working(Happen(p, e))
  {
    HappenKeeps(p, e);
    EventKeepsStay(p, e);
    forall i | 0 <= i < |Happen(p, e).lanes| ensures OpenBefore(Happen(p, e), i) {
      EventLeavesOpen(p, e, i);
    }
  }

  lemma {:induction false} LoweredBy(p: Pool, events: seq<Event>)
    requires Working(p) && forall k :: 0 <= k < |events| ==> OwnStep(events[k])
    ensures Changed(p, events) + Total(ThreadPool.Run(p, events).lanes, LaneWeight) <= Total(p.lanes, LaneWeight)
    ensures Working(ThreadPool.Run(p, events))
  {
    if events != [] {
      var n := |events| - 1;
      var before := ThreadPool.Run(p, events[..n]);
      LoweredBy(p, events[..n]);
      if Sensible(before, events[n]) {
        EventLowers(before, events[n]);
        EventKeepsWorking(before, events[n]);
      }
    }
  }

  lemma RunIsWorking(p: Pool, events: seq<Event>)
    requires PoolInit(p) && ThreadPool.Run(p, events).stopper.NotCalled?
    ensures Working(ThreadPool.Run(p, events))
  {
    InitPool(p);
    RunKeepsPool(p, events);
    WorkersStay(p, events);
    forall i | 0 <= i < |ThreadPool.Run(p, events).lanes| ensures OpenBefore(ThreadPool.Run(p, events), i) {
      RunLeavesOpen(p, events, i);
    }
  }

  /** As long as no shutdown is begun, without new tasks the workers and the threads inside add_task can
      change anything only a bounded number of times, whoever is scheduled when and whomever a notification
      wakes; and when none can go on, every task that was accepted has been run. */
  lemma TasksGetRun(p: Pool, before: seq<Event>, after: seq<Event>)
    requires PoolInit(p) && ThreadPool.Run(p, before).stopper.NotCalled?
    requires forall k :: 0 <= k < |after| ==> OwnStep(after[k])
    ensures var q := ThreadPool.Run(p, before);
      Changed(q, after) <= Total(q.lanes, LaneWeight)
    ensures var r := ThreadPool.Run(ThreadPool.Run(p, before), after);
      PoolStuck(r) ==> forall i :: 0 <= i < |r.lanes| ==> Served(r.lanes[i])
  {
    var q := ThreadPool.Run(p, before);
    RunIsWorking(p, before);
    LoweredBy(q, after);
    var r := ThreadPool.Run(q, after);
    if PoolStuck(r) {
      forall i | 0 <= i < |r.lanes| ensures Served(r.lanes[i]) {
        LaneDone(r, i);
      }
    }
  }
}
