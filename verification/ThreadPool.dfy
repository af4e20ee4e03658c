/** The worker pool: one bounded queue and one thread per worker, any number of threads that add tasks,
    and one shutdown. */
module ThreadPool {
  import opened Sequences
  import opened BlockingQueue
  import BlockingTheorems

  /** A task is a function object, which may be empty. */
  datatype Task = Empty | Job(id: nat)

  datatype Worker =
    | AtTest              // before loading the running flag
    | Dequeuing           // inside dequeue, or it has just returned
    | AtTask(task: Task)  // before testing and running the task
    | Exited

  /** A worker with its queue; in the queue, thread 0 is the worker, thread 1 the one that shuts the
      pool down, the others add tasks.  `ran` is a history variable: the tasks run so far. */
  datatype Lane = Lane(queue: State<Task>, worker: Worker, ran: seq<Task>)

  datatype Stopper =
    | NotCalled
    | Calling(i: nat)     // before calling stop on queue i
    | Inside(i: nat)      // inside stop of queue i, or it has just returned
    | AtFlag              // before clearing the running flag
    | Joining
    | Joined

  datatype Pool = Pool(lanes: seq<Lane>, running: bool, stopper: Stopper)

  ghost predicate LaneInit(l: Lane) {
    Init(l.queue) && 2 <= |l.queue.threads| && l.worker.AtTest? && l.ran == []
  }

  ghost predicate PoolInit(p: Pool) {
    (forall i :: 0 <= i < |p.lanes| ==> LaneInit(p.lanes[i])) && p.running && p.stopper.NotCalled?
  }

  // ---------------------------------------------------------------- steps

  function InQueue(l: Lane, m: Move<Task>): Lane
    requires m.t < |l.queue.threads|
  {
    l.(queue := Next(l.queue, m))
  }

  /** One step of a worker's loop. */
  function Work(l: Lane, running: bool, pick: nat): Lane
    requires 2 <= |l.queue.threads|
  {
    match l.worker
    case AtTest => if running then InQueue(l, Begin(0, Take)).(worker := Dequeuing) else l.(worker := Exited)
    case Dequeuing =>
      (match l.queue.threads[0]
       case Returned(got) => l.(worker := AtTask(match got case Some(task) => task case None => Empty))
       case _ => InQueue(l, Go(0, pick)))
    case AtTask(task) => l.(worker := AtTest, ran := if task.Empty? then l.ran else l.ran + [task])
    case Exited => l
  }

  /** What can happen next.  `pick` is the thread a notification goes to. */
  datatype Event =
    | Worker(i: nat, pick: nat)
    | WorkerWakes(i: nat)                    // from sleep in dequeue, for no reason
    | Submit(i: nat, t: nat, task: Task)     // a thread calls add_task
    | Adder(i: nat, t: nat, pick: nat)
    | AdderWakes(i: nat, t: nat)
    | Shutdown(pick: nat)

  predicate Sensible(p: Pool, e: Event) {
    match e
    case Worker(i, _) => i < |p.lanes| && 2 <= |p.lanes[i].queue.threads|
    case WorkerWakes(i) => i < |p.lanes| && p.lanes[i].worker.Dequeuing? && 2 <= |p.lanes[i].queue.threads|
    case Submit(i, t, _) => i < |p.lanes| && 2 <= t < |p.lanes[i].queue.threads|
    case Adder(i, t, _) => i < |p.lanes| && 2 <= t < |p.lanes[i].queue.threads|
    case AdderWakes(i, t) => i < |p.lanes| && 2 <= t < |p.lanes[i].queue.threads|
    case Shutdown(_) => forall i :: 0 <= i < |p.lanes| ==> 2 <= |p.lanes[i].queue.threads|
  }

  function At(p: Pool, i: nat, l: Lane): Pool
    requires i < |p.lanes|
  {
    p.(lanes := p.lanes[i := l])
  }

  predicate AllExited(p: Pool) {
    forall i :: 0 <= i < |p.lanes| ==> p.lanes[i].worker.Exited?
  }

  /** One step of `stop_threadpool`. */
  function ShutdownStep(p: Pool, pick: nat): Pool
    requires forall i :: 0 <= i < |p.lanes| ==> 2 <= |p.lanes[i].queue.threads|
  {
    match p.stopper
    case NotCalled => p.(stopper := Calling(0))
    case Calling(i) =>
      if i < |p.lanes| then At(p, i, InQueue(p.lanes[i], Begin(1, Stop))).(stopper := Inside(i))
      else p.(stopper := AtFlag)
    case Inside(i) =>
      if i >= |p.lanes| then p
      else if p.lanes[i].queue.threads[1].Idle? then p.(stopper := Calling(i + 1))
      else At(p, i, InQueue(p.lanes[i], Go(1, pick)))
    case AtFlag => p.(running := false, stopper := Joining)
    case Joining => if AllExited(p) then p.(stopper := Joined) else p
    case Joined => p
  }

  function Happen(p: Pool, e: Event): Pool
    requires Sensible(p, e)
  {
    match e
    case Worker(i, pick) => At(p, i, Work(p.lanes[i], p.running, pick))
    case WorkerWakes(i) => At(p, i, InQueue(p.lanes[i], Spurious(0)))
    case Submit(i, t, task) => At(p, i, InQueue(p.lanes[i], Begin(t, Add(task))))
    case Adder(i, t, pick) => At(p, i, InQueue(p.lanes[i], Go(t, pick)))
    case AdderWakes(i, t) => At(p, i, InQueue(p.lanes[i], Spurious(t)))
    case Shutdown(pick) => ShutdownStep(p, pick)
  }

  // ---------------------------------------------------------------- tasks

  /** The tasks that are not empty. */
  function Jobs(tasks: seq<Task>): seq<Task> {
    if tasks == [] then []
    else
      var rest := Jobs(tasks[..|tasks| - 1]);
      if tasks[|tasks| - 1].Empty? then rest else rest + [tasks[|tasks| - 1]]
  }

  lemma JobsSnoc(tasks: seq<Task>, task: Task)
    ensures Jobs(tasks + [task]) == Jobs(tasks) + Jobs([task])
    ensures Jobs([task]) == if task.Empty? then [] else [task]
  {
    assert (tasks + [task])[..|tasks|] == tasks;
    assert [task][..0] == [];
  }

  lemma {:induction false} JobsPrefix(a: seq<Task>, b: seq<Task>)
    ensures Jobs(a) <= Jobs(a + b)
  {
    if b == [] {
      assert a + b == a;
    } else {
      JobsPrefix(a, b[..|b| - 1]);
      JobsSnoc(a + b[..|b| - 1], b[|b| - 1]);
      assert a + b == a + b[..|b| - 1] + [b[|b| - 1]];
    }
  }

  // ---------------------------------------------------------------- a lane

  predicate TakerPc<T>(pc: Thread<T>) {
    pc.Idle? || pc.TakeWant? || pc.TakeHold? || pc.TakeSleep? || pc.TakeAwake? || pc.TakeGo? || pc.TakeDone?
    || pc.TakeNotify? || pc.Returned?
  }

  predicate StopperPc<T>(pc: Thread<T>) {
    pc.Idle? || pc.StopWant? || pc.StopHold? || pc.StopDone? || pc.StopEmpty? || pc.StopFull?
  }

  predicate AdderPc<T>(pc: Thread<T>) {
    pc.Idle? || pc.AddWant? || pc.AddHold? || pc.AddSleep? || pc.AddAwake? || pc.AddGo? || pc.AddDone? || pc.AddNotify?
  }

  predicate Cast<T>(threads: seq<Thread<T>>) {
    && 2 <= |threads|
    && TakerPc(threads[0]) && StopperPc(threads[1])
    && forall t :: 2 <= t < |threads| ==> AdderPc(threads[t])
  }

  /** The item a thread in dequeue has popped. */
  function Popped<T>(pc: Thread<T>): Option<T> {
    match pc
    case TakeDone(item) => Some(item)
    case TakeNotify(item) => Some(item)
    case Returned(got) => got
    case _ => None
  }

  /** The task the worker has taken but not yet run. */
  function InHand(l: Lane): seq<Task>
    requires l.queue.threads != []
  {
    match l.worker
    case Dequeuing =>
      (match Popped(l.queue.threads[0])
       case Some(task) => Jobs([task])
       case None => [])
    case AtTask(task) => Jobs([task])
    case _ => []
  }

  ghost predicate LaneInv(l: Lane) {
    && Inv(l.queue) && Cast(l.queue.threads)
    && (if l.worker.Dequeuing? then !l.queue.threads[0].Idle? else AtRest(l.queue.threads[0]))
    && Jobs(l.queue.taken) == l.ran + InHand(l)
  }

  /** Moves in the queue that belong to its cast. */
  predicate Proper(l: Lane, m: Move<Task>) {
    && m.t < |l.queue.threads|
    && (m.t == 0 ==> l.worker.Dequeuing? && !m.Begin?)
    && (m.t == 1 ==> m.Begin? ==> m.call.Stop?)
    && (m.t >= 2 ==> m.Begin? ==> m.call.Add?)
  }

  lemma OwnCast(q: State<Task>, m: Move<Task>)
    requires m.t < |q.threads| && (m.Begin? ==> m.t != 0 && (if m.t == 1 then m.call.Stop? else m.call.Add?))
    ensures var pc, pc' := q.threads[m.t], Next(q, m).threads[m.t];
      && (m.t == 0 && TakerPc(pc) ==> TakerPc(pc'))
      && (m.t == 1 && StopperPc(pc) ==> StopperPc(pc'))
      && (2 <= m.t && AdderPc(pc) ==> AdderPc(pc'))
  {
    if m.Go? && Notifies(q.threads[m.t]) {
      NotifierMoves(q, m.t, m.pick);
    }
  }

  lemma ProperKeepsCast(l: Lane, m: Move<Task>)
    requires Proper(l, m) && Cast(l.queue.threads)
    ensures Cast(Next(l.queue, m).threads)
  {
    OwnCast(l.queue, m);
    if m.Go? && Notifies(l.queue.threads[m.t]) {
      NotifyMove(l.queue, m);
    } else {
      PlainMove(l.queue, m);
    }
  }

  /** Only the worker's own pop changes what it has in hand, and it adds exactly what was taken. */
  lemma ProperKeepsTasks(l: Lane, m: Move<Task>)
    requires Proper(l, m) && Cast(l.queue.threads) && StillTrue(l.queue) && Exclusive(l.queue)
    requires Jobs(l.queue.taken) == l.ran + InHand(l)
    ensures var l' := InQueue(l, m); Cast(l'.queue.threads) && Jobs(l'.queue.taken) == l'.ran + InHand(l')
  {
    ProperKeepsCast(l, m);
    if m.t == 0 {
      OwnStep(l, m);
    } else {
      OthersLeaveTasks(l, m);
    }
  }

  lemma OthersLeaveTasks(l: Lane, m: Move<Task>)
    requires Proper(l, m) && m.t != 0 && Cast(l.queue.threads)
    ensures var q, q' := l.queue, Next(l.queue, m);
      q'.taken == q.taken && q'.threads != [] && Popped(q'.threads[0]) == Popped(q.threads[0])
  {
    OtherMovesKeepTaken(l.queue, m);
    if m.Go? && Notifies(l.queue.threads[m.t]) {
      NotifyMove(l.queue, m);
    } else {
      PlainMove(l.queue, m);
    }
  }

  lemma OtherMovesKeepTaken(q: State<Task>, m: Move<Task>)
    requires m.t < |q.threads| && !Pops(q, m)
    ensures Next(q, m).taken == q.taken
  {
    QueueMoves(q, m);
  }

  /** A taker holds just what it popped, until it calls again. */
  lemma OwnPop(q: State<Task>, m: Move<Task>)
    requires m.t < |q.threads| && !m.Begin? && TakerPc(q.threads[m.t]) && StillTrue(q) && Exclusive(q)
    ensures var q' := Next(q, m);
      if m.Go? && q.threads[m.t].TakeGo? && !q.stop then
        && q.queue != [] && q'.taken == q.taken + [q.queue[0]]
        && Popped(q.threads[m.t]) == None && Popped(q'.threads[m.t]) == Some(q.queue[0])
      else
        q'.taken == q.taken && Popped(q'.threads[m.t]) == Popped(q.threads[m.t])
  {
  }

  lemma OwnStep(l: Lane, m: Move<Task>)
    requires Proper(l, m) && m.t == 0 && Cast(l.queue.threads) && StillTrue(l.queue) && Exclusive(l.queue)
    requires Jobs(l.queue.taken) == l.ran + InHand(l)
    ensures var l' := InQueue(l, m); l'.queue.threads != [] && Jobs(l'.queue.taken) == l'.ran + InHand(l')
  {
    var q, q' := l.queue, Next(l.queue, m);
    NextKeepsThreads(q, m);
    OwnPop(q, m);
    if Popped(q.threads[0]) != Popped(q'.threads[0]) {
      JobsSnoc(q.taken, q.queue[0]);
      assert InHand(l) == [];
      assert l.ran + [] == l.ran;
    }
  }

  lemma ProperKeepsLane(l: Lane, m: Move<Task>)
    requires Proper(l, m) && LaneInv(l)
    ensures LaneInv(InQueue(l, m))
  {
    MoveKeepsInv(l.queue, m);
    ProperKeepsTasks(l, m);
    ProperKeepsPlace(l, m);
  }

  lemma ProperKeepsPlace(l: Lane, m: Move<Task>)
    requires Proper(l, m) && Cast(l.queue.threads)
    requires if l.worker.Dequeuing? then !l.queue.threads[0].Idle? else AtRest(l.queue.threads[0])
    ensures var l' := InQueue(l, m);
      l'.queue.threads != [] && if l'.worker.Dequeuing? then !l'.queue.threads[0].Idle? else AtRest(l'.queue.threads[0])
  {
    if m.t == 0 {
    } else if m.Go? && Notifies(l.queue.threads[m.t]) {
      NotifyMove(l.queue, m);
    } else {
      PlainMove(l.queue, m);
    }
  }

  lemma StartTaking(l: Lane)
    requires LaneInv(l) && l.worker.AtTest?
    ensures LaneInv(InQueue(l, Begin(0, Take)).(worker := Dequeuing))
  {
    MoveKeepsInv(l.queue, Begin(0, Take));
    assert Next(l.queue, Begin(0, Take)).threads == l.queue.threads[0 := TakeWant];
  }

  lemma TakeResult(l: Lane)
    requires LaneInv(l) && l.worker.Dequeuing? && l.queue.threads[0].Returned?
    ensures LaneInv(Work(l, true, 0)) && Work(l, true, 0).worker.AtTask?
  {
    var l' := Work(l, true, 0);
    JobsSnoc([], Empty);
    assert l'.queue == l.queue && InHand(l') == InHand(l);
  }

  lemma RunTask(l: Lane)
    requires LaneInv(l) && l.worker.AtTask?
    ensures LaneInv(Work(l, true, 0))
  {
    var l' := Work(l, true, 0);
    TaskRun(l.queue.taken, l.ran, l.worker.task);
    assert l'.queue == l.queue && InHand(l) == Jobs([l.worker.task]) && InHand(l') == [];
  }

  lemma TaskRun(taken: seq<Task>, ran: seq<Task>, task: Task)
    requires Jobs(taken) == ran + Jobs([task])
    ensures Jobs(taken) == (if task.Empty? then ran else ran + [task]) + []
  {
    JobsSnoc([], task);
  }

  lemma WorkKeepsLane(l: Lane, running: bool, pick: nat)
    requires LaneInv(l)
    ensures LaneInv(Work(l, running, pick))
  {
    match l.worker {
      case AtTest =>
        StartTaking(l);
      case Dequeuing =>
        if l.queue.threads[0].Returned? {
          TakeResult(l);
        } else {
          ProperKeepsLane(l, Go(0, pick));
        }
      case AtTask(task) =>
        RunTask(l);
      case Exited =>
    }
  }

  // ---------------------------------------------------------------- the pool

  /** Where the shutdown is, seen from queue i. */
  datatype Phase = Before | Here | After

  function PhaseOf(stopper: Stopper, i: nat): Phase {
    match stopper
    case NotCalled => Before
    case Calling(k) => if i < k then After else Before
    case Inside(k) => if i < k then After else if i == k then Here else Before
    case _ => After
  }

  /** Queues are stopped in turn, by thread 1. */
  predicate LinkOk(q: State<Task>, phase: Phase)
    requires 2 <= |q.threads|
  {
    match phase
    case Before => q.threads[1].Idle?
    case Here => q.stop || q.threads[1].StopWant? || q.threads[1].StopHold?
    case After => q.stop && q.threads[1].Idle?
  }

  ghost predicate LaneAt(p: Pool, i: nat) {
    i < |p.lanes| && LaneInv(p.lanes[i]) && LinkOk(p.lanes[i].queue, PhaseOf(p.stopper, i))
  }

  ghost predicate PoolInv(p: Pool) {
    && (forall i :: 0 <= i < |p.lanes| ==> LaneAt(p, i))
    && (p.running <==> !p.stopper.Joining? && !p.stopper.Joined?)
    && (p.stopper.Calling? ==> p.stopper.i <= |p.lanes|)
    && (p.stopper.Inside? ==> p.stopper.i < |p.lanes|)
    && (p.stopper.Joined? ==> AllExited(p))
  }

  lemma MoveKeepsLink(l: Lane, m: Move<Task>, phase: Phase)
    requires Proper(l, m) && LaneInv(l) && LinkOk(l.queue, phase)
    requires m.t == 1 ==> m.Go? && phase.Here?
    ensures 2 <= |InQueue(l, m).queue.threads| && LinkOk(InQueue(l, m).queue, phase)
  {
    NextKeepsThreads(l.queue, m);
    OnlyStopStops(l.queue, m);
    if m.t == 1 {
      StopperGoesOn(l.queue, m);
    } else {
      StopperStays(l, m);
    }
  }

  lemma StopperGoesOn(q: State<Task>, m: Move<Task>)
    requires 2 <= |q.threads| && m.t == 1 && m.Go? && LinkOk(q, Here) && StopperPc(q.threads[1])
    ensures 2 <= |Next(q, m).threads| && LinkOk(Next(q, m), Here)
  {
  }

  lemma StopperStays(l: Lane, m: Move<Task>)
    requires Proper(l, m) && m.t != 1 && Cast(l.queue.threads)
    ensures 2 <= |Next(l.queue, m).threads| && Next(l.queue, m).threads[1] == l.queue.threads[1]
  {
    if m.Go? && Notifies(l.queue.threads[m.t]) {
      NotifyMove(l.queue, m);
    } else {
      PlainMove(l.queue, m);
    }
  }

  lemma WorkKeepsLink(l: Lane, running: bool, pick: nat, phase: Phase)
    requires LaneInv(l) && LinkOk(l.queue, phase)
    ensures 2 <= |Work(l, running, pick).queue.threads| && LinkOk(Work(l, running, pick).queue, phase)
  {
    if l.worker.Dequeuing? && !l.queue.threads[0].Returned? {
      MoveKeepsLink(l, Go(0, pick), phase);
    }
  }

  /** A change in one lane, with the shutdown where it was. */
  lemma LaneChange(p: Pool, i: nat, l: Lane)
    requires PoolInv(p) && i < |p.lanes| && LaneInv(l) && LinkOk(l.queue, PhaseOf(p.stopper, i))
    requires p.lanes[i].worker.Exited? ==> l.worker.Exited?
    ensures PoolInv(At(p, i, l))
  {
    var p' := At(p, i, l);
    forall k | 0 <= k < |p'.lanes| ensures LaneAt(p', k) {
      assert LaneAt(p, k);
    }
  }

  lemma ShutdownKeeps(p: Pool, pick: nat)
    requires PoolInv(p)
    requires forall i :: 0 <= i < |p.lanes| ==> 2 <= |p.lanes[i].queue.threads|
    ensures PoolInv(ShutdownStep(p, pick))
  {
    var p' := ShutdownStep(p, pick);
    forall k | 0 <= k < |p.lanes| ensures LaneAt(p', k) {
      assert LaneAt(p, k);
      ShutdownKeepsLane(p, pick, k);
    }
  }

  lemma ShutdownKeepsLane(p: Pool, pick: nat, k: nat)
    requires k < |p.lanes| && LaneAt(p, k)
    requires forall i :: 0 <= i < |p.lanes| ==> 2 <= |p.lanes[i].queue.threads|
    requires p.stopper.Calling? ==> p.stopper.i <= |p.lanes|
    ensures LaneAt(ShutdownStep(p, pick), k)
  {
    var l := p.lanes[k];
    ShutdownAtLane(p, pick, k);
    if p.stopper == Calling(k) {
      StopBegins(l);
    } else if p.stopper == Inside(k) && !l.queue.threads[1].Idle? {
      StopGoesOn(l, pick);
    }
  }

  /** What a step of the shutdown means for queue k. */
  lemma ShutdownAtLane(p: Pool, pick: nat, k: nat)
    requires k < |p.lanes| && forall i :: 0 <= i < |p.lanes| ==> 2 <= |p.lanes[i].queue.threads|
    ensures var p', l := ShutdownStep(p, pick), p.lanes[k];
      && |p'.lanes| == |p.lanes|
      && if p.stopper == Calling(k) then
           && p'.lanes[k] == InQueue(l, Begin(1, Stop))
           && PhaseOf(p.stopper, k) == Before && PhaseOf(p'.stopper, k) == Here
         else if p.stopper == Inside(k) then
           && PhaseOf(p.stopper, k) == Here
           && (if l.queue.threads[1].Idle? then p'.lanes[k] == l && PhaseOf(p'.stopper, k) == After
               else p'.lanes[k] == InQueue(l, Go(1, pick)) && PhaseOf(p'.stopper, k) == Here)
         else if p.stopper.Calling? && |p.lanes| < p.stopper.i then true
         else p'.lanes[k] == l && PhaseOf(p'.stopper, k) == PhaseOf(p.stopper, k)
  {
  }

  lemma StopBegins(l: Lane)
    requires LaneInv(l) && LinkOk(l.queue, Before)
    ensures var l' := InQueue(l, Begin(1, Stop)); LaneInv(l') && LinkOk(l'.queue, Here)
  {
    ProperKeepsLane(l, Begin(1, Stop));
  }

  lemma StopGoesOn(l: Lane, pick: nat)
    requires LaneInv(l) && LinkOk(l.queue, Here)
    ensures var l' := InQueue(l, Go(1, pick)); LaneInv(l') && LinkOk(l'.queue, Here)
  {
    ProperKeepsLane(l, Go(1, pick));
    MoveKeepsLink(l, Go(1, pick), Here);
  }

  lemma HappenKeeps(p: Pool, e: Event)
    requires PoolInv(p) && Sensible(p, e)
    ensures PoolInv(Happen(p, e))
  {
    if e.Shutdown? {
      ShutdownKeeps(p, e.pick);
    } else {
      assert LaneAt(p, e.i);
      var l, phase := p.lanes[e.i], PhaseOf(p.stopper, e.i);
      match e {
        case Worker(i, pick) =>
          WorkKeepsLane(l, p.running, pick);
          WorkKeepsLink(l, p.running, pick, phase);
          LaneChange(p, i, Work(l, p.running, pick));
        case WorkerWakes(i) => MoveKeepsPool(p, i, Spurious(0));
        case Submit(i, t, task) => MoveKeepsPool(p, i, Begin(t, Add(task)));
        case Adder(i, t, pick) => MoveKeepsPool(p, i, Go(t, pick));
        case AdderWakes(i, t) => MoveKeepsPool(p, i, Spurious(t));
      }
    }
  }

  lemma MoveKeepsPool(p: Pool, i: nat, m: Move<Task>)
    requires PoolInv(p) && i < |p.lanes| && Proper(p.lanes[i], m) && m.t != 1
    ensures PoolInv(At(p, i, InQueue(p.lanes[i], m)))
  {
    assert LaneAt(p, i);
    ProperKeepsLane(p.lanes[i], m);
    MoveKeepsLink(p.lanes[i], m, PhaseOf(p.stopper, i));
    LaneChange(p, i, InQueue(p.lanes[i], m));
  }

  // ---------------------------------------------------------------- every run

  /** A run; events that make no sense in a state are skipped. */
  ghost function Run(p: Pool, events: seq<Event>): Pool {
    if events == [] then p
    else
      var before := Run(p, events[..|events| - 1]);
      if Sensible(before, events[|events| - 1]) then Happen(before, events[|events| - 1]) else before
  }

  lemma InitPool(p: Pool)
    requires PoolInit(p)
    ensures PoolInv(p)
  {
    forall i | 0 <= i < |p.lanes| ensures LaneAt(p, i) {
      assert LaneInit(p.lanes[i]);
      InitInv(p.lanes[i].queue);
    }
  }

  lemma {:induction false} RunKeepsPool(p: Pool, events: seq<Event>)
    requires PoolInv(p)
    ensures PoolInv(Run(p, events)) && |Run(p, events).lanes| == |p.lanes|
  {
    if events != [] {
      var before, e := Run(p, events[..|events| - 1]), events[|events| - 1];
      RunKeepsPool(p, events[..|events| - 1]);
      if Sensible(before, e) {
        HappenKeeps(before, e);
      }
    }
  }

  /** The tasks run by worker i are, in order, the first of the tasks accepted on queue i, each once; at
      most one task taken from the queue has not been run, and none once the worker has left its
      loop.  The queue stays within its bound. */
  lemma TasksInOrder(p: Pool, events: seq<Event>, i: nat)
    requires PoolInit(p) && i < |p.lanes|
    ensures i < |Run(p, events).lanes|
    ensures var l := Run(p, events).lanes[i];
      && l.ran <= Jobs(l.queue.accepted)
      && l.ran <= Jobs(l.queue.taken) && |Jobs(l.queue.taken)| <= |l.ran| + 1
      && (l.worker.Exited? ==> l.ran == Jobs(l.queue.taken))
      && |l.queue.queue| <= l.queue.max
  {
    InitPool(p);
    RunKeepsPool(p, events);
    assert LaneAt(Run(p, events), i);
    var l := Run(p, events).lanes[i];
    JobsPrefix(l.queue.taken, l.queue.queue);
    if l.worker.AtTask? {
      JobsSnoc([], l.worker.task);
    } else if l.worker.Dequeuing? && Popped(l.queue.threads[0]).Some? {
      JobsSnoc([], Popped(l.queue.threads[0]).value);
    }
  }

  /** Nothing is accepted on a stopped queue or taken from it. */
  predicate Frozen(q: State<Task>, q': State<Task>) {
    q'.stop && q'.accepted == q.accepted && q'.taken == q.taken
  }

  lemma MoveFrozen(q: State<Task>, m: Move<Task>)
    requires m.t < |q.threads| && q.stop
    ensures Frozen(q, Next(q, m))
  {
    QueueMoves(q, m);
  }

  /** What one event does to a stopped queue. */
  lemma QueueChange(p: Pool, e: Event, i: nat)
    requires PoolInv(p) && Sensible(p, e) && i < |p.lanes| && p.lanes[i].queue.stop
    ensures i < |Happen(p, e).lanes|
    ensures Frozen(p.lanes[i].queue, Happen(p, e).lanes[i].queue)
  {
    assert LaneAt(p, i);
    var q := p.lanes[i].queue;
    match e {
      case Worker(k, pick) =>
        if k == i {
          WorkFrozen(p.lanes[i], p.running, pick);
        }
      case WorkerWakes(_) => MoveFrozen(q, Spurious(0));
      case Submit(k, t, task) => if k == i { MoveFrozen(q, Begin(t, Add(task))); }
      case Adder(k, t, pick) => if k == i { MoveFrozen(q, Go(t, pick)); }
      case AdderWakes(k, t) => if k == i { MoveFrozen(q, Spurious(t)); }
      case Shutdown(pick) => ShutdownChange(p, pick, i);
    }
  }

  lemma ShutdownChange(p: Pool, pick: nat, i: nat)
    requires PoolInv(p) && Sensible(p, Shutdown(pick)) && i < |p.lanes| && p.lanes[i].queue.stop
    ensures i < |Happen(p, Shutdown(pick)).lanes|
    ensures Frozen(p.lanes[i].queue, Happen(p, Shutdown(pick)).lanes[i].queue)
  {
    assert LaneAt(p, i);
    MoveFrozen(p.lanes[i].queue, Begin(1, Stop));
    MoveFrozen(p.lanes[i].queue, Go(1, pick));
  }

  lemma WorkFrozen(l: Lane, running: bool, pick: nat)
    requires 2 <= |l.queue.threads| && l.queue.stop
    ensures Frozen(l.queue, Work(l, running, pick).queue)
  {
    MoveFrozen(l.queue, Begin(0, Take));
    MoveFrozen(l.queue, Go(0, pick));
  }

  /** Once a queue is stopped nothing is accepted on it or taken from it, whatever happens in the
      pool. */
  lemma {:induction false} StoppedQueueIsFrozen(p: Pool, events: seq<Event>, i: nat)
    requires PoolInv(p) && i < |p.lanes| && p.lanes[i].queue.stop
    ensures i < |Run(p, events).lanes|
    ensures Frozen(p.lanes[i].queue, Run(p, events).lanes[i].queue)
  {
    if events != [] {
      var before, e := Run(p, events[..|events| - 1]), events[|events| - 1];
      StoppedQueueIsFrozen(p, events[..|events| - 1], i);
      RunKeepsPool(p, events[..|events| - 1]);
      if Sensible(before, e) {
        QueueChange(before, e, i);
      }
    }
  }

  // ---------------------------------------------------------------- shutdown completes

  /** No thread of the pool can go on by itself. */
  ghost predicate PoolStuck(p: Pool) {
    forall e :: Sensible(p, e) && (e.Worker? || e.Adder? || e.Shutdown?) ==> Happen(p, e) == p
  }

  lemma QueueIsStuck(p: Pool, i: nat)
    requires PoolInv(p) && PoolStuck(p) && i < |p.lanes|
    ensures BlockingTheorems.Stuck(p.lanes[i].queue)
  {
    assert LaneAt(p, i);
    var l := p.lanes[i];
    forall t: nat, pick: nat | t < |l.queue.threads| ensures Step(l.queue, t, pick) == l.queue {
      ThreadIsStuck(p, i, t, pick);
    }
  }

  lemma ThreadIsStuck(p: Pool, i: nat, t: nat, pick: nat)
    requires PoolInv(p) && PoolStuck(p) && LaneAt(p, i) && t < |p.lanes[i].queue.threads|
    ensures Step(p.lanes[i].queue, t, pick) == p.lanes[i].queue
  {
    var l := p.lanes[i];
    if t == 0 {
      if !AtRest(l.queue.threads[0]) {
        assert Happen(p, Worker(i, pick)) == p;
        assert Happen(p, Worker(i, pick)).lanes[i] == l;
      }
    } else if t == 1 {
      if !l.queue.threads[1].Idle? {
        AllWide(p);
        assert Happen(p, Shutdown(pick)) == p;
        assert Happen(p, Shutdown(pick)).lanes[i] == l;
      }
    } else {
      assert Happen(p, Adder(i, t, pick)) == p;
      assert Happen(p, Adder(i, t, pick)).lanes[i] == l;
    }
  }

  lemma AllWide(p: Pool)
    requires PoolInv(p)
    ensures Sensible(p, Shutdown(0)) && forall pick: nat :: Sensible(p, Shutdown(pick))
  {
    forall i | 0 <= i < |p.lanes| ensures 2 <= |p.lanes[i].queue.threads| {
      assert LaneAt(p, i);
    }
  }

  /** When no thread can go on, a shutdown that was begun is complete: every worker has left its loop
      and has been joined. */
  lemma ShutdownCompletes(p: Pool)
    requires PoolInv(p) && PoolStuck(p) && !p.stopper.NotCalled?
    ensures p.stopper.Joined? && AllExited(p)
  {
    AllWide(p);
    assert Happen(p, Shutdown(0)) == p;
    if p.stopper.Inside? {
      assert LaneAt(p, p.stopper.i);
      QueueIsStuck(p, p.stopper.i);
      BlockingTheorems.StuckForAReason(p.lanes[p.stopper.i].queue);
    } else if p.stopper.Joining? {
      forall i | 0 <= i < |p.lanes| ensures p.lanes[i].worker.Exited? {
        WorkerHasLeft(p, i);
      }
    }
  }

  lemma WorkerHasLeft(p: Pool, i: nat)
    requires PoolInv(p) && PoolStuck(p) && p.stopper.Joining? && i < |p.lanes|
    ensures p.lanes[i].worker.Exited?
  {
    assert LaneAt(p, i);
    QueueIsStuck(p, i);
    BlockingTheorems.StuckForAReason(p.lanes[i].queue);
    assert Happen(p, Worker(i, 0)) == p;
    assert Happen(p, Worker(i, 0)).lanes[i] == p.lanes[i];
  }

  // ---------------------------------------------------------------- and it ends

  function WorkerEffort(w: Worker): nat {
    match w
    case Exited => 0
    case AtTest => 1
    case AtTask(_) => 2
    case Dequeuing => 3
  }

  /** Steps that are left in a lane once the running flag is cleared. */
  function LaneEffort(l: Lane): nat {
    BlockingTheorems.Efforts(l.queue.threads) + WorkerEffort(l.worker)
  }

  function LanesEffort(lanes: seq<Lane>): nat {
    Total(lanes, LaneEffort)
  }

  function PoolEffort(p: Pool): nat {
    LanesEffort(p.lanes) + if p.stopper.Joined? then 0 else 1
  }

  /** The lane is as it was, or has less left to do. */
  predicate Shrinks(l: Lane, l': Lane) {
    l' == l || LaneEffort(l') < LaneEffort(l)
  }

  lemma MoveShrinksLane(l: Lane, m: Move<Task>)
    requires m.t < |l.queue.threads| && l.queue.stop && !m.Begin?
    ensures Shrinks(l, InQueue(l, m))
  {
    BlockingTheorems.MoveShrinks(l.queue, m);
  }

  lemma WorkShrinksLane(l: Lane, pick: nat)
    requires 2 <= |l.queue.threads| && l.queue.stop
    ensures Shrinks(l, Work(l, false, pick))
  {
    if l.worker.Dequeuing? && !l.queue.threads[0].Returned? {
      MoveShrinksLane(l, Go(0, pick));
    }
  }

  lemma AtShrinks(p: Pool, i: nat, l: Lane)
    requires i < |p.lanes| && Shrinks(p.lanes[i], l)
    ensures At(p, i, l) == p || PoolEffort(At(p, i, l)) < PoolEffort(p)
  {
    TotalUpdate(p.lanes, LaneEffort, i, l);
    assert p.lanes[i := p.lanes[i]] == p.lanes;
  }

  /** With the running flag cleared and no task submitted, every event that changes anything leaves less
      to do. */
  lemma EventShrinks(p: Pool, e: Event)
    requires PoolInv(p) && !p.running && Sensible(p, e) && !e.Submit?
    ensures Happen(p, e) == p || PoolEffort(Happen(p, e)) < PoolEffort(p)
    ensures !Happen(p, e).running
  {
    if !e.Shutdown? {
      assert LaneAt(p, e.i);
      var l := p.lanes[e.i];
      match e {
        case Worker(i, pick) =>
          WorkShrinksLane(l, pick);
          AtShrinks(p, i, Work(l, false, pick));
        case WorkerWakes(i) =>
          MoveShrinksLane(l, Spurious(0));
          AtShrinks(p, i, InQueue(l, Spurious(0)));
        case Adder(i, t, pick) =>
          MoveShrinksLane(l, Go(t, pick));
          AtShrinks(p, i, InQueue(l, Go(t, pick)));
        case AdderWakes(i, t) =>
          MoveShrinksLane(l, Spurious(t));
          AtShrinks(p, i, InQueue(l, Spurious(t)));
      }
    }
  }

  /** How many of the events change anything. */
  ghost function Changed(p: Pool, events: seq<Event>): nat {
    if events == [] then 0
    else
      var n := |events| - 1;
      Changed(p, events[..n]) + if Run(p, events) == Run(p, events[..n]) then 0 else 1
  }

  lemma {:induction false} ChangedBounded(p: Pool, events: seq<Event>)
    requires PoolInv(p) && !p.running && forall i :: 0 <= i < |events| ==> !events[i].Submit?
    ensures Changed(p, events) + PoolEffort(Run(p, events)) <= PoolEffort(p)
    ensures !Run(p, events).running
  {
    if events != [] {
      var n := |events| - 1;
      ChangedBounded(p, events[..n]);
      RunKeepsPool(p, events[..n]);
      if Sensible(Run(p, events[..n]), events[n]) {
        EventShrinks(Run(p, events[..n]), events[n]);
      }
    }
  }

  function Threads(lanes: seq<Lane>): nat {
    Total(lanes, (l: Lane) => |l.queue.threads|)
  }

  lemma {:induction false} EffortBounded(lanes: seq<Lane>)
    ensures LanesEffort(lanes) <= 5 * Threads(lanes) + 3 * |lanes|
  {
    if lanes != [] {
      EffortBounded(lanes[..|lanes| - 1]);
      BlockingTheorems.EffortsBounded(lanes[|lanes| - 1].queue.threads);
    }
  }

  /** A shutdown ends.  Once the running flag is cleared, and with no task submitted after that, the
      number of events that change anything is bounded, whatever the scheduler does; and when no
      thread can go on any more, every worker has left its loop and has been joined. */
  lemma ShutdownTerminates(p: Pool, before: seq<Event>, after: seq<Event>)
    requires PoolInit(p) && !Run(p, before).running
    requires forall i :: 0 <= i < |after| ==> !after[i].Submit?
    ensures var q := Run(p, before);
      Changed(q, after) <= 5 * Threads(q.lanes) + 3 * |q.lanes| + 1
    ensures var r := Run(Run(p, before), after);
      PoolStuck(r) ==> r.stopper.Joined? && AllExited(r)
  {
    var q := Run(p, before);
    InitPool(p);
    RunKeepsPool(p, before);
    ChangedBounded(q, after);
    EffortBounded(q.lanes);
    RunKeepsPool(q, after);
    var r := Run(q, after);
    if PoolStuck(r) {
      ShutdownCompletes(r);
    }
  }
}
