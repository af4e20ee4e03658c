/** The bounded blocking queue of the worker pool: one mutex, two condition variables.

    Every thread has a program counter, and one step of a thread is one thing other threads can see:
    taking or releasing the mutex, evaluating a waiting condition (going to sleep releases the mutex
    in the same step), changing the queue or the stop flag under the mutex, notifying.  A notification
    wakes a thread that sleeps at that moment or is lost; sleepers may also wake up for no reason. */
module BlockingQueue {
  import opened Sequences

  datatype Thread<T> =
    | Idle
    | AddWant(item: T)          // before the mutex, on the first try
    | AddHold(item: T)          // holds the mutex, before the waiting condition is evaluated
    | AddSleep(item: T)         // waits for "not full"
    | AddAwake(item: T)         // woken up, before the mutex
    | AddGo(item: T)            // holds the mutex, the condition was true
    | AddDone                   // holds the mutex, has pushed
    | AddNotify                 // before notifying "not empty"
    | TakeWant
    | TakeHold
    | TakeSleep                 // waits for "not empty"
    | TakeAwake
    | TakeGo
    | TakeDone(item: T)         // holds the mutex, has popped
    | TakeNotify(item: T)       // before notifying "not full"
    | Returned(got: Option<T>)  // dequeue has returned; nothing was taken if the queue is stopped
    | StopWant
    | StopHold
    | StopDone                  // holds the mutex, has set the flag
    | StopEmpty                 // before waking everyone that waits for "not empty"
    | StopFull                  // before waking everyone that waits for "not full"

  datatype Call<T> = Add(item: T) | Take | Stop

  /** The fields from `accepted` on are history variables: all items pushed and the thread that pushed each,
      all items popped, and by thread the items whose add found the queue stopped. */
  datatype State<T> = State(
    max: nat,
    threads: seq<Thread<T>>,
    mutex: Option<nat>,
    queue: seq<T>,
    stop: bool,
    accepted: seq<T>,
    adders: seq<nat>,
    taken: seq<T>,
    refused: seq<seq<T>>)

  ghost predicate Init<T>(s: State<T>) {
    && (forall t :: 0 <= t < |s.threads| ==> s.threads[t].Idle?)
    && s.mutex == None && s.queue == s.accepted == s.taken == [] && s.adders == [] && !s.stop
    && s.refused == seq(|s.threads|, _ => [])
  }

  // ---------------------------------------------------------------- steps

  function At<T>(s: State<T>, t: nat, pc: Thread<T>): State<T>
    requires t < |s.threads|
  {
    s.(threads := s.threads[t := pc])
  }

  function Lock<T>(s: State<T>, t: nat, pc: Thread<T>): State<T>
    requires t < |s.threads|
  {
    if s.mutex == None then At(s, t, pc).(mutex := Some(t)) else s
  }

  function Unlock<T>(s: State<T>, t: nat, pc: Thread<T>): State<T>
    requires t < |s.threads|
  {
    At(s, t, pc).(mutex := None)
  }

  function Push<T>(s: State<T>, t: nat, item: T): State<T>
    requires t < |s.threads|
  {
    At(s, t, AddDone).(queue := s.queue + [item], accepted := s.accepted + [item], adders := s.adders + [t])
  }

  /** An add that finds the queue stopped returns without its item. */
  function Refuse<T>(s: State<T>, t: nat, item: T): State<T>
    requires t < |s.threads|
  {
    Unlock(s, t, Idle).(refused := if t < |s.refused| then s.refused[t := s.refused[t] + [item]] else s.refused)
  }

  function Pop<T>(s: State<T>, t: nat): State<T>
    requires t < |s.threads|
  {
    if s.queue == [] then s
    else At(s, t, TakeDone(s.queue[0])).(queue := s.queue[1..], taken := s.taken + [s.queue[0]])
  }

  function Woken<T>(pc: Thread<T>): Thread<T> {
    match pc
    case AddSleep(item) => AddAwake(item)
    case TakeSleep => TakeAwake
    case _ => pc
  }

  /** The thread a notification wakes: pick, if it sleeps for this reason; nobody, if nobody does. */
  function NotifyTaker<T>(threads: seq<Thread<T>>, pick: nat): (woken: Option<seq<Thread<T>>>)
    ensures woken.Some? ==> |woken.value| == |threads|
  {
    if pick < |threads| && threads[pick].TakeSleep? then Some(threads[pick := TakeAwake])
    else if Count(threads, SleepingTaker) == 0 then Some(threads)
    else None
  }

  function NotifyAdder<T>(threads: seq<Thread<T>>, pick: nat): (woken: Option<seq<Thread<T>>>)
    ensures woken.Some? ==> |woken.value| == |threads|
  {
    if pick < |threads| && threads[pick].AddSleep? then Some(threads[pick := AddAwake(threads[pick].item)])
    else if Count(threads, SleepingAdder) == 0 then Some(threads)
    else None
  }

  function WakeTakers<T>(threads: seq<Thread<T>>): (awake: seq<Thread<T>>)
    ensures |awake| == |threads|
  {
    seq(|threads|, i requires 0 <= i < |threads| => if threads[i].TakeSleep? then TakeAwake else threads[i])
  }

  function WakeAdders<T>(threads: seq<Thread<T>>): (awake: seq<Thread<T>>)
    ensures |awake| == |threads|
  {
    seq(|threads|, i requires 0 <= i < |threads| =>
      if threads[i].AddSleep? then AddAwake(threads[i].item) else threads[i])
  }

  /** Thread t takes its next step; `pick` is the thread a notification goes to.  A thread that cannot
      go on leaves the state as it is. */
  function Step<T>(s: State<T>, t: nat, pick: nat): (s': State<T>)
    requires t < |s.threads|
    ensures |s'.threads| == |s.threads|
  {
    match s.threads[t]
    case Idle => s
    case AddWant(item) => Lock(s, t, AddHold(item))
    case AddAwake(item) => Lock(s, t, AddHold(item))
    case AddHold(item) =>
      if |s.queue| < s.max || s.stop then At(s, t, AddGo(item)) else Unlock(s, t, AddSleep(item))
    case AddSleep(_) => s
    case AddGo(item) => if s.stop then Refuse(s, t, item) else Push(s, t, item)
    case AddDone => Unlock(s, t, AddNotify)
    case AddNotify =>
      (match NotifyTaker(s.threads, pick)
       case Some(woken) => s.(threads := woken[t := Idle])
       case None => s)
    case TakeWant => Lock(s, t, TakeHold)
    case TakeAwake => Lock(s, t, TakeHold)
    case TakeHold =>
      if s.queue != [] || s.stop then At(s, t, TakeGo) else Unlock(s, t, TakeSleep)
    case TakeSleep => s
    case TakeGo => if s.stop then Unlock(s, t, Returned(None)) else Pop(s, t)
    case TakeDone(item) => Unlock(s, t, TakeNotify(item))
    case TakeNotify(item) =>
      (match NotifyAdder(s.threads, pick)
       case Some(woken) => s.(threads := woken[t := Returned(Some(item))])
       case None => s)
    case Returned(_) => s
    case StopWant => Lock(s, t, StopHold)
    case StopHold => At(s, t, StopDone).(stop := true)
    case StopDone => Unlock(s, t, StopEmpty)
    case StopEmpty => s.(threads := WakeTakers(s.threads)[t := StopFull])
    case StopFull => s.(threads := WakeAdders(s.threads)[t := Idle])
  }

  function Start<T>(call: Call<T>): Thread<T> {
    match call
    case Add(item) => AddWant(item)
    case Take => TakeWant
    case Stop => StopWant
  }

  /** What can happen next: a thread that is at rest calls an operation, a thread takes a step, or a
      sleeper wakes up for no reason. */
  datatype Move<T> = Begin(t: nat, call: Call<T>) | Go(t: nat, pick: nat) | Spurious(t: nat)

  predicate AtRest<T>(pc: Thread<T>) {
    pc.Idle? || pc.Returned?
  }

  function Next<T>(s: State<T>, m: Move<T>): (s': State<T>)
    requires m.t < |s.threads|
    ensures |s'.threads| == |s.threads|
  {
    match m
    case Begin(t, call) => if AtRest(s.threads[t]) then At(s, t, Start(call)) else s
    case Go(t, pick) => Step(s, t, pick)
    case Spurious(t) => At(s, t, Woken(s.threads[t]))
  }

  lemma NextKeepsThreads<T>(s: State<T>, m: Move<T>)
    requires m.t < |s.threads|
    ensures |Next(s, m).threads| == |s.threads| && Next(s, m).max == s.max
  {
  }

  predicate Possible<T>(n: nat, moves: seq<Move<T>>) {
    forall i :: 0 <= i < |moves| ==> moves[i].t < n
  }

  function Run<T>(s: State<T>, moves: seq<Move<T>>): (s': State<T>)
    requires Possible(|s.threads|, moves)
    ensures |s'.threads| == |s.threads|
  {
    if moves == [] then s
    else
      var before := Run(s, moves[..|moves| - 1]);
      NextKeepsThreads(before, moves[|moves| - 1]);
      Next(before, moves[|moves| - 1])
  }

  // ---------------------------------------------------------------- counting threads

  /** What a thread is doing, as far as the waiting protocol is concerned. */
  datatype Role =
    | SleepingTaker | RunningTaker | NotifyingTakers | SleepingAdder | RunningAdder | NotifyingAdders
    | WakingTakers | WakingAdders

  /** A thread that was woken up, or is about to look at the queue without having slept. */
  predicate Is<T>(pc: Thread<T>, role: Role) {
    match role
    case SleepingTaker => pc.TakeSleep?
    case RunningTaker => pc.TakeAwake? || pc.TakeHold? || pc.TakeGo?
    case NotifyingTakers => pc.AddDone? || pc.AddNotify?
    case SleepingAdder => pc.AddSleep?
    case RunningAdder => pc.AddAwake? || pc.AddHold? || pc.AddGo?
    case NotifyingAdders => pc.TakeDone? || pc.TakeNotify?
    case WakingTakers => pc.StopDone? || pc.StopEmpty?
    case WakingAdders => pc.StopDone? || pc.StopEmpty? || pc.StopFull?
  }

  function One<T>(pc: Thread<T>, role: Role): nat {
    if Is(pc, role) then 1 else 0
  }

  function Count<T>(threads: seq<Thread<T>>, role: Role): nat {
    if threads == [] then 0 else Count(threads[..|threads| - 1], role) + One(threads[|threads| - 1], role)
  }

  lemma {:induction false} CountUpdate<T>(threads: seq<Thread<T>>, t: nat, pc: Thread<T>, role: Role)
    requires t < |threads|
    ensures Count(threads[t := pc], role) + One(threads[t], role) == Count(threads, role) + One(pc, role)
  {
    var n := |threads| - 1;
    if t == n {
      assert threads[t := pc][..n] == threads[..n];
    } else {
      assert threads[t := pc][..n] == threads[..n][t := pc];
      CountUpdate(threads[..n], t, pc, role);
    }
  }

  lemma {:induction false} CountZero<T>(threads: seq<Thread<T>>, role: Role)
    ensures Count(threads, role) == 0 <==> forall t :: 0 <= t < |threads| ==> !Is(threads[t], role)
  {
    if threads != [] {
      CountZero(threads[..|threads| - 1], role);
    }
  }

  lemma {:induction false} CountSame<T>(a: seq<Thread<T>>, b: seq<Thread<T>>, role: Role)
    requires |a| == |b|
    requires forall t :: 0 <= t < |a| ==> (Is(a[t], role) <==> Is(b[t], role))
    ensures Count(a, role) == Count(b, role)
  {
    if a != [] {
      CountSame(a[..|a| - 1], b[..|b| - 1], role);
    }
  }

  // ---------------------------------------------------------------- the invariant

  predicate Holds<T>(pc: Thread<T>) {
    || pc.AddHold? || pc.AddGo? || pc.AddDone?
    || pc.TakeHold? || pc.TakeGo? || pc.TakeDone?
    || pc.StopHold? || pc.StopDone?
  }

  /** At most one thread is in a critical section, the one the mutex belongs to. */
  ghost predicate Exclusive<T>(s: State<T>) {
    && (s.mutex.Some? ==> s.mutex.value < |s.threads|)
    && forall t :: 0 <= t < |s.threads| ==> (Holds(s.threads[t]) <==> s.mutex == Some(t))
  }

  /** A condition found true under the mutex still is. */
  ghost predicate StillTrue<T>(s: State<T>) {
    s.mutex.Some? && s.mutex.value < |s.threads| ==>
      var pc := s.threads[s.mutex.value];
      && (pc.AddGo? ==> |s.queue| < s.max || s.stop)
      && (pc.TakeGo? ==> s.queue != [] || s.stop)
  }

  /** First in, first out, within the bound. */
  ghost predicate Fifo<T>(s: State<T>) {
    s.accepted == s.taken + s.queue && |s.queue| <= s.max
  }

  /** While there is something to take, a sleeping taker has a notification coming or another taker
      on its way, one for every item. */
  predicate TakersServed<T>(s: State<T>) {
    Count(s.threads, SleepingTaker) > 0 ==>
      |s.queue| <= Count(s.threads, NotifyingTakers) + Count(s.threads, RunningTaker)
  }

  /** Likewise for sleeping adders and free places. */
  predicate AddersServed<T>(s: State<T>) {
    Count(s.threads, SleepingAdder) > 0 ==>
      s.max - |s.queue| <= Count(s.threads, NotifyingAdders) + Count(s.threads, RunningAdder)
  }

  /** After a stop, whoever still sleeps is about to be woken. */
  predicate WakingAll<T>(s: State<T>) {
    && (Count(s.threads, SleepingTaker) > 0 ==> Count(s.threads, WakingTakers) > 0)
    && (Count(s.threads, SleepingAdder) > 0 ==> Count(s.threads, WakingAdders) > 0)
  }

  /** Only a stop wakes everybody. */
  predicate StopSeen<T>(s: State<T>) {
    forall t :: 0 <= t < |s.threads| && Is(s.threads[t], WakingAdders) ==> s.stop
  }

  ghost predicate Inv<T>(s: State<T>) {
    && Exclusive(s) && StillTrue(s) && Fifo(s) && StopSeen(s)
    && (if s.stop then WakingAll(s) else TakersServed(s) && AddersServed(s))
  }

  // ---------------------------------------------------------------- one move keeps it

  predicate Notifies<T>(pc: Thread<T>) {
    pc.AddNotify? || pc.TakeNotify? || pc.StopEmpty? || pc.StopFull?
  }

  /** Every other move changes one program counter. */
  lemma PlainMove<T>(s: State<T>, m: Move<T>)
    requires m.t < |s.threads| && (m.Go? ==> !Notifies(s.threads[m.t]))
    ensures Next(s, m).threads == s.threads[m.t := Next(s, m).threads[m.t]]
  {
    assert s.threads[m.t := s.threads[m.t]] == s.threads;
  }

  /** What a thread does after its notification. */
  lemma NotifierMoves<T>(s: State<T>, t: nat, pick: nat)
    requires t < |s.threads| && Notifies(s.threads[t])
    ensures var pc, pc' := s.threads[t], Step(s, t, pick).threads[t];
      match pc
      case AddNotify => pc' == pc || pc' == Idle
      case TakeNotify(item) => pc' == pc || pc' == Returned(Some(item))
      case StopEmpty => pc' == StopFull
      case _ => pc' == Idle
  {
  }

  /** Notifying wakes sleepers and touches nothing else. */
  lemma NotifyMove<T>(s: State<T>, m: Move<T>)
    requires m.t < |s.threads| && m.Go? && Notifies(s.threads[m.t])
    ensures var s' := Next(s, m);
      && s' == s.(threads := s'.threads)
      && !Holds(s'.threads[m.t])
      && (Is(s'.threads[m.t], WakingAdders) ==> Is(s.threads[m.t], WakingAdders))
      && forall u :: 0 <= u < |s.threads| && u != m.t ==>
           s'.threads[u] == s.threads[u] || s'.threads[u] == Woken(s.threads[u])
  {
  }

  /** The mutex changes hands with the critical sections. */
  lemma LockMoves<T>(s: State<T>, m: Move<T>)
    requires m.t < |s.threads| && (m.Go? ==> !Notifies(s.threads[m.t]))
    ensures var s' := Next(s, m);
      if Holds(s.threads[m.t]) then s'.mutex == if Holds(s'.threads[m.t]) then s.mutex else None
      else if Holds(s'.threads[m.t]) then s.mutex == None && s'.mutex == Some(m.t)
      else s'.mutex == s.mutex
  {
  }

  lemma MoveKeepsLock<T>(s: State<T>, m: Move<T>)
    requires m.t < |s.threads| && Exclusive(s)
    ensures Exclusive(Next(s, m))
  {
    if m.Go? && Notifies(s.threads[m.t]) {
      NotifyMove(s, m);
    } else {
      PlainMove(s, m);
      LockMoves(s, m);
    }
  }

  predicate Pushes<T>(s: State<T>, m: Move<T>)
    requires m.t < |s.threads|
  {
    m.Go? && s.threads[m.t].AddGo? && !s.stop
  }

  predicate Pops<T>(s: State<T>, m: Move<T>)
    requires m.t < |s.threads|
  {
    m.Go? && s.threads[m.t].TakeGo? && !s.stop
  }

  lemma OtherMovesKeepQueue<T>(s: State<T>, m: Move<T>)
    requires m.t < |s.threads| && !Pushes(s, m) && !Pops(s, m)
    ensures var s' := Next(s, m);
      s'.queue == s.queue && s'.accepted == s.accepted && s'.taken == s.taken
  {
  }

  lemma OnlyStopStops<T>(s: State<T>, m: Move<T>)
    requires m.t < |s.threads|
    ensures Next(s, m).stop <==> s.stop || (m.Go? && s.threads[m.t].StopHold?)
  {
  }

  /** Pushing and popping is all that happens to the queue; only a stop sets the flag. */
  lemma QueueMoves<T>(s: State<T>, m: Move<T>)
    requires m.t < |s.threads|
    ensures var s' := Next(s, m);
      && (if Pushes(s, m) then s' == Push(s, m.t, s.threads[m.t].item)
          else if Pops(s, m) then s' == Pop(s, m.t)
          else s'.queue == s.queue && s'.accepted == s.accepted && s'.taken == s.taken)
      && (s'.stop <==> s.stop || (m.Go? && s.threads[m.t].StopHold?))
      && s'.max == s.max
  {
    NextKeepsThreads(s, m);
    OnlyStopStops(s, m);
    if !Pushes(s, m) && !Pops(s, m) {
      OtherMovesKeepQueue(s, m);
    }
  }

  lemma MoveKeepsFifo<T>(s: State<T>, m: Move<T>)
    requires m.t < |s.threads| && Exclusive(s) && StillTrue(s) && Fifo(s)
    ensures Fifo(Next(s, m))
  {
    QueueMoves(s, m);
    var pc := s.threads[m.t];
    if pc.AddGo? {
      assert s.accepted + [pc.item] == s.taken + (s.queue + [pc.item]);
    } else if pc.TakeGo? && s.queue != [] {
      assert s.taken + s.queue == s.taken + [s.queue[0]] + s.queue[1..];
    }
  }

  lemma MoveKeepsChecks<T>(s: State<T>, m: Move<T>)
    requires m.t < |s.threads| && Exclusive(s) && StillTrue(s) && Fifo(s)
    ensures StillTrue(Next(s, m))
  {
  }

  lemma MoveKeepsStop<T>(s: State<T>, m: Move<T>)
    requires m.t < |s.threads| && StopSeen(s)
    ensures StopSeen(Next(s, m))
  {
    if m.Go? && Notifies(s.threads[m.t]) {
      NotifyMove(s, m);
    } else {
      PlainMove(s, m);
      QueueMoves(s, m);
    }
  }

  // ---------------------------------------------------------------- wake-ups

  lemma PlainCount<T>(s: State<T>, m: Move<T>, role: Role)
    requires m.t < |s.threads| && (m.Go? ==> !Notifies(s.threads[m.t]))
    ensures var s' := Next(s, m);
      Count(s'.threads, role) + One(s.threads[m.t], role) == Count(s.threads, role) + One(s'.threads[m.t], role)
  {
    PlainMove(s, m);
    CountUpdate(s.threads, m.t, Next(s, m).threads[m.t], role);
  }

  lemma PlainKeepsTakers<T>(s: State<T>, m: Move<T>)
    requires m.t < |s.threads| && (m.Go? ==> !Notifies(s.threads[m.t]))
    requires Exclusive(s) && StillTrue(s) && TakersServed(s) && !s.stop && !Next(s, m).stop
    ensures TakersServed(Next(s, m))
  {
    PlainCount(s, m, SleepingTaker);
    PlainCount(s, m, NotifyingTakers);
    PlainCount(s, m, RunningTaker);
    QueueMoves(s, m);
  }

  lemma PlainKeepsAdders<T>(s: State<T>, m: Move<T>)
    requires m.t < |s.threads| && (m.Go? ==> !Notifies(s.threads[m.t]))
    requires Exclusive(s) && StillTrue(s) && AddersServed(s) && !s.stop && !Next(s, m).stop
    ensures AddersServed(Next(s, m))
  {
    PlainCount(s, m, SleepingAdder);
    PlainCount(s, m, NotifyingAdders);
    PlainCount(s, m, RunningAdder);
    QueueMoves(s, m);
  }

  /** What a thread's wake-up and another's move do to every count. */
  ghost predicate Recounted<T>(threads: seq<Thread<T>>, threads': seq<Thread<T>>, a: Thread<T>, a': Thread<T>,
                               b: Thread<T>, b': Thread<T>) {
    forall role ::
      Count(threads', role) + One(a, role) + One(b, role) == Count(threads, role) + One(a', role) + One(b', role)
  }

  lemma Recount<T>(threads: seq<Thread<T>>, pick: nat, a: Thread<T>, t: nat, b: Thread<T>)
    requires pick < |threads| && t < |threads| && pick != t
    ensures Recounted(threads, threads[pick := a][t := b], threads[pick], a, threads[t], b)
  {
    forall role
      ensures Count(threads[pick := a][t := b], role) + One(threads[pick], role) + One(threads[t], role)
              == Count(threads, role) + One(a, role) + One(b, role)
    {
      CountUpdate(threads, pick, a, role);
      CountUpdate(threads[pick := a], t, b, role);
    }
  }

  lemma RecountOne<T>(threads: seq<Thread<T>>, t: nat, pc: Thread<T>)
    requires t < |threads|
    ensures Recounted(threads, threads[t := pc], pc, pc, threads[t], pc)
  {
    forall role ensures Count(threads[t := pc], role) + One(threads[t], role) == Count(threads, role) + One(pc, role) {
      CountUpdate(threads, t, pc, role);
    }
  }

  /** The thread that t's notification wakes, if any: pick, when it sleeps for t's reason. */
  predicate Wakes<T>(threads: seq<Thread<T>>, t: nat, pick: nat)
    requires t < |threads|
  {
    pick < |threads| && if threads[t].AddNotify? then threads[pick].TakeSleep? else threads[pick].AddSleep?
  }

  /** Notifying one: the woken thread runs now, or nobody sleeps for this reason, or pick is no good. */
  lemma NotifyRecounts<T>(s: State<T>, t: nat, pick: nat)
    requires t < |s.threads| && (s.threads[t].AddNotify? || s.threads[t].TakeNotify?)
    ensures var s' := Step(s, t, pick);
      var pc, pc' := s.threads[t], s'.threads[t];
      && s' == s.(threads := s'.threads)
      && (s' == s || pc' == if pc.AddNotify? then Idle else Returned(Some(pc.item)))
      && (Wakes(s.threads, t, pick) ==>
            && Count(s.threads, if pc.AddNotify? then SleepingTaker else SleepingAdder) > 0
            && Recounted(s.threads, s'.threads, s.threads[pick], Woken(s.threads[pick]), pc, pc'))
      && (!Wakes(s.threads, t, pick) && s' != s ==>
            && Count(s.threads, if pc.AddNotify? then SleepingTaker else SleepingAdder) == 0
            && Recounted(s.threads, s'.threads, pc', pc', pc, pc'))
  {
    if Wakes(s.threads, t, pick) {
      WakeRecounts(s, t, pick);
    } else {
      var pc := s.threads[t];
      RecountOne(s.threads, t, if pc.AddNotify? then Idle else Returned(Some(pc.item)));
    }
  }

  lemma WakeRecounts<T>(s: State<T>, t: nat, pick: nat)
    requires t < |s.threads| && (s.threads[t].AddNotify? || s.threads[t].TakeNotify?) && Wakes(s.threads, t, pick)
    ensures var s' := Step(s, t, pick);
      var pc, pc' := s.threads[t], s'.threads[t];
      && s' == s.(threads := s'.threads)
      && pc' == (if pc.AddNotify? then Idle else Returned(Some(pc.item)))
      && Count(s.threads, if pc.AddNotify? then SleepingTaker else SleepingAdder) > 0
      && Recounted(s.threads, s'.threads, s.threads[pick], Woken(s.threads[pick]), pc, pc')
  {
    var pc := s.threads[t];
    Recount(s.threads, pick, Woken(s.threads[pick]), t, if pc.AddNotify? then Idle else Returned(Some(pc.item)));
    CountZero(s.threads, if pc.AddNotify? then SleepingTaker else SleepingAdder);
    assert Is(s.threads[pick], if pc.AddNotify? then SleepingTaker else SleepingAdder);
  }

  lemma NotifyKeepsTakers<T>(s: State<T>, t: nat, pick: nat)
    requires t < |s.threads| && (s.threads[t].AddNotify? || s.threads[t].TakeNotify?) && TakersServed(s)
    ensures TakersServed(Step(s, t, pick))
  {
    NotifyRecounts(s, t, pick);
  }

  lemma NotifyKeepsAdders<T>(s: State<T>, t: nat, pick: nat)
    requires t < |s.threads| && (s.threads[t].AddNotify? || s.threads[t].TakeNotify?) && AddersServed(s)
    ensures AddersServed(Step(s, t, pick))
  {
    NotifyRecounts(s, t, pick);
  }

  // ---------------------------------------------------------------- after a stop

  lemma PlainKeepsWaking<T>(s: State<T>, m: Move<T>)
    requires m.t < |s.threads| && (m.Go? ==> !Notifies(s.threads[m.t]))
    requires s.stop && WakingAll(s)
    ensures WakingAll(Next(s, m))
  {
    PlainRoles(s, m);
    PlainCount(s, m, SleepingTaker);
    PlainCount(s, m, SleepingAdder);
    PlainCount(s, m, WakingTakers);
    PlainCount(s, m, WakingAdders);
  }

  lemma PlainRoles<T>(s: State<T>, m: Move<T>)
    requires m.t < |s.threads| && (m.Go? ==> !Notifies(s.threads[m.t])) && s.stop
    ensures var pc, pc' := s.threads[m.t], Next(s, m).threads[m.t];
      && One(pc', SleepingTaker) <= One(pc, SleepingTaker) && One(pc', SleepingAdder) <= One(pc, SleepingAdder)
      && One(pc, WakingTakers) <= One(pc', WakingTakers) && One(pc, WakingAdders) <= One(pc', WakingAdders)
  {
  }

  lemma StopStartsWaking<T>(s: State<T>, m: Move<T>)
    requires m.t < |s.threads| && m.Go? && s.threads[m.t].StopHold?
    ensures WakingAll(Next(s, m))
  {
    CountZero(Next(s, m).threads, WakingTakers);
    CountZero(Next(s, m).threads, WakingAdders);
    assert Is(Next(s, m).threads[m.t], WakingAdders);
    assert Is(Next(s, m).threads[m.t], WakingTakers);
  }

  lemma NotifyKeepsWaking<T>(s: State<T>, t: nat, pick: nat)
    requires t < |s.threads| && (s.threads[t].AddNotify? || s.threads[t].TakeNotify?) && WakingAll(s)
    ensures WakingAll(Step(s, t, pick))
  {
    NotifyRecounts(s, t, pick);
  }

  lemma WakeTakersKeeps<T>(s: State<T>, t: nat, pick: nat)
    requires t < |s.threads| && s.threads[t].StopEmpty? && WakingAll(s)
    ensures WakingAll(Step(s, t, pick))
  {
    var s' := Step(s, t, pick);
    CountZero(s'.threads, SleepingTaker);
    CountZero(s'.threads, WakingAdders);
    assert Is(s'.threads[t], WakingAdders);
  }

  lemma WakeAddersKeeps<T>(s: State<T>, t: nat, pick: nat)
    requires t < |s.threads| && s.threads[t].StopFull? && WakingAll(s)
    ensures WakingAll(Step(s, t, pick))
  {
    var s' := Step(s, t, pick);
    CountZero(s'.threads, SleepingAdder);
    CountSame(s.threads, s'.threads, SleepingTaker);
    CountSame(s.threads, s'.threads, WakingTakers);
  }

  // ---------------------------------------------------------------- every run

  lemma MoveKeepsInv<T>(s: State<T>, m: Move<T>)
    requires m.t < |s.threads| && Inv(s)
    ensures Inv(Next(s, m))
  {
    MoveKeepsLock(s, m);
    MoveKeepsFifo(s, m);
    MoveKeepsChecks(s, m);
    MoveKeepsStop(s, m);
    MoveKeepsWakeups(s, m);
  }

  lemma MoveKeepsWakeups<T>(s: State<T>, m: Move<T>)
    requires m.t < |s.threads| && Inv(s)
    ensures var s' := Next(s, m); if s'.stop then WakingAll(s') else TakersServed(s') && AddersServed(s')
  {
    QueueMoves(s, m);
    var pc := s.threads[m.t];
    if m.Go? && pc.StopHold? {
      StopStartsWaking(s, m);
    } else if m.Go? && Notifies(pc) {
      NotifyKeepsWakeups(s, m.t, m.pick);
    } else if s.stop {
      PlainKeepsWaking(s, m);
    } else {
      PlainKeepsTakers(s, m);
      PlainKeepsAdders(s, m);
    }
  }

  lemma NotifyKeepsWakeups<T>(s: State<T>, t: nat, pick: nat)
    requires t < |s.threads| && Inv(s) && Notifies(s.threads[t])
    ensures var s' := Step(s, t, pick); if s.stop then WakingAll(s') else TakersServed(s') && AddersServed(s')
  {
    match s.threads[t] {
      case StopEmpty => WakeTakersKeeps(s, t, pick);
      case StopFull => WakeAddersKeeps(s, t, pick);
      case _ =>
        NotifyRecounts(s, t, pick);
        if s.stop {
          NotifyKeepsWaking(s, t, pick);
        } else {
          NotifyKeepsTakers(s, t, pick);
          NotifyKeepsAdders(s, t, pick);
        }
    }
  }

  lemma InitInv<T>(s: State<T>)
    requires Init(s)
    ensures Inv(s)
  {
    CountZero(s.threads, SleepingTaker);
    CountZero(s.threads, SleepingAdder);
  }

  lemma {:induction false} RunKeeps<T>(s: State<T>, moves: seq<Move<T>>)
    requires Inv(s) && Possible(|s.threads|, moves)
    ensures Inv(Run(s, moves))
  {
    if moves != [] {
      RunKeeps(s, moves[..|moves| - 1]);
      MoveKeepsInv(Run(s, moves[..|moves| - 1]), moves[|moves| - 1]);
    }
  }
}
