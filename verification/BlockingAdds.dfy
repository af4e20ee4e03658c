/** Where the items passed to the blocking queue's add are, in every run of any number of threads. */
module BlockingAdds {
  import opened Sequences
  import opened BlockingQueue

  /** The item of an add that has neither pushed it nor found the queue stopped. */
  function Pending<T>(pc: Thread<T>): seq<T> {
    match pc
    case AddWant(item) => [item]
    case AddHold(item) => [item]
    case AddSleep(item) => [item]
    case AddAwake(item) => [item]
    case AddGo(item) => [item]
    case _ => []
  }

  /** The items of xs that thread t pushed, in order. */
  function OfThread<T>(xs: seq<T>, adders: seq<nat>, t: nat): seq<T>
    requires |xs| == |adders|
  {
    if xs == [] then []
    else
      var n := |xs| - 1;
      OfThread(xs[..n], adders[..n], t) + if adders[n] == t then [xs[n]] else []
  }

  lemma OfThreadSnoc<T>(xs: seq<T>, adders: seq<nat>, x: T, u: nat, t: nat)
    requires |xs| == |adders|
    ensures OfThread(xs + [x], adders + [u], t) == OfThread(xs, adders, t) + if u == t then [x] else []
  {
    FrontOf(xs, x);
    FrontOf(adders, u);
  }

  /** The item a move passes to an add of thread t. */
  function Passed<T>(s: State<T>, m: Move<T>, t: nat): seq<T>
    requires m.t < |s.threads|
  {
    if m.Begin? && m.t == t && m.call.Add? && AtRest(s.threads[t]) then [m.call.item] else []
  }

  /** What thread t passed to add: the items it pushed, those refused, and the one it still holds. */
  ghost predicate Account<T>(s: State<T>, t: nat, given: seq<T>) {
    && t < |s.threads| && t < |s.refused| && |s.adders| == |s.accepted|
    && given == OfThread(s.accepted, s.adders, t) + s.refused[t] + Pending(s.threads[t])
    && (s.refused[t] != [] ==> s.stop)
  }

  /** What a move does to the thread's own part of the account. */
  lemma OthersKeep<T>(s: State<T>, m: Move<T>, t: nat)
    requires m.t < |s.threads| && m.t != t && t < |s.threads|
    ensures var s' := Next(s, m);
      t < |s'.threads| && Pending(s'.threads[t]) == Pending(s.threads[t])
  {
    if m.Go? && Notifies(s.threads[m.t]) {
      NotifyMove(s, m);
    } else {
      PlainMove(s, m);
    }
  }

  /** A thread's own move, as far as its items are concerned. */
  lemma OwnMove<T>(s: State<T>, m: Move<T>)
    requires m.t < |s.threads|
    ensures var pc, pc' := s.threads[m.t], Next(s, m).threads[m.t];
      if m.Go? && pc.AddGo? then Pending(pc) == [pc.item] && Pending(pc') == []
      else Pending(pc') == Pending(pc) + Passed(s, m, m.t)
  {
    if m.Go? {
      if Notifies(s.threads[m.t]) {
        NotifierMoves(s, m.t, m.pick);
      } else {
        OwnStep(s, m.t, m.pick);
      }
    }
  }

  lemma OwnStep<T>(s: State<T>, t: nat, pick: nat)
    requires t < |s.threads| && !Notifies(s.threads[t])
    ensures var pc, pc' := s.threads[t], Step(s, t, pick).threads[t];
      if pc.AddGo? then Pending(pc) == [pc.item] && Pending(pc') == [] else Pending(pc') == Pending(pc)
  {
    if Pending(s.threads[t]) == [] {
      EmptyHanded(s, t, pick);
    }
  }

  lemma EmptyHanded<T>(s: State<T>, t: nat, pick: nat)
    requires t < |s.threads| && !Notifies(s.threads[t]) && Pending(s.threads[t]) == []
    ensures Pending(Step(s, t, pick).threads[t]) == []
  {
  }

  /** Only an add that has seen the flag under the mutex leaves its item behind. */
  lemma RefusedSawFlag<T>(s: State<T>, m: Move<T>, t: nat)
    requires m.t < |s.threads| && t < |s.refused|
    ensures t < |Next(s, m).refused|
    ensures Next(s, m).refused[t] == s.refused[t]
      + if m.Go? && m.t == t && s.threads[t].AddGo? && s.stop then [s.threads[t].item] else []
  {
  }

  /** Only an add that has found the queue not stopped under the mutex pushes, and it pushes its item. */
  lemma AcceptedWasPending<T>(s: State<T>, m: Move<T>)
    requires m.t < |s.threads|
    ensures var s' := Next(s, m);
      if m.Go? && s.threads[m.t].AddGo? && !s.stop then
        s'.accepted == s.accepted + [s.threads[m.t].item] && s'.adders == s.adders + [m.t]
      else
        s'.accepted == s.accepted && s'.adders == s.adders
  {
  }

  lemma AccountKept<T>(s: State<T>, m: Move<T>, t: nat, given: seq<T>)
    requires m.t < |s.threads| && Account(s, t, given)
    ensures Account(Next(s, m), t, given + Passed(s, m, t))
  {
    if m.t == t {
      OwnAccount(s, m, given);
    } else {
      OthersAccount(s, m, t, given);
    }
  }

  lemma OwnAccount<T>(s: State<T>, m: Move<T>, given: seq<T>)
    requires m.t < |s.threads| && Account(s, m.t, given)
    ensures Account(Next(s, m), m.t, given + Passed(s, m, m.t))
  {
    var t := m.t;
    RefusedSawFlag(s, m, t);
    AcceptedWasPending(s, m);
    OnlyStopStops(s, m);
    if m.Go? && s.threads[t].AddGo? && !s.stop {
      OfThreadSnoc(s.accepted, s.adders, s.threads[t].item, t, t);
    }
    OwnMove(s, m);
    Balance(OfThread(s.accepted, s.adders, t), s.refused[t], Pending(s.threads[t]), Passed(s, m, t));
  }

  lemma OthersAccount<T>(s: State<T>, m: Move<T>, t: nat, given: seq<T>)
    requires m.t < |s.threads| && m.t != t && Account(s, t, given)
    ensures Account(Next(s, m), t, given + Passed(s, m, t))
  {
    RefusedSawFlag(s, m, t);
    AcceptedWasPending(s, m);
    OnlyStopStops(s, m);
    if m.Go? && s.threads[m.t].AddGo? && !s.stop {
      OfThreadSnoc(s.accepted, s.adders, s.threads[m.t].item, m.t, t);
    }
    OthersKeep(s, m, t);
  }

  lemma Balance<T>(pushed: seq<T>, refused: seq<T>, held: seq<T>, more: seq<T>)
    ensures pushed + refused + held + more == pushed + refused + (held + more)
    ensures pushed + refused + held + [] == pushed + (refused + held) + []
    ensures refused == [] ==> pushed + refused + held == (pushed + held) + [] + []
  {
  }

  // ---------------------------------------------------------------- every run

  /** What thread t passed to add in a run, in order. */
  function ItemsPassed<T>(s: State<T>, moves: seq<Move<T>>, t: nat): seq<T>
    requires Possible(|s.threads|, moves)
  {
    if moves == [] then []
    else
      var front := moves[..|moves| - 1];
      ItemsPassed(s, front, t) + Passed(Run(s, front), moves[|moves| - 1], t)
  }

  /** Every item was pushed by one of the threads. */
  predicate PushedByThreads<T>(s: State<T>) {
    |s.adders| == |s.accepted| && forall k :: 0 <= k < |s.adders| ==> s.adders[k] < |s.threads|
  }

  /** In every run, what thread t has passed to add is, in call order: the items it pushed, which are its
      items among those accepted; those its adds left behind, none unless the queue is stopped; and the
      one it has not pushed yet.  And nothing was accepted but from one of the threads. */
  lemma AddsInOrder<T>(s: State<T>, moves: seq<Move<T>>, t: nat)
    requires Init(s) && Possible(|s.threads|, moves) && t < |s.threads|
    ensures var r := Run(s, moves);
      && PushedByThreads(r) && |r.refused| == |s.threads|
      && ItemsPassed(s, moves, t) == OfThread(r.accepted, r.adders, t) + r.refused[t] + Pending(r.threads[t])
      && (!r.stop ==> r.refused[t] == [])
  {
    AccountRun(s, moves, t);
    PushersRun(s, moves);
  }

  lemma {:induction false} AccountRun<T>(s: State<T>, moves: seq<Move<T>>, t: nat)
    requires Init(s) && Possible(|s.threads|, moves) && t < |s.threads|
    ensures Account(Run(s, moves), t, ItemsPassed(s, moves, t))
  {
    if moves != [] {
      AccountRun(s, moves[..|moves| - 1], t);
      AccountKept(Run(s, moves[..|moves| - 1]), moves[|moves| - 1], t, ItemsPassed(s, moves[..|moves| - 1], t));
    }
  }

  lemma PushersKept<T>(s: State<T>, m: Move<T>)
    requires m.t < |s.threads| && PushedByThreads(s)
    ensures PushedByThreads(Next(s, m)) && |Next(s, m).refused| == |s.refused|
  {
    AcceptedWasPending(s, m);
    NextKeepsThreads(s, m);
  }

  lemma {:induction false} PushersRun<T>(s: State<T>, moves: seq<Move<T>>)
    requires Init(s) && Possible(|s.threads|, moves)
    ensures PushedByThreads(Run(s, moves)) && |Run(s, moves).refused| == |s.threads|
  {
    if moves != [] {
      PushersRun(s, moves[..|moves| - 1]);
      PushersKept(Run(s, moves[..|moves| - 1]), moves[|moves| - 1]);
    }
  }

  // ---------------------------------------------------------------- all threads together

  ghost function Has<T>(pc: Thread<T>, x: T): nat {
    if Pending(pc) == [x] then 1 else 0
  }

  /** How many adds still hold an item. */
  ghost function Held<T>(threads: seq<Thread<T>>, x: T): nat {
    if threads == [] then 0
    else Held(threads[..|threads| - 1], x) + Has(threads[|threads| - 1], x)
  }

  lemma {:induction false} HeldUpdate<T>(threads: seq<Thread<T>>, t: nat, pc: Thread<T>, x: T)
    requires t < |threads|
    ensures Held(threads[t := pc], x) + Has(threads[t], x)
      == Held(threads, x) + Has(pc, x)
  {
    var n := |threads| - 1;
    if t == n {
      assert threads[t := pc][..n] == threads[..n];
    } else {
      assert threads[t := pc][..n] == threads[..n][t := pc];
      HeldUpdate(threads[..n], t, pc, x);
    }
  }

  lemma {:induction false} HeldSame<T>(a: seq<Thread<T>>, b: seq<Thread<T>>, x: T)
    requires |a| == |b| && forall t :: 0 <= t < |a| ==> Pending(a[t]) == Pending(b[t])
    ensures Held(a, x) == Held(b, x)
  {
    if a != [] {
      HeldSame(a[..|a| - 1], b[..|b| - 1], x);
    }
  }

  lemma {:induction false} NothingHeld<T>(threads: seq<Thread<T>>, x: T)
    requires forall t :: 0 <= t < |threads| ==> threads[t].Idle?
    ensures Held(threads, x) == 0
  {
    if threads != [] {
      NothingHeld(threads[..|threads| - 1], x);
    }
  }

  /** What a run passed to add, by whatever thread. */
  function AllPassed<T>(s: State<T>, moves: seq<Move<T>>): seq<T>
    requires Possible(|s.threads|, moves)
  {
    if moves == [] then []
    else
      var front, m := moves[..|moves| - 1], moves[|moves| - 1];
      AllPassed(s, front) + Passed(Run(s, front), m, m.t)
  }

  lemma HeldMove<T>(s: State<T>, m: Move<T>, x: T)
    requires m.t < |s.threads|
    ensures Held(Next(s, m).threads, x) + Has(s.threads[m.t], x)
      == Held(s.threads, x) + Has(Next(s, m).threads[m.t], x)
  {
    if m.Go? && Notifies(s.threads[m.t]) {
      NotifyMove(s, m);
      NotifierMoves(s, m.t, m.pick);
      HeldSame(Next(s, m).threads, s.threads, x);
    } else {
      PlainMove(s, m);
      HeldUpdate(s.threads, m.t, Next(s, m).threads[m.t], x);
    }
  }

  /** An item is passed to add as often as it is accepted or held. */
  ghost predicate Balanced<T>(s: State<T>, given: seq<T>, x: T) {
    multiset(given)[x] == multiset(s.accepted)[x] + Held(s.threads, x)
  }

  lemma BalanceKept<T>(s: State<T>, m: Move<T>, given: seq<T>, x: T)
    requires m.t < |s.threads| && !Next(s, m).stop && Balanced(s, given, x)
    ensures Balanced(Next(s, m), given + Passed(s, m, m.t), x)
  {
    HeldMove(s, m, x);
    OwnMove(s, m);
    OnlyStopStops(s, m);
    AcceptedWasPending(s, m);
  }

  /** As long as the queue is not stopped, every item is accepted as often as it was passed to add, but
      for the adds that have not returned. */
  lemma NoItemDropped<T>(s: State<T>, moves: seq<Move<T>>, x: T)
    requires Init(s) && Possible(|s.threads|, moves) && !Run(s, moves).stop
    ensures var r := Run(s, moves);
      multiset(AllPassed(s, moves))[x] == multiset(r.accepted)[x] + Held(r.threads, x)
  {
    BalanceRun(s, moves, x);
  }

  lemma {:induction false} BalanceRun<T>(s: State<T>, moves: seq<Move<T>>, x: T)
    requires Init(s) && Possible(|s.threads|, moves) && !Run(s, moves).stop
    ensures Balanced(Run(s, moves), AllPassed(s, moves), x)
  {
    if moves == [] {
      NothingHeld(s.threads, x);
    } else {
      var front, m := moves[..|moves| - 1], moves[|moves| - 1];
      OnlyStopStops(Run(s, front), m);
      BalanceRun(s, front, x);
      BalanceKept(Run(s, front), m, AllPassed(s, front), x);
    }
  }

  // ---------------------------------------------------------------- nobody in the way

  /** The state after thread t has taken n steps in a row. */
  function Alone<T>(s: State<T>, t: nat, n: nat): (s': State<T>)
    requires t < |s.threads|
    ensures |s'.threads| == |s.threads|
  {
    if n == 0 then s
    else
      var before := Alone(s, t, n - 1);
      NextKeepsThreads(before, Go(t, 0));
      Step(before, t, 0)
  }

  /** Thread t has left its critical section, with this queue behind it. */
  predicate Left<T(==)>(s: State<T>, t: nat, pc: Thread<T>, queue: seq<T>) {
    t < |s.threads| && s.threads[t] == pc && s.queue == queue && s.mutex == None
  }

  lemma AloneNext<T>(s: State<T>, t: nat, n: nat)
    requires t < |s.threads|
    ensures Alone(s, t, 0) == s && Alone(s, t, n + 1) == Step(Alone(s, t, n), t, 0)
  {
  }

  /** An add that nobody interferes with pushes its item if there is room, sleeps with it if there is
      none, and returns without it if the queue is stopped; the mutex is free again. */
  lemma AddAlone<T>(s: State<T>, t: nat, item: T)
    requires t < |s.threads| && s.threads[t] == AddWant(item) && s.mutex == None
    ensures s.stop ==> Left(Alone(s, t, 3), t, Idle, s.queue)
    ensures !s.stop && |s.queue| < s.max ==> Left(Alone(s, t, 4), t, AddNotify, s.queue + [item])
    ensures !s.stop && s.max <= |s.queue| ==> Left(Alone(s, t, 2), t, AddSleep(item), s.queue)
  {
    AloneNext(s, t, 0);
    AloneNext(s, t, 1);
    AloneNext(s, t, 2);
    AloneNext(s, t, 3);
  }

  /** What the first two steps of a dequeue come to. */
  lemma TakeBegins<T>(s: State<T>, t: nat)
    requires t < |s.threads| && s.threads[t] == TakeWant && s.mutex == None
    ensures var s2 := Alone(s, t, 2);
      && s2.queue == s.queue && s2.stop == s.stop
      && if s.queue != [] || s.stop then s2.threads[t] == TakeGo && s2.mutex == Some(t)
         else s2.threads[t] == TakeSleep && s2.mutex == None
  {
    AloneNext(s, t, 0);
    AloneNext(s, t, 1);
  }

  /** A dequeue that nobody interferes with takes the first item if there is one, sleeps if there is none,
      and returns without if the queue is stopped. */
  lemma TakeAlone<T>(s: State<T>, t: nat)
    requires t < |s.threads| && s.threads[t] == TakeWant && s.mutex == None
    ensures s.stop ==> Left(Alone(s, t, 3), t, Returned(None), s.queue)
    ensures !s.stop && s.queue != [] ==> Left(Alone(s, t, 4), t, TakeNotify(s.queue[0]), s.queue[1..])
    ensures !s.stop && s.queue == [] ==> Left(Alone(s, t, 2), t, TakeSleep, [])
  {
    TakeBegins(s, t);
    AloneNext(s, t, 2);
    AloneNext(s, t, 3);
  }
}
