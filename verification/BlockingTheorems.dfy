/** What users of the blocking queue can rely on, in every run of any number of threads. */
module BlockingTheorems {
  import opened Sequences
  import opened BlockingQueue

  predicate Asleep<T>(pc: Thread<T>) {
    pc.AddSleep? || pc.TakeSleep?
  }

  /** What was taken is the first part of what was accepted, in the same order, and the rest is in the
      queue, which stays within its bound; while the queue is not stopped, if somebody sleeps for
      items there are at most as many of them as notifications to come and takers on their way, and
      likewise for places. */
  lemma NothingLost<T>(s: State<T>, moves: seq<Move<T>>)
    requires Init(s) && Possible(|s.threads|, moves)
    ensures var r := Run(s, moves);
      && r.accepted == r.taken + r.queue && |r.queue| <= r.max
      && (!r.stop && (exists t :: 0 <= t < |r.threads| && r.threads[t].TakeSleep?) ==>
            |r.queue| <= Count(r.threads, NotifyingTakers) + Count(r.threads, RunningTaker))
      && (!r.stop && (exists t :: 0 <= t < |r.threads| && r.threads[t].AddSleep?) ==>
            r.max - |r.queue| <= Count(r.threads, NotifyingAdders) + Count(r.threads, RunningAdder))
  {
    InitInv(s);
    RunKeeps(s, moves);
    var r := Run(s, moves);
    CountZero(r.threads, SleepingTaker);
    CountZero(r.threads, SleepingAdder);
    forall t | 0 <= t < |r.threads| && r.threads[t].TakeSleep? ensures Count(r.threads, SleepingTaker) > 0 {
      assert Is(r.threads[t], SleepingTaker);
    }
    forall t | 0 <= t < |r.threads| && r.threads[t].AddSleep? ensures Count(r.threads, SleepingAdder) > 0 {
      assert Is(r.threads[t], SleepingAdder);
    }
  }

  // ---------------------------------------------------------------- nobody waits in vain

  /** No thread can go on by itself. */
  ghost predicate Stuck<T>(s: State<T>) {
    forall t: nat, pick: nat :: t < |s.threads| ==> Step(s, t, pick) == s
  }

  lemma NotifierCanGo<T>(s: State<T>, t: nat) returns (pick: nat)
    requires t < |s.threads| && (s.threads[t].AddNotify? || s.threads[t].TakeNotify?)
    ensures Step(s, t, pick) != s
  {
    var role := if s.threads[t].AddNotify? then SleepingTaker else SleepingAdder;
    CountZero(s.threads, role);
    pick := 0;
    if Count(s.threads, role) != 0 {
      pick :| pick < |s.threads| && Is(s.threads[pick], role);
    }
  }

  lemma OthersCanGo<T>(s: State<T>, t: nat, pick: nat)
    requires Inv(s) && t < |s.threads|
    requires !AtRest(s.threads[t]) && !Asleep(s.threads[t]) && !s.threads[t].AddNotify? && !s.threads[t].TakeNotify?
    requires Holds(s.threads[t]) || s.mutex == None || Notifies(s.threads[t])
    ensures Step(s, t, pick).threads[t] != s.threads[t]
  {
  }

  /** If no thread can go on, every thread is at rest or asleep, and none sleeps but for a reason: the
      queue is empty or full, and not stopped. */
  lemma StuckForAReason<T>(s: State<T>)
    requires Inv(s) && Stuck(s)
    ensures forall t :: 0 <= t < |s.threads| ==> AtRest(s.threads[t]) || Asleep(s.threads[t])
    ensures forall t :: 0 <= t < |s.threads| && s.threads[t].TakeSleep? ==> !s.stop && s.queue == []
    ensures forall t :: 0 <= t < |s.threads| && s.threads[t].AddSleep? ==> !s.stop && |s.queue| == s.max
  {
    if s.mutex.Some? {
      assert Step(s, s.mutex.value, 0) == s;
      OthersCanGo(s, s.mutex.value, 0);
    }
    forall t: nat | t < |s.threads| ensures AtRest(s.threads[t]) || Asleep(s.threads[t]) {
      if s.threads[t].AddNotify? || s.threads[t].TakeNotify? {
        var pick := NotifierCanGo(s, t);
      } else if !AtRest(s.threads[t]) && !Asleep(s.threads[t]) {
        assert Step(s, t, 0) == s;
        OthersCanGo(s, t, 0);
      }
    }
    QuietCounts(s);
  }

  lemma QuietCounts<T>(s: State<T>)
    requires Inv(s) && forall t :: 0 <= t < |s.threads| ==> AtRest(s.threads[t]) || Asleep(s.threads[t])
    ensures forall t :: 0 <= t < |s.threads| && s.threads[t].TakeSleep? ==> !s.stop && s.queue == []
    ensures forall t :: 0 <= t < |s.threads| && s.threads[t].AddSleep? ==> !s.stop && |s.queue| == s.max
  {
    CountZero(s.threads, NotifyingTakers);
    CountZero(s.threads, RunningTaker);
    CountZero(s.threads, WakingTakers);
    CountZero(s.threads, NotifyingAdders);
    CountZero(s.threads, RunningAdder);
    CountZero(s.threads, WakingAdders);
    CountZero(s.threads, SleepingTaker);
    CountZero(s.threads, SleepingAdder);
    forall t | 0 <= t < |s.threads| && s.threads[t].TakeSleep? ensures !s.stop && s.queue == [] {
      assert Is(s.threads[t], SleepingTaker);
    }
    forall t | 0 <= t < |s.threads| && s.threads[t].AddSleep? ensures !s.stop && |s.queue| == s.max {
      assert Is(s.threads[t], SleepingAdder);
    }
  }

  // ---------------------------------------------------------------- after a stop

  /** After a stop nothing is accepted or taken any more, and nobody goes to sleep. */
  lemma {:induction false} StopIsFinal<T>(s: State<T>, moves: seq<Move<T>>)
    requires s.stop && Possible(|s.threads|, moves)
    ensures var r := Run(s, moves);
      && r.stop && r.accepted == s.accepted && r.taken == s.taken && r.queue == s.queue
      && forall t :: 0 <= t < |s.threads| && Asleep(r.threads[t]) ==> r.threads[t] == s.threads[t]
  {
    if moves != [] {
      var before, m := Run(s, moves[..|moves| - 1]), moves[|moves| - 1];
      StopIsFinal(s, moves[..|moves| - 1]);
      QueueMoves(before, m);
      if m.Go? && Notifies(before.threads[m.t]) {
        NotifyMove(before, m);
      } else {
        PlainMove(before, m);
      }
    }
  }

  /** Steps a thread still has to take once the queue is stopped. */
  function Effort<T>(pc: Thread<T>): nat {
    match pc
    case Idle => 0
    case Returned(_) => 0
    case AddWant(_) => 3
    case AddSleep(_) => 4
    case AddAwake(_) => 3
    case AddHold(_) => 2
    case AddGo(_) => 1
    case AddDone => 2
    case AddNotify => 1
    case TakeWant => 3
    case TakeSleep => 4
    case TakeAwake => 3
    case TakeHold => 2
    case TakeGo => 1
    case TakeDone(_) => 2
    case TakeNotify(_) => 1
    case StopWant => 5
    case StopHold => 4
    case StopDone => 3
    case StopEmpty => 2
    case StopFull => 1
  }

  function Efforts<T>(threads: seq<Thread<T>>): nat {
    Total(threads, Effort)
  }

  lemma {:induction false} EffortsShrink<T>(a: seq<Thread<T>>, b: seq<Thread<T>>)
    requires |a| == |b| && forall u :: 0 <= u < |a| ==> Effort(b[u]) <= Effort(a[u])
    ensures Efforts(b) <= Efforts(a)
    ensures (exists u :: 0 <= u < |a| && Effort(b[u]) < Effort(a[u])) ==> Efforts(b) < Efforts(a)
  {
    if a != [] {
      EffortsShrink(a[..|a| - 1], b[..|b| - 1]);
      if u :| 0 <= u < |a| && Effort(b[u]) < Effort(a[u]) {
        if u < |a| - 1 {
          assert Effort(b[..|b| - 1][u]) < Effort(a[..|a| - 1][u]);
        }
      }
    }
  }

  lemma MoverGetsOn<T>(s: State<T>, m: Move<T>)
    requires m.t < |s.threads| && s.stop && !m.Begin?
    ensures var pc, pc' := s.threads[m.t], Next(s, m).threads[m.t];
      pc' == pc || Effort(pc') < Effort(pc)
  {
  }

  lemma NoMoveNoChange<T>(s: State<T>, m: Move<T>)
    requires m.t < |s.threads|
    ensures Next(s, m).threads[m.t] == s.threads[m.t] ==> Next(s, m) == s
  {
    assert s.threads[m.t := s.threads[m.t]] == s.threads;
    if m.Go? && Notifies(s.threads[m.t]) {
      NoNotifyNoChange(s, m.t, m.pick);
    }
  }

  lemma NoNotifyNoChange<T>(s: State<T>, t: nat, pick: nat)
    requires t < |s.threads| && Notifies(s.threads[t])
    ensures Step(s, t, pick).threads[t] == s.threads[t] ==> Step(s, t, pick) == s
  {
  }

  lemma MoveShrinks<T>(s: State<T>, m: Move<T>)
    requires m.t < |s.threads| && s.stop && !m.Begin?
    ensures Next(s, m) == s || Efforts(Next(s, m).threads) < Efforts(s.threads)
  {
    MoverGetsOn(s, m);
    NoMoveNoChange(s, m);
    if m.Go? && Notifies(s.threads[m.t]) {
      NotifyMove(s, m);
    } else {
      PlainMove(s, m);
    }
    if Next(s, m) != s {
      EffortsShrink(s.threads, Next(s, m).threads);
    }
  }

  /** How many of the moves change anything. */
  ghost function Changes<T>(s: State<T>, moves: seq<Move<T>>): nat
    requires Possible(|s.threads|, moves)
  {
    if moves == [] then 0
    else
      var before := Run(s, moves[..|moves| - 1]);
      Changes(s, moves[..|moves| - 1]) + if Next(before, moves[|moves| - 1]) == before then 0 else 1
  }

  lemma {:induction false} ChangesBounded<T>(s: State<T>, moves: seq<Move<T>>)
    requires s.stop && Possible(|s.threads|, moves)
    requires forall i :: 0 <= i < |moves| ==> !moves[i].Begin?
    ensures Changes(s, moves) + Efforts(Run(s, moves).threads) <= Efforts(s.threads)
  {
    if moves != [] {
      var front, m := moves[..|moves| - 1], moves[|moves| - 1];
      ChangesBounded(s, front);
      StopIsFinal(s, front);
      MoveShrinks(Run(s, front), m);
    }
  }

  lemma {:induction false} EffortsBounded<T>(threads: seq<Thread<T>>)
    ensures Efforts(threads) <= 5 * |threads|
  {
    if threads != [] {
      EffortsBounded(threads[..|threads| - 1]);
    }
  }

  /** A stop releases everybody.  Without new calls at most five moves per thread change anything,
      wake-ups for no reason included, and when no thread can go on, every call has returned. */
  lemma StopReleases<T>(s: State<T>, before: seq<Move<T>>, after: seq<Move<T>>)
    requires Init(s) && Possible(|s.threads|, before) && Possible(|s.threads|, after)
    requires Run(s, before).stop
    requires forall i :: 0 <= i < |after| ==> !after[i].Begin?
    ensures Changes(Run(s, before), after) <= 5 * |s.threads|
    ensures var r := Run(Run(s, before), after);
      Stuck(r) ==> forall t :: 0 <= t < |r.threads| ==> AtRest(r.threads[t])
  {
    var stopped := Run(s, before);
    var r := Run(stopped, after);
    ChangesBounded(stopped, after);
    EffortsBounded(stopped.threads);
    StopIsFinal(stopped, after);
    InitInv(s);
    RunKeeps(s, before);
    RunKeeps(stopped, after);
    if Stuck(r) {
      StuckForAReason(r);
    }
  }
}
