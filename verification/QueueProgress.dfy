/** Pushes never deadlock, and without new ones they all finish: the number of producer moves that
    are not failed busy-waits is bounded, whatever the scheduler does. */
module QueueProgress {
  import Arithmetic
  import opened Sequences
  import opened Logger
  import opened QueueBuffer
  import QueueSafety

  function Total(prods: seq<Producer>, weight: Producer -> nat): nat {
    if prods == [] then 0 else Total(prods[..|prods| - 1], weight) + weight(prods[|prods| - 1])
  }

  lemma {:induction false} TotalUpdate(prods: seq<Producer>, p: nat, pc: Producer, weight: Producer -> nat)
    requires p < |prods|
    ensures Total(prods[p := pc], weight) + weight(prods[p]) == Total(prods, weight) + weight(pc)
  {
    var n := |prods| - 1;
    if p == n {
      assert prods[p := pc][..n] == prods[..n];
    } else {
      assert prods[p := pc][..n] == prods[..n][p := pc];
      TotalUpdate(prods[..n], p, pc, weight);
    }
  }

  lemma {:induction false} TotalMonotone(prods: seq<Producer>, low: Producer -> nat, high: Producer -> nat)
    requires forall pc :: low(pc) <= high(pc)
    ensures Total(prods, low) <= Total(prods, high)
  {
    if prods != [] {
      TotalMonotone(prods[..|prods| - 1], low, high);
    }
  }

  lemma {:induction false} TotalBounded(prods: seq<Producer>, weight: Producer -> nat, bound: nat)
    requires forall pc :: weight(pc) <= bound
    ensures Total(prods, weight) <= bound * |prods|
  {
    if prods != [] {
      TotalBounded(prods[..|prods| - 1], weight, bound);
    }
  }

  /** Buffers this push may still cause to be replaced. */
  function Pending(pc: Producer): nat {
    if pc.Idle? || pc.Reset? then 0 else 1
  }

  /** Moves left before the next buffer replacement. */
  function Effort(pc: Producer, full: bool): nat {
    match pc
    case Idle => 0
    case Spinning(_) => if full then 0 else 12
    case Ready(_) => if full then 1 else 11
    case Ticket(_, _) => 10
    case Loaded(_, _, _) => 9
    case Stored(_, _) => 8
    case Flagged(_, _) => 7
    case Sealing => 6
    case Swapped => 5
    case Locked => 4
    case Enqueued => 3
    case Reset => 1
  }

  predicate Full(s: State) {
    s.writeIndex >= s.size
  }

  function Replacements(s: State): nat {
    Total(s.prods, Pending)
  }

  function Efforts(s: State): nat {
    Total(s.prods, (pc: Producer) => Effort(pc, Full(s)))
  }

  function Measure(s: State): nat {
    Replacements(s) * (12 * |s.prods| + 1) + Efforts(s)
  }

  lemma LexicographicDecrease(k: nat, l: nat, k': nat, l': nat, n: nat)
    requires l <= 12 * n && l' <= 12 * n
    requires k' < k || (k' == k && l' < l)
    ensures k' * (12 * n + 1) + l' < k * (12 * n + 1) + l
  {
    if k' < k {
      assert (k' + 1) * (12 * n + 1) <= k * (12 * n + 1);
    }
  }

  lemma EffortsBounded(s: State)
    ensures Efforts(s) <= 12 * |s.prods|
  {
    TotalBounded(s.prods, (pc: Producer) => Effort(pc, Full(s)), 12);
  }

  /** One producer moved and is closer to its goal. */
  ghost predicate GetsOn(s: State, s': State, p: nat) {
    && p < |s.prods| && |s'.prods| == |s.prods|
    && s'.prods == s.prods[p := s'.prods[p]]
    && s'.prods[p] != s.prods[p]
    && (Pending(s'.prods[p]) < Pending(s.prods[p])
        || (Pending(s'.prods[p]) == Pending(s.prods[p])
            && Effort(s'.prods[p], Full(s)) < Effort(s.prods[p], Full(s))
            && (Full(s) ==> Full(s'))))
  }

  lemma CounterRoom(s: State, p: nat)
    requires Inv(s) && p < |s.prods|
    ensures s.prods[p].Ready? ==> s.writeIndex + 1 < Arithmetic.WORD
  {
    QueueSafety.CounterBound(s);
  }

  lemma MoveIsLocal(s: State, p: nat)
    requires p < |s.prods|
    ensures var s' := ProducerStep(s, p);
      |s'.prods| == |s.prods| && s'.prods == s.prods[p := s'.prods[p]] && s'.size == s.size
    ensures ProducerStep(s, p) != s ==> ProducerStep(s, p).prods[p] != s.prods[p]
  {
    MoveTouchesOne(s, p);
    MoveShows(s, p);
  }

  lemma MoveTouchesOne(s: State, p: nat)
    requires p < |s.prods|
    ensures var s' := ProducerStep(s, p);
      |s'.prods| == |s.prods| && s'.prods == s.prods[p := s'.prods[p]] && s'.size == s.size
  {
    assert s.prods[p := s.prods[p]] == s.prods;
  }

  lemma MoveShows(s: State, p: nat)
    requires p < |s.prods| && |ProducerStep(s, p).prods| == |s.prods|
    ensures ProducerStep(s, p) != s ==> ProducerStep(s, p).prods[p] != s.prods[p]
  {
  }

  lemma MoveCounter(s: State, p: nat)
    requires p < |s.prods|
    requires s.prods[p].Ready? ==> s.writeIndex + 1 < Arithmetic.WORD
    ensures !s.prods[p].Enqueued? && Full(s) ==> Full(ProducerStep(s, p))
  {
  }

  lemma MoveGetsOn(s: State, p: nat)
    requires p < |s.prods| && ProducerStep(s, p) != s
    requires s.prods[p].Ready? ==> s.writeIndex + 1 < Arithmetic.WORD
    ensures GetsOn(s, ProducerStep(s, p), p)
  {
    MoveIsLocal(s, p);
    MoveCounter(s, p);
  }

  lemma GettingOnDecreases(s: State, s': State, p: nat)
    requires GetsOn(s, s', p)
    ensures Measure(s') < Measure(s)
  {
    TotalUpdate(s.prods, p, s'.prods[p], Pending);
    var now, later := (pc: Producer) => Effort(pc, Full(s)), (pc: Producer) => Effort(pc, Full(s'));
    if Pending(s'.prods[p]) == Pending(s.prods[p]) {
      TotalUpdate(s.prods, p, s'.prods[p], now);
      TotalMonotone(s'.prods, later, now);
    }
    EffortsBounded(s);
    EffortsBounded(s');
    LexicographicDecrease(Replacements(s), Efforts(s), Replacements(s'), Efforts(s'), |s.prods|);
  }

  /** Every producer step that changes anything, that is, every one but a failed busy-wait, decreases
      the measure. */
  lemma MoveDecreases(s: State, p: nat)
    requires Inv(s) && p < |s.prods| && ProducerStep(s, p) != s
    ensures Measure(ProducerStep(s, p)) < Measure(s)
  {
    CounterRoom(s, p);
    MoveGetsOn(s, p);
    GettingOnDecreases(s, ProducerStep(s, p), p);
  }

  /** No new push begins. */
  ghost predicate Settles(s: State, s': State) {
    (exists p: nat :: ProducerMoves(s, s', p)) || s' == ReaderStep(s)
  }

  ghost predicate SettlesAt(e: seq<State>, i: nat) {
    i + 1 < |e| && Settles(e[i], e[i + 1])
  }

  ghost predicate SettlingRun(e: seq<State>) {
    && 0 < |e| && Inv(e[0])
    && forall i {:trigger SettlesAt(e, i)} :: 0 <= i < |e| - 1 ==> SettlesAt(e, i)
  }

  /** Steps in which some producer got on. */
  function Moves(e: seq<State>): nat {
    if |e| < 2 then 0
    else Moves(e[..|e| - 1]) + if e[|e| - 1].prods != e[|e| - 2].prods then 1 else 0
  }

  lemma SettlesKeeps(s: State, s': State)
    requires Inv(s) && Settles(s, s')
    ensures Inv(s')
  {
    if p: nat :| ProducerMoves(s, s', p) {
      QueueSafety.ProducerKeeps(s, p);
    } else {
      QueueSafety.ReaderKeeps(s);
    }
  }

  lemma ReaderMeasure(s: State)
    ensures ReaderStep(s).prods == s.prods && Measure(ReaderStep(s)) == Measure(s)
  {
    assert Full(ReaderStep(s)) == Full(s);
  }

  lemma SettlesMeasure(s: State, s': State)
    requires Settles(s, s')
    requires forall p :: 0 <= p < |s.prods| && s.prods[p].Ready? ==> s.writeIndex + 1 < Arithmetic.WORD
    ensures s'.prods != s.prods ==> Measure(s') < Measure(s)
    ensures s'.prods == s.prods ==> Measure(s') == Measure(s)
  {
    if p: nat :| ProducerMoves(s, s', p) {
      if s' != s {
        MoveGetsOn(s, p);
        GettingOnDecreases(s, s', p);
      }
    } else {
      ReaderMeasure(s);
    }
  }

  lemma SettlesStep(s: State, s': State)
    requires Inv(s) && Settles(s, s')
    ensures s'.prods != s.prods ==> Measure(s') < Measure(s)
    ensures s'.prods == s.prods ==> Measure(s') == Measure(s)
  {
    forall p | 0 <= p < |s.prods| && s.prods[p].Ready? ensures s.writeIndex + 1 < Arithmetic.WORD {
      CounterRoom(s, p);
    }
    SettlesMeasure(s, s');
  }

  lemma FrontSettles(e: seq<State>)
    requires SettlingRun(e) && 1 < |e|
    ensures SettlingRun(e[..|e| - 1])
  {
    var front := e[..|e| - 1];
    forall i | 0 <= i < |front| - 1 ensures SettlesAt(front, i) {
      assert SettlesAt(e, i);
    }
  }

  ghost predicate Bounded(e: seq<State>)
    requires e != []
  {
    Inv(e[|e| - 1]) && Moves(e) + Measure(e[|e| - 1]) <= Measure(e[0])
  }

  lemma OneMoreStep(e: seq<State>, s: State)
    requires e != [] && Bounded(e) && Settles(e[|e| - 1], s)
    ensures Bounded(e + [s])
  {
    var e' := e + [s];
    assert e'[..|e'| - 1] == e;
    SettlesStep(e[|e| - 1], s);
    SettlesKeeps(e[|e| - 1], s);
  }

  lemma {:induction false} RunBounded(e: seq<State>)
    requires SettlingRun(e)
    ensures Bounded(e)
  {
    if |e| > 1 {
      var front, s := e[..|e| - 1], e[|e| - 1];
      FrontSettles(e);
      RunBounded(front);
      assert Settles(front[|front| - 1], s) by {
        assert SettlesAt(e, |e| - 2);
      }
      OneMoreStep(front, s);
      FrontAndLast(e);
    }
  }

  /** Once no new push begins, producers can move only a bounded number of times. */
  lemma PushesFinish(e: seq<State>)
    requires SettlingRun(e)
    ensures Inv(e[|e| - 1])
    ensures Moves(e) + Measure(e[|e| - 1]) <= Measure(e[0])
  {
    RunBounded(e);
  }

  lemma FullBufferHasHolder(s: State) returns (q: nat)
    requires Inv(s) && s.sealer == None && |Last(s)| == s.size
    ensures q < |s.prods| && Holds(s.prods[q])
  {
    var g := |s.logs| - 1;
    SubsetOfBelow(s.bufs[g].counted, s.size);
    if forall t: nat :: 0 <= t < s.size ==> t in s.bufs[g].counted {
      HoldsBelow(s.bufs[g].counted, s.size);
    }
    var t: nat :| 0 <= t < s.size && t !in s.bufs[g].counted;
    assert SlotOk(s, g, t);
    q := s.logs[g][t].pid;
  }

  /** This producer's next step changes its program counter. */
  ghost predicate CanMove(s: State, q: nat) {
    q < |s.prods| && ProducerStep(s, q).prods != s.prods
  }

  lemma MovesIf(s: State, q: nat)
    requires q < |s.prods| && s.logs != []
    requires match s.prods[q]
      case Idle => false
      case Spinning(_) => !Full(s)
      case Swapped => s.lock == None
      case _ => true
    ensures CanMove(s, q)
  {
    assert ProducerStep(s, q).prods[q] != s.prods[q];
  }

  lemma OwnersStand(s: State)
    requires Inv(s)
    ensures s.logs != []
    ensures s.lock.Some? && s.lock.value.ByProducer? ==>
      s.lock.value.pid < |s.prods| && Owns(s.prods[s.lock.value.pid])
    ensures s.lock == Some(ByReader) ==> ReaderOwns(s.reader)
    ensures s.sealer.Some? ==> s.sealer.value < |s.prods| && Replacing(s.prods[s.sealer.value])
    ensures s.sealer == None && Full(s) ==> |Last(s)| == s.size
  {
  }

  /** While a push is in flight, either some producer can move or the reader holds the lock, and
      then its next step is possible: nobody waits for ever on nothing. */
  lemma NoDeadlock(s: State, p: nat)
    requires Inv(s) && p < |s.prods| && s.prods[p] != Idle
    ensures (exists q :: 0 <= q < |s.prods| && ProducerStep(s, q).prods != s.prods)
      || (s.lock == Some(ByReader) && ReaderOwns(s.reader) && ReaderStep(s) != s)
  {
    OwnersStand(s);
    if s.lock == Some(ByReader) {
      assert ReaderStep(s).reader != s.reader;
    } else {
      var q := MoverExists(s, p);
    }
  }

  /** Whom a push in flight waits for: the lock's owner, the sealer, a ticket holder, or nobody. */
  lemma MoverExists(s: State, p: nat) returns (q: nat)
    requires Inv(s) && p < |s.prods| && s.prods[p] != Idle && s.lock != Some(ByReader)
    ensures CanMove(s, q)
  {
    OwnersStand(s);
    q := p;
    if s.lock.Some? {
      q := s.lock.value.pid;
    } else if s.sealer.Some? {
      q := s.sealer.value;
    } else if s.prods[p].Spinning? && Full(s) {
      q := FullBufferHasHolder(s);
    }
    MovesIf(s, q);
  }
}
