/** What a call of the ring's try_pop does while producers push, and that nobody waits for ever on a slot. */
module RingCalls {
  import opened Sequences
  import opened Logger
  import opened RingBuffer
  import opened RingTheorems

  // ------------------------------------------------------------ slots are locked only from inside

  /** A locked slot belongs to a thread that is between taking and releasing its lock. */
  predicate LockOk(s: State, c: nat)
    requires c < |s.cells|
  {
    match s.cells[c].lock
    case None => true
    case Some(ByProducer(p)) => p < |s.prods| && HasLock(s.prods[p]) && s.prods[p].cell == c
    case Some(ByReader) => !s.reader.AtCall? && s.reader.cell == c
  }

  ghost predicate LocksOwned(s: State) {
    forall c {:trigger LockOk(s, c)} :: 0 <= c < |s.cells| ==> LockOk(s, c)
  }

  lemma ProducerKeepsLocks(s: State, p: nat)
    requires Inv(s) && LocksOwned(s) && p < |s.prods|
    ensures LocksOwned(ProducerStep(s, p))
  {
    var s' := ProducerStep(s, p);
    assert ProducerOk(s, p);
    forall c | 0 <= c < |s'.cells| ensures LockOk(s', c) {
      assert c < |s.cells| && LockOk(s, c);
    }
  }

  lemma ReaderKeepsLocks(s: State)
    requires Inv(s) && LocksOwned(s)
    ensures LocksOwned(ReaderStep(s))
  {
    var s' := ReaderStep(s);
    forall c | 0 <= c < |s'.cells| ensures LockOk(s', c) {
      assert c < |s.cells| && LockOk(s, c);
    }
  }

  lemma NextKeepsLocks(s: State, s': State)
    requires Inv(s) && LocksOwned(s) && Next(s, s')
    ensures LocksOwned(s')
  {
    if p: nat, line: Line :| PushStarts(s, s', p, line) {
      forall c | 0 <= c < |s'.cells| ensures LockOk(s', c) {
        assert LockOk(s, c);
      }
    } else if p: nat :| ProducerMoves(s, s', p) {
      ProducerKeepsLocks(s, p);
    } else {
      ReaderKeepsLocks(s);
    }
  }

  /** In every interleaving, a locked slot's owner is inside its critical section. */
  lemma {:induction false} RunKeepsLocks(e: seq<State>, i: nat)
    requires Run(e) && i < |e|
    ensures LocksOwned(e[i])
  {
    if i > 0 {
      RunKeepsLocks(e, i - 1);
      RunKeeps(e, i - 1);
      assert Follows(e, i - 1);
      NextKeepsLocks(e[i - 1], e[i]);
    }
  }

  // ------------------------------------------------------------ nobody waits in vain

  function PushLeft(pc: Producer): nat {
    match pc
    case Idle => 0
    case Marked(_) => 1
    case Stored(_, _) => 2
    case Holding(_, _, _) => 3
    case Ticketed(_, _, _) => 4
    case Ready(_) => 5
  }

  function CallLeft(r: Reader): nat {
    match r
    case AtCall => 0
    case Leaving(_) => 1
    case Taken(_) => 2
    case Locked(_) => 3
  }

  /** A thread's next step gets it on. */
  ghost predicate PushMoves(s: State, p: nat) {
    0 < s.size && p < |s.prods| && PushLeft(ProducerStep(s, p).prods[p]) < PushLeft(s.prods[p])
  }

  ghost predicate CallMoves(s: State) {
    0 < s.size && if s.reader == AtCall then ReaderStep(s).reader != AtCall
                  else CallLeft(ReaderStep(s).reader) < CallLeft(s.reader)
  }

  /** The owner of a slot's lock can go on. */
  ghost predicate OwnerMoves(s: State, c: nat)
    requires c < |s.cells|
  {
    match s.cells[c].lock
    case None => false
    case Some(ByProducer(q)) => PushMoves(s, q)
    case Some(ByReader) => CallMoves(s)
  }

  lemma LockedMoves(s: State, c: nat)
    requires Inv(s) && LocksOwned(s) && c < |s.cells| && s.cells[c].lock.Some?
    ensures OwnerMoves(s, c)
  {
    assert LockOk(s, c);
  }

  /** A push in flight gets on with its next step, five steps in all, or it waits for the lock of its
      ticket's slot, whose owner gets on. */
  lemma PushGoesOn(e: seq<State>, i: nat, p: nat)
    requires Run(e) && i < |e| && p < |e[i].prods| && e[i].prods[p] != Idle
    ensures var s := e[i];
      || PushMoves(s, p)
      || (s.prods[p].Ticketed? && s.prods[p].cell < |s.cells| && OwnerMoves(s, s.prods[p].cell))
  {
    var s := e[i];
    RunKeeps(e, i);
    RunKeepsLocks(e, i);
    assert ProducerOk(s, p);
    if s.prods[p].Ticketed? && s.cells[s.prods[p].cell].lock.Some? {
      LockedMoves(s, s.prods[p].cell);
    }
  }

  /** The reader gets on with its next step, four steps in a call at most, or it waits for the lock of the
      slot of its read index, whose owner gets on. */
  lemma CallGoesOn(e: seq<State>, i: nat)
    requires Run(e) && i < |e|
    ensures var s := e[i];
      || CallMoves(s)
      || (s.reader == AtCall && 0 < s.size == |s.cells| && OwnerMoves(s, s.readIndex % s.size))
  {
    var s := e[i];
    RunKeeps(e, i);
    RunKeepsLocks(e, i);
    if s.reader == AtCall && s.cells[s.readIndex % s.size].lock.Some? {
      LockedMoves(s, s.readIndex % s.size);
    }
  }

  // ------------------------------------------------------------ one call in a run

  /** The slot a call that begins in state s looks at. */
  function NextSlot(s: State): nat {
    if s.size == 0 then 0 else |s.popped| % 0x1_0000_0000 % s.size
  }

  predicate NextWritten(s: State) {
    NextSlot(s) < |s.cells| && s.cells[NextSlot(s)].written
  }

  predicate SameOutput(b: State, s: State) {
    s.size == b.size && s.output == b.output && s.popped == b.popped
  }

  /** The call that began in state b finds its slot written in state m, and by state s it has handed out
      the slot's line, for the slot's ticket. */
  predicate Took(b: State, m: State, s: State) {
    var c := NextSlot(b);
    && SameOutput(b, m) && m.reader == Locked(c)
    && c < |m.cells| && m.cells[c].written && m.cells[c].content.Some?
    && s.size == b.size
    && s.output == b.output + [m.cells[c].line]
    && s.popped == b.popped + [m.cells[c].content.value]
  }

  /** The call that began in state b finds in state m that its slot is not written. */
  predicate Missed(b: State, m: State) {
    SameOutput(b, m) && m.reader == Locked(NextSlot(b)) && !NextWritten(m)
  }

  lemma LockedSlot(s: State)
    requires Inv(s)
    ensures NextSlot(s) < |s.cells|
    ensures s.reader.Locked? ==> s.reader.cell == NextSlot(s)
    ensures s.reader.AtCall? ==> s.readIndex % s.size == NextSlot(s)
  {
  }

  /** Whatever the producers are doing, a reader that holds the lock of its slot hands out the slot's line
      and ticket with its next step if the slot is written, and nothing if it is not. */
  lemma WrittenIsTaken(s: State)
    requires Inv(s) && s.reader.Locked?
    ensures if NextWritten(s) then Took(s, s, ReaderStep(s))
            else SameOutput(s, ReaderStep(s)) && ReaderStep(s).reader.Leaving?
  {
    LockedSlot(s);
    if NextWritten(s) {
      WrittenHasContent(s);
    }
  }

  /** A call of try_pop from index i to index j of a run. */
  ghost predicate Call(e: seq<State>, i: nat, j: nat) {
    && i + 1 < j < |e| && e[i].reader == AtCall && e[j].reader == AtCall
    && forall k :: i < k < j ==> e[k].reader != AtCall
  }

  ghost predicate TookBetween(e: seq<State>, i: nat, k: nat) {
    i < k < |e| && exists m :: i < m < k && Took(e[i], e[m], e[k])
  }

  ghost predicate MissedBetween(e: seq<State>, i: nat, k: nat) {
    i < k < |e| && SameOutput(e[i], e[k]) && exists m :: i < m < k && Missed(e[i], e[m])
  }

  ghost predicate Stage(e: seq<State>, i: nat, k: nat)
    requires i < k < |e|
  {
    match e[k].reader
    case Locked(c) => SameOutput(e[i], e[k])
    case Taken(_) => TookBetween(e, i, k)
    case _ => TookBetween(e, i, k) || MissedBetween(e, i, k)
  }

  /** What steps of producers leave alone. */
  predicate ReaderUntouched(s: State, t: State) {
    SameOutput(s, t) && t.reader == s.reader
  }

  predicate WrittenStays(s: State, t: State) {
    NextWritten(s) && SameOutput(s, t) ==> NextWritten(t)
  }

  lemma ProducerUntouched(s: State, p: nat)
    requires 0 < s.size && p < |s.prods|
    ensures ReaderUntouched(s, ProducerStep(s, p)) && WrittenStays(s, ProducerStep(s, p))
  {
  }

  lemma ReaderWrittenStays(s: State)
    requires Inv(s)
    ensures s.reader.Taken? || WrittenStays(s, ReaderStep(s))
    ensures ReaderStep(s).size == s.size && |s.popped| <= |ReaderStep(s).popped|
  {
  }

  lemma NextReads(s: State, t: State)
    requires Inv(s) && Next(s, t)
    ensures t == ReaderStep(s) || ReaderUntouched(s, t)
    ensures s.reader.Taken? || WrittenStays(s, t)
    ensures t.size == s.size && |s.popped| <= |t.popped|
  {
    if p: nat, line: Line :| PushStarts(s, t, p, line) {
    } else if p: nat :| ProducerMoves(s, t, p) {
      ProducerUntouched(s, p);
    } else {
      ReaderWrittenStays(s);
    }
  }

  lemma OthersStage(e: seq<State>, i: nat, k: nat)
    requires i < k && k + 1 < |e| && ReaderUntouched(e[k], e[k + 1]) && Stage(e, i, k)
    ensures Stage(e, i, k + 1)
  {
    if TookBetween(e, i, k) {
      var m :| i < m < k && Took(e[i], e[m], e[k]);
      assert Took(e[i], e[m], e[k + 1]);
    }
  }

  lemma ReaderStage(e: seq<State>, i: nat, k: nat)
    requires i < k && k + 1 < |e| && Inv(e[k]) && e[k + 1] == ReaderStep(e[k])
    requires e[k].reader != AtCall && Stage(e, i, k)
    ensures Stage(e, i, k + 1)
  {
    if e[k].reader.Locked? {
      WrittenIsTaken(e[k]);
      LockedSlot(e[k]);
      if NextWritten(e[k]) {
        assert Took(e[i], e[k], e[k + 1]);
      } else {
        assert Missed(e[i], e[k]);
      }
    } else if TookBetween(e, i, k) {
      var m :| i < m < k && Took(e[i], e[m], e[k]);
      assert Took(e[i], e[m], e[k + 1]);
    }
  }

  lemma FirstStage(e: seq<State>, i: nat)
    requires i + 1 < |e| && Inv(e[i]) && Next(e[i], e[i + 1]) && e[i].reader == AtCall && e[i + 1].reader != AtCall
    ensures Stage(e, i, i + 1)
  {
    NextReads(e[i], e[i + 1]);
  }

  lemma {:induction false} StageAt(e: seq<State>, i: nat, j: nat, k: nat)
    requires Run(e) && Call(e, i, j) && i < k <= j
    ensures Stage(e, i, k)
    decreases k
  {
    assert Follows(e, k - 1);
    RunKeeps(e, k - 1);
    if k == i + 1 {
      FirstStage(e, i);
    } else {
      StageAt(e, i, j, k - 1);
      NextReads(e[k - 1], e[k]);
      if e[k] == ReaderStep(e[k - 1]) {
        ReaderStage(e, i, k - 1);
      } else {
        OthersStage(e, i, k - 1);
      }
    }
  }

  /** Whatever producers do in the meantime, a call of try_pop looks at the slot of its read index: it hands
      out the line that is in the slot when it is found written, or nothing if it is found not to be. */
  lemma CallTakesOrMisses(e: seq<State>, i: nat, j: nat)
    requires Run(e) && Call(e, i, j)
    ensures TookBetween(e, i, j) || MissedBetween(e, i, j)
  {
    StageAt(e, i, j, j);
  }

  lemma {:induction false} WrittenKept(e: seq<State>, i: nat, j: nat, k: nat)
    requires Run(e) && Call(e, i, j) && i <= k <= j && NextWritten(e[i]) && SameOutput(e[i], e[k])
    ensures NextWritten(e[k])
    decreases k
  {
    if i < k {
      assert Follows(e, k - 1);
      RunKeeps(e, k - 1);
      NextReads(e[k - 1], e[k]);
      if i < k - 1 {
        StageAt(e, i, j, k - 1);
      }
      WrittenKept(e, i, j, k - 1);
    }
  }

  /** A call that begins when its slot is written hands out a line. */
  lemma WrittenCallTakes(e: seq<State>, i: nat, j: nat)
    requires Run(e) && Call(e, i, j) && NextWritten(e[i])
    ensures TookBetween(e, i, j)
  {
    CallTakesOrMisses(e, i, j);
    if MissedBetween(e, i, j) {
      var m :| i < m < j && Missed(e[i], e[m]);
      WrittenKept(e, i, j, m);
      assert false;
    }
  }
}
