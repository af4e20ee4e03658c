/** What a call of try_pop does while producers push: over every run, whoever moves in between. */
module QueueCalls {
  import opened Sequences
  import opened Logger
  import opened QueueBuffer
  import QueueSafety

  /** The slot that is read next has been flagged. */
  predicate NextFlagged(s: State) {
    && s.readGen < |s.bufs| && s.readIndex < |s.bufs[s.readGen].flags|
    && s.bufs[s.readGen].flags[s.readIndex]
  }

  /** From s to t just the line of s's next ticket was popped. */
  predicate PoppedNext(s: State, t: State) {
    && s.readGen < |t.logs| && s.readIndex < |t.logs[s.readGen]|
    && t.popped == s.popped + [t.logs[s.readGen][s.readIndex].line]
  }

  /** The reader is where it was. */
  predicate SamePlace(s: State, t: State) {
    t.popped == s.popped && t.readGen == s.readGen && t.readIndex == s.readIndex
  }

  lemma FlaggedHasTicket(s: State)
    requires Inv(s) && NextFlagged(s)
    ensures s.readGen < |s.logs| && s.readIndex < |s.logs[s.readGen]|
    ensures LineAt(s, s.readGen, s.readIndex) == s.logs[s.readGen][s.readIndex].line
  {
    assert SlotOk(s, s.readGen, s.readIndex);
  }

  /** Whatever the producers are doing, a reader at its test whose slot is flagged takes the line of the slot's
      ticket in its next two steps; one whose slot is not flagged ends its call with nothing. */
  lemma FlaggedIsTaken(s: State)
    requires Inv(s) && s.reader.AtTest?
    ensures var t := ReaderStep(s);
      if NextFlagged(s) then PoppedNext(s, ReaderStep(t)) else t.reader == AtCall && SamePlace(s, t)
  {
    if NextFlagged(s) {
      FlaggedHasTicket(s);
    }
  }

  // ---------------------------------------------------------------- one call in a run

  /** A call of try_pop from index i to index j of a run. */
  ghost predicate Call(e: seq<State>, i: nat, j: nat) {
    && i + 1 < j < |e| && e[i].reader == AtCall && e[j].reader == AtCall
    && forall k :: i < k < j ==> e[k].reader != AtCall
  }

  /** The reader tested a slot that was not flagged, or found no buffer to test. */
  ghost predicate FoundNothing(s: State) {
    !NextFlagged(s) && (s.reader.AtTest? || (s.reader.AtFront? && s.queue == []))
  }

  ghost predicate FoundNothingBetween(e: seq<State>, i: nat, k: nat) {
    exists m :: i < m < k < |e| && FoundNothing(e[m]) && SamePlace(e[i], e[m])
  }

  /** How far a call that began in state b has come in state s, and whether it has found nothing. */
  predicate Stage(b: State, s: State, missed: bool) {
    match s.reader
    case WantRetire => PoppedNext(b, s)
    case AtRetire => PoppedNext(b, s)
    case Retired => PoppedNext(b, s)
    case AtCall => PoppedNext(b, s) || (SamePlace(b, s) && missed)
    case FrontRead => SamePlace(b, s) && (s.readBuf == None ==> missed)
    case _ => SamePlace(b, s)
  }

  /** What steps of producers leave alone. */
  predicate ReaderUntouched(s: State, t: State) {
    && SamePlace(s, t) && t.reader == s.reader && t.readBuf == s.readBuf
    && |s.logs| <= |t.logs| && forall g :: 0 <= g < |s.logs| ==> s.logs[g] <= t.logs[g]
  }

  predicate FlagsStay(s: State, t: State) {
    NextFlagged(s) && SamePlace(s, t) ==> NextFlagged(t)
  }

  lemma ProducerUntouched(s: State, p: nat)
    requires p < |s.prods| && s.logs != []
    ensures ReaderUntouched(s, ProducerStep(s, p))
  {
  }

  lemma ProducerFlagsStay(s: State, p: nat)
    requires p < |s.prods|
    ensures FlagsStay(s, ProducerStep(s, p))
  {
  }

  lemma ReaderFlagsStay(s: State)
    ensures FlagsStay(s, ReaderStep(s))
    ensures ReaderStep(s).logs == s.logs
  {
  }

  /** A step is the reader's, or leaves the reader alone; flags stay up. */
  lemma NextReads(s: State, t: State)
    requires Inv(s) && Next(s, t)
    ensures t == ReaderStep(s) || ReaderUntouched(s, t)
    ensures FlagsStay(s, t)
  {
    if p: nat, line: Line :| PushStarts(s, t, p, line) {
    } else if p: nat :| ProducerMoves(s, t, p) {
      ProducerUntouched(s, p);
      ProducerFlagsStay(s, p);
    } else {
      ReaderFlagsStay(s);
    }
  }

  lemma EmptyLookup(s: State)
    requires Inv(s) && s.reader.AtFront? && s.queue == []
    ensures FoundNothing(s)
  {
    if NextFlagged(s) {
      FlaggedHasTicket(s);
    }
  }

  lemma StageStep(b: State, s: State, missed: bool)
    requires Inv(s) && s.reader != AtCall && Stage(b, s, missed)
    ensures Stage(b, ReaderStep(s), missed || (FoundNothing(s) && SamePlace(b, s)))
  {
    if s.reader.AtFront? && s.queue == [] {
      EmptyLookup(s);
    } else if s.reader.AtTake? {
      FlaggedHasTicket(s);
    }
  }

  lemma StageStays(b: State, s: State, t: State, missed: bool)
    requires Stage(b, s, missed) && ReaderUntouched(s, t)
    ensures Stage(b, t, missed)
  {
  }

  lemma NextStage(b: State, s: State, t: State, missed: bool)
    requires Inv(s) && s.reader != AtCall && Stage(b, s, missed) && Next(s, t)
    ensures Stage(b, t, missed || (FoundNothing(s) && SamePlace(b, s)))
  {
    NextReads(s, t);
    if t == ReaderStep(s) {
      StageStep(b, s, missed);
    } else {
      StageStays(b, s, t, missed);
    }
  }

  lemma FirstStage(b: State, t: State)
    requires Inv(b) && b.reader == AtCall && t.reader != AtCall && Next(b, t)
    ensures Stage(b, t, false)
  {
    NextReads(b, t);
  }

  lemma {:induction false} StageAt(e: seq<State>, i: nat, j: nat, k: nat)
    requires Run(e) && Call(e, i, j) && i < k <= j
    ensures Stage(e[i], e[k], FoundNothingBetween(e, i, k))
    decreases k
  {
    assert Follows(e, k - 1);
    QueueSafety.RunKeeps(e, k - 1);
    if k == i + 1 {
      FirstStage(e[i], e[k]);
    } else {
      StageAt(e, i, j, k - 1);
      NextStage(e[i], e[k - 1], e[k], FoundNothingBetween(e, i, k - 1));
    }
  }

  /** Whatever producers do in the meantime, a call of try_pop pops the line of the next ticket and no other,
      or it pops nothing; then at some moment of the call the next ticket's slot was not flagged, when the
      reader tested it or had no buffer to test. */
  lemma CallPopsOrFindsNothing(e: seq<State>, i: nat, j: nat)
    requires Run(e) && Call(e, i, j)
    ensures PoppedNext(e[i], e[j]) || (SamePlace(e[i], e[j]) && FoundNothingBetween(e, i, j))
  {
    StageAt(e, i, j, j);
  }

  /** While nothing was popped since state b, the slot that was flagged then still is. */
  predicate KeptFlag(b: State, s: State) {
    NextFlagged(b) && SamePlace(b, s) ==> NextFlagged(s)
  }

  lemma PoppedGrows(s: State, t: State)
    requires Next(s, t)
    ensures |s.popped| <= |t.popped|
  {
    if p: nat, line: Line :| PushStarts(s, t, p, line) {
    } else if p: nat :| ProducerMoves(s, t, p) {
      ProducerPopsNothing(s, p);
    } else {
      ReaderPopsOn(s);
    }
  }

  lemma ProducerPopsNothing(s: State, p: nat)
    requires p < |s.prods|
    ensures ProducerStep(s, p).popped == s.popped
  {
  }

  lemma ReaderPopsOn(s: State)
    ensures |s.popped| <= |ReaderStep(s).popped|
  {
  }

  lemma {:induction false} FlagKept(e: seq<State>, i: nat, j: nat, k: nat)
    requires Run(e) && Call(e, i, j) && i <= k <= j
    ensures KeptFlag(e[i], e[k])
    decreases k
  {
    if i < k {
      FlagKept(e, i, j, k - 1);
      CallPlace(e, i, j, k - 1);
      RunFlagStep(e, e[i], k - 1);
    }
  }

  lemma CallPlace(e: seq<State>, i: nat, j: nat, k: nat)
    requires Run(e) && Call(e, i, j) && i <= k <= j
    ensures PoppedNext(e[i], e[k]) || SamePlace(e[i], e[k])
  {
    if i < k {
      StageAt(e, i, j, k);
    }
  }

  lemma RunFlagStep(e: seq<State>, b: State, k: nat)
    requires Run(e) && k + 1 < |e| && KeptFlag(b, e[k]) && (PoppedNext(b, e[k]) || SamePlace(b, e[k]))
    ensures KeptFlag(b, e[k + 1])
  {
    assert Follows(e, k);
    QueueSafety.RunKeeps(e, k);
    FlagStep(b, e[k], e[k + 1]);
  }

  lemma FlagStep(b: State, s: State, t: State)
    requires Inv(s) && Next(s, t) && KeptFlag(b, s) && (PoppedNext(b, s) || SamePlace(b, s))
    ensures KeptFlag(b, t)
  {
    NextReads(s, t);
    PoppedGrows(s, t);
  }

  /** A call that begins when the next ticket's slot is flagged pops that ticket's line, whatever producers do
      in the meantime. */
  lemma FlaggedCallPops(e: seq<State>, i: nat, j: nat)
    requires Run(e) && Call(e, i, j) && NextFlagged(e[i])
    ensures PoppedNext(e[i], e[j])
  {
    CallPopsOrFindsNothing(e, i, j);
    if FoundNothingBetween(e, i, j) {
      var m :| i < m < j && FoundNothing(e[m]) && SamePlace(e[i], e[m]);
      FlagKept(e, i, j, m);
      assert false;
    }
  }

  // ---------------------------------------------------------------- a call ends

  /** The reader's steps to the end of the call, at most. */
  function StepsLeft(r: Reader): nat {
    match r
    case AtCall => 0
    case Retired => 1
    case AtRetire => 2
    case WantRetire => 3
    case AtTake => 4
    case AtTest => 5
    case FrontRead => 6
    case AtFront => 7
    case WantFront => 8
  }

  /** Every step of the reader brings its call nearer to the end, unless a producer has the lock it waits
      for; that producer can go on. */
  lemma ReaderGoesOn(s: State)
    requires Inv(s)
    ensures if (s.reader.WantFront? || s.reader.WantRetire?) && s.lock.Some? then
        && s.lock.value.ByProducer? && s.lock.value.pid < |s.prods|
        && ProducerStep(s, s.lock.value.pid).prods != s.prods
      else if s.reader == AtCall then ReaderStep(s).reader != AtCall
      else StepsLeft(ReaderStep(s).reader) < StepsLeft(s.reader)
  {
    if (s.reader.WantFront? || s.reader.WantRetire?) && s.lock.Some? {
      ProducerHasLock(s);
      OwnerGoesOn(s, s.lock.value.pid);
    } else {
      FreeReaderGoesOn(s);
    }
  }

  lemma ProducerHasLock(s: State)
    requires Locks(s) && (s.reader.WantFront? || s.reader.WantRetire?) && s.lock.Some?
    ensures s.lock.value.ByProducer? && s.lock.value.pid < |s.prods| && Owns(s.prods[s.lock.value.pid])
  {
    assert s.lock.value == ByReader || s.lock.value.ByProducer?;
  }

  lemma FreeReaderGoesOn(s: State)
    requires !(s.reader.WantFront? || s.reader.WantRetire?) || s.lock == None
    ensures if s.reader == AtCall then ReaderStep(s).reader != AtCall
            else StepsLeft(ReaderStep(s).reader) < StepsLeft(s.reader)
  {
  }

  lemma OwnerGoesOn(s: State, p: nat)
    requires p < |s.prods| && Owns(s.prods[p])
    ensures ProducerStep(s, p).prods != s.prods
  {
    assert ProducerStep(s, p).prods[p] != s.prods[p];
  }

  // ---------------------------------------------------------------- what has been flagged

  /** A ticket whose slot is not flagged is one that its producer is still working on; so when a push has
      returned, its line's slot is flagged. */
  lemma UnflaggedIsInFlight(e: seq<State>, i: nat, g: nat, t: nat)
    requires Run(e) && i < |e| && g < |e[i].logs| && t < |e[i].logs[g]|
    ensures g < |e[i].bufs| && t < |e[i].bufs[g].flags|
    ensures var s := e[i];
      var p := s.logs[g][t].pid;
      s.bufs[g].flags[t] || (p < |s.prods| && Holds(s.prods[p]) && s.prods[p].ticket == t && g + 1 == |s.logs|)
  {
    QueueSafety.RunKeeps(e, i);
    TicketFlagged(e[i], g, t);
  }

  lemma TicketFlagged(s: State, g: nat, t: nat)
    requires Inv(s) && g < |s.logs| && t < |s.logs[g]|
    ensures g < |s.bufs| && t < s.size && |s.bufs[g].flags| == s.size
    ensures var p := s.logs[g][t].pid;
      s.bufs[g].flags[t] || (p < |s.prods| && Holds(s.prods[p]) && s.prods[p].ticket == t && g + 1 == |s.logs|)
  {
    assert BufferOk(s.bufs[g], g, s.size, |s.logs|);
    assert SlotOk(s, g, t);
  }
}
