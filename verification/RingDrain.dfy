/** The log writer's final loop over the ring: with no push in flight, popping until nothing is left. */
module RingDrain {
  import opened Sequences
  import opened Logger
  import opened RingBuffer
  import opened RingTheorems
  import opened RingCalls

  /** No push is in flight, the reader is between two calls, and nothing was lost so far. */
  ghost predicate Settled(s: State) {
    && Inv(s) && LocksOwned(s) && Lossless(s) && Close(s)
    && (forall p :: 0 <= p < |s.prods| ==> s.prods[p] == Idle)
    && s.reader == AtCall
  }

  /** What the reader's steps leave alone. */
  predicate ReaderAlone(s: State, s': State) {
    s'.size == s.size && s'.tickets == s.tickets && s'.prods == s.prods && s'.sent == s.sent
  }

  lemma ReaderStepAlone(s: State)
    requires 0 < s.size
    ensures ReaderAlone(s, ReaderStep(s))
    ensures |s.popped| <= |ReaderStep(s).popped|
  {
  }

  /** Unless it takes a line, the reader's step leaves the lines handed out and lost as they are. */
  lemma ReaderTakesOrNot(s: State)
    requires 0 < s.size && !(s.reader.Locked? && CellAt(s, s.reader.cell).written)
    ensures ReaderStep(s).lost == s.lost && ReaderStep(s).popped == s.popped
  {
  }

  lemma StepKeeps(s: State)
    requires Inv(s) && LocksOwned(s) && Lossless(s) && Close(s)
    ensures var t := ReaderStep(s); Inv(t) && LocksOwned(t) && Lossless(t) && Close(t) && ReaderAlone(s, t)
  {
    ReaderStepAlone(s);
    assert Next(s, ReaderStep(s));
    NextKeeps(s, ReaderStep(s));
    ReaderKeepsLocks(s);
    NextLossless(s, ReaderStep(s));
  }

  /** The slot of the read index is free, and written just if a ticket has not been read. */
  lemma SettledSlot(s: State)
    requires Settled(s)
    ensures 0 < s.size == |s.cells| && s.readIndex % s.size == NextSlot(s) < |s.cells|
    ensures s.cells[NextSlot(s)].lock == None
    ensures |s.popped| <= |s.tickets|
    ensures s.cells[NextSlot(s)].written <==> |s.popped| < |s.tickets|
  {
    var c := NextSlot(s);
    LockedSlot(s);
    LosslessOutput(s);
    assert LockOk(s, c);
    assert CellOk(s, c);
    if |s.popped| < |s.tickets| {
      NextResident(s);
    } else if s.cells[c].written {
      UnreadTicket(s, s.cells[c].content.value);
      assert false;
    }
  }

  lemma NextResident(s: State)
    requires Settled(s) && |s.popped| < |s.tickets|
    ensures NextWritten(s)
  {
    var k := |s.popped|;
    assert TicketOk(s, k);
    assert forall x :: x in s.popped ==> x < k;
    LockedSlot(s);
    assert s.tickets[k].cell == SlotOf(k, s.size) == NextSlot(s);
    assert CellOk(s, NextSlot(s));
  }

  /** One call of try_pop. */
  method TryPop(s: State) returns (s': State, ok: bool)
    requires Settled(s)
    ensures Settled(s') && ReaderAlone(s, s')
    ensures |s'.popped| == |s.popped| + if ok then 1 else 0
    ensures ok <==> |s.popped| < |s.tickets|
  {
    SettledSlot(s);
    StepKeeps(s);
    s' := ReaderStep(s);
    assert s'.reader == Locked(NextSlot(s)) && s'.popped == s.popped;
    ok := CellAt(s', NextSlot(s)).written;
    s' := Finish(s', ok);
  }

  /** The rest of the call, with the slot's lock held. */
  method Finish(s: State, ok: bool) returns (s': State)
    requires Inv(s) && LocksOwned(s) && Lossless(s) && Close(s) && s.reader.Locked?
    requires forall p :: 0 <= p < |s.prods| ==> s.prods[p] == Idle
    requires ok <==> CellAt(s, s.reader.cell).written
    ensures Settled(s') && ReaderAlone(s, s')
    ensures |s'.popped| == |s.popped| + if ok then 1 else 0
  {
    StepKeeps(s);
    WrittenIsTaken(s);
    LockedSlot(s);
    s' := ReaderStep(s);
    if ok {
      StepKeeps(s');
      ReaderTakesOrNot(s');
      s' := ReaderStep(s');
    }
    StepKeeps(s');
    ReaderTakesOrNot(s');
    s' := ReaderStep(s');
  }

  /** When no push is in flight and nothing was lost, calling try_pop until it fails ends, and then every
      ticket's line has been handed out, in ticket order. */
  method Drain(s: State) returns (s': State)
    requires Settled(s)
    ensures Settled(s') && ReaderAlone(s, s')
    ensures |s'.output| == |s.tickets|
    ensures forall k :: 0 <= k < |s.tickets| ==> s'.output[k] == s.tickets[k].line
  {
    s' := s;
    SettledSlot(s);
    var more := true;
    while more
      invariant Settled(s') && ReaderAlone(s, s')
      invariant |s'.popped| <= |s.tickets|
      invariant !more ==> |s'.popped| == |s.tickets|
      decreases |s.tickets| - |s'.popped|, more
    {
      s', more := TryPop(s');
    }
    LosslessOutput(s');
  }
}
