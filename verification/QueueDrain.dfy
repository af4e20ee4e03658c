/** The log writer's final loop: with no push in flight, popping until nothing is left. */
module QueueDrain {
  import opened Sequences
  import opened Logger
  import opened QueueBuffer
  import QueueSafety
  import QueueTheorems

  /** No push is in flight and the reader is between two calls. */
  ghost predicate Quiet(s: State) {
    && (forall p :: 0 <= p < |s.prods| ==> s.prods[p] == Idle)
    && s.reader == AtCall
  }

  /** The reader's steps in one call, while nobody else moves. */
  ghost predicate ReaderAlone(s: State, s': State) {
    s'.prods == s.prods && s'.logs == s.logs && s'.sent == s.sent && s'.size == s.size
  }

  lemma ReaderTouches(s: State)
    ensures ReaderAlone(s, ReaderStep(s))
    ensures !s.reader.AtTake? ==> ReaderStep(s).popped == s.popped
  {
  }

  lemma ReaderStepAlone(s: State)
    requires Inv(s)
    ensures !s.reader.AtTake? ==> ReaderStep(s).popped == s.popped
    ensures Inv(ReaderStep(s)) && ReaderAlone(s, ReaderStep(s))
  {
    ReaderTouches(s);
    QueueSafety.ReaderKeeps(s);
  }

  /** Without pushes in flight every ticket's slot is flagged and the current buffer is not full. */
  lemma QuietFacts(s: State)
    requires Inv(s) && forall p :: 0 <= p < |s.prods| ==> s.prods[p] == Idle
    ensures s.sealer == None && |s.bufs| == |s.logs| && |Last(s)| < s.size
    ensures s.readGen < |s.logs|
    ensures QueueLow(s) < QueueHigh(s)
    ensures !ReaderOwns(s.reader) ==> s.lock == None
    ensures s.readIndex < |s.logs[s.readGen]| ==> FlagAt(s, s.readGen, s.readIndex)
    ensures s.readIndex == |s.logs[s.readGen]| ==> s.readGen == |s.logs| - 1 && !FlagAt(s, s.readGen, s.readIndex)
  {
    var g := |s.logs| - 1;
    assert s.sealer == None;
    assert s.lock.Some? ==> s.lock.value.ByProducer? || s.lock.value.ByReader?;
    forall t | 0 <= t < |Last(s)| ensures t in s.bufs[g].counted {
      assert SlotOk(s, g, t);
    }
    SubsetOfBelow(s.bufs[g].counted, s.size);
    HoldsBelow(s.bufs[g].counted, |Last(s)|);
    assert SlotOk(s, s.readGen, s.readIndex);
  }

  lemma QuietDone(s: State)
    requires Inv(s) && Quiet(s) && s.readIndex == |s.logs[|s.logs| - 1]| && s.readGen == |s.logs| - 1
    ensures s.popped == Lines(Order(s))
  {
    assert s.logs[s.readGen][..s.readIndex] == s.logs[s.readGen];
  }

  lemma TakeAppends(s: State)
    requires Inv(s) && s.reader.AtTake?
    ensures Inv(ReaderStep(s)) && ReaderAlone(s, ReaderStep(s))
    ensures ReaderStep(s).reader == AtCall || ReaderStep(s).reader == WantRetire
    ensures ReaderStep(s).popped == s.popped + [LineAt(s, s.readGen, s.readIndex)]
    ensures |ReaderStep(s).popped| == |s.popped| + 1 <= |Order(s)|
  {
    QueueSafety.ReaderKeeps(s);
    var s' := ReaderStep(s);
    QueueTheorems.ConsumedIsPrefix(s');
    assert |s'.popped| == |Consumed(s')|;
  }

  /** The start of try_pop: there is a buffer to read from. */
  method FindBuffer(s: State) returns (s': State)
    requires Inv(s) && Quiet(s)
    ensures Inv(s') && ReaderAlone(s, s') && s'.popped == s.popped && s'.reader.AtTest?
  {
    QuietFacts(s);
    s' := ReaderStep(s);
    ReaderStepAlone(s);
    if s'.reader.WantFront? {
      s' := LookUpFront(s');
    }
  }

  /** One call of try_pop. */
  method TryPop(s: State) returns (s': State, ok: bool)
    requires Inv(s) && Quiet(s)
    ensures Inv(s') && Quiet(s') && ReaderAlone(s, s')
    ensures ok ==> |s'.popped| == |s.popped| + 1 <= |Order(s)| && s.popped <= s'.popped
    ensures !ok ==> s'.popped == s.popped == Lines(Order(s))
  {
    s' := FindBuffer(s);
    QuietFacts(s');
    var tested := ReaderStep(s');
    ReaderStepAlone(s');
    ok := tested.reader.AtTake?;
    if !ok {
      s' := tested;
      QuietDone(s');
      return;
    }
    TakeAppends(tested);
    s' := ReaderStep(tested);
    if s'.reader.WantRetire? {
      s' := RetireBuffer(s');
    }
  }

  /** The lookup of the next read buffer, which finds one. */
  method LookUpFront(s: State) returns (s': State)
    requires Inv(s) && s.reader.WantFront?
    requires forall p :: 0 <= p < |s.prods| ==> s.prods[p] == Idle
    ensures Inv(s') && ReaderAlone(s, s') && s'.popped == s.popped && s'.reader.AtTest?
  {
    QuietFacts(s);
    s' := ReaderStep(s);
    ReaderStepAlone(s);
    var front := ReaderStep(s');
    QuietFacts(s');
    ReaderStepAlone(s');
    s' := ReaderStep(front);
    ReaderStepAlone(front);
  }

  /** Removing a buffer that was read to its end. */
  method RetireBuffer(s: State) returns (s': State)
    requires Inv(s) && s.reader.WantRetire?
    requires forall p :: 0 <= p < |s.prods| ==> s.prods[p] == Idle
    ensures Inv(s') && Quiet(s') && ReaderAlone(s, s') && s'.popped == s.popped
    ensures s.queue != [] && s'.queue == s.queue[1..]
  {
    QuietFacts(s);
    RetireSteps(s);
    s' := ReaderStep(s);
    ReaderStepAlone(s);
    var removed := ReaderStep(s');
    ReaderStepAlone(s');
    s' := ReaderStep(removed);
    ReaderStepAlone(removed);
  }

  lemma RetireSteps(s: State)
    requires s.reader.WantRetire? && s.lock == None
    ensures var locked := ReaderStep(s);
      var removed := ReaderStep(locked);
      && locked.reader.AtRetire? && removed.reader.Retired?
      && ReaderStep(removed) == s.(reader := AtCall, queue := if s.queue == [] then [] else s.queue[1..])
  {
  }

  /** With no push in flight, every line a producer passed to push has its ticket. */
  lemma QuietSent(s: State)
    requires Inv(s) && Quiet(s)
    ensures forall p :: 0 <= p < |s.prods| ==> OfProducer(Order(s), p) == s.sent[p]
  {
    forall p | 0 <= p < |s.prods| ensures OfProducer(Order(s), p) == s.sent[p] {
      assert OfProducer(Order(s), p) + [] == OfProducer(Order(s), p);
    }
  }

  lemma Appended<T>(start: seq<T>, done: seq<T>, a: seq<T>, b: seq<T>)
    requires start + done == a <= b
    ensures start + (done + b[|a|..]) == b
  {
  }

  /** The final loop terminates, and then every line ever pushed has been written exactly once, in
      ticket order, over any number of buffer generations. */
  method Drain(s: State) returns (s': State, written: seq<Line>)
    requires Inv(s) && Quiet(s)
    ensures Inv(s') && Quiet(s') && ReaderAlone(s, s')
    ensures s.popped + written == s'.popped == Lines(Order(s))
    ensures AllPushed(Order(s), |s.prods|)
    ensures forall p :: 0 <= p < |s.prods| ==> OfProducer(Order(s), p) == s.sent[p]
  {
    QuietSent(s);
    QueueTheorems.ConsumedIsPrefix(s);
    s', written := s, [];
    var more := true;
    while more
      invariant Inv(s') && Quiet(s') && ReaderAlone(s, s')
      invariant s.popped + written == s'.popped
      invariant more ==> |s'.popped| <= |Order(s)|
      invariant !more ==> s'.popped == Lines(Order(s))
      decreases if more then |Order(s)| - |s'.popped| + 1 else 0
    {
      var before := s';
      s', more := TryPop(before);
      Appended(s.popped, written, before.popped, s'.popped);
      written := written + s'.popped[|before.popped|..];
    }
  }
}
