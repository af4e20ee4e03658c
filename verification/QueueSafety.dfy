/** Every step of every thread keeps the queue's invariant. */
module QueueSafety {
  import Arithmetic
  import opened Sequences
  import opened Logger
  import opened QueueBuffer

  lemma OfProducerAppend(es: seq<Entry>, e: Entry, p: nat)
    ensures OfProducer(es + [e], p) == OfProducer(es, p) + if e.pid == p then [e.line] else []
  {
    assert (es + [e])[..|es|] == es;
  }

  lemma FlattenAppend<T>(logs: seq<seq<T>>, e: T)
    requires logs != []
    ensures Flatten(AddToLast(logs, e)) == Flatten(logs) + [e]
  {
    assert AddToLast(logs, e)[..|logs| - 1] == logs[..|logs| - 1];
  }

  lemma FlattenNewPart<T>(logs: seq<seq<T>>)
    ensures Flatten(logs + [[]]) == Flatten(logs)
  {
    assert (logs + [[]])[..|logs|] == logs;
  }

  lemma InitInv(s: State)
    requires Init(s)
    ensures Inv(s)
  {
    var buf := s.bufs[0];
    assert buf == NewBuffer(s.size);
    assert BufferOk(buf, 0, s.size, 1);
  }

  // ------------------------------------------------------------ what steps do not touch

  /** A step that leaves buffers, tickets and read position alone, taken by a producer that holds
      no ticket before or after (or by the reader), keeps what is known about the slots. */
  lemma SlotsUntouched(s: State, s': State)
    requires Shape(s) && Slots(s) && Shape(s')
    requires s'.size == s.size && s'.bufs == s.bufs && s'.logs == s.logs
    requires s'.readGen == s.readGen && s'.readIndex == s.readIndex
    requires |s'.prods| == |s.prods|
    requires forall q :: 0 <= q < |s.prods| ==>
      s'.prods[q] == s.prods[q] || (!Holds(s.prods[q]) && !Holds(s'.prods[q]))
    ensures Slots(s')
  {
    forall b, i | 0 <= b < |s'.bufs| && 0 <= i < s'.size ensures SlotOk(s', b, i) {
      assert SlotOk(s, b, i);
    }
  }

  lemma HistoryUntouched(s: State, s': State)
    requires Shape(s) && Reading(s) && History(s)
    requires Shape(s') && Reading(s')
    requires s'.logs == s.logs && s'.popped == s.popped
    requires s'.readGen == s.readGen && s'.readIndex == s.readIndex
    requires s'.sent == s.sent
    requires |s'.prods| == |s.prods|
    requires forall q :: 0 <= q < |s.prods| ==> Untold(s'.prods[q]) == Untold(s.prods[q])
    ensures History(s')
  {
  }

  /** Producer p moved; the others' tickets are as they were. */
  lemma HoldersMoved(s: State, s': State, p: nat)
    requires Shape(s) && Holders(s) && Shape(s')
    requires s'.logs == s.logs && |s'.prods| == |s.prods| && p < |s.prods|
    requires forall q :: 0 <= q < |s.prods| && q != p ==> s'.prods[q] == s.prods[q]
    requires HolderOk(s', p)
    requires forall t :: t in s'.bufs[|s.logs| - 1].counted ==>
      t in s.bufs[|s.logs| - 1].counted || (t < |Last(s)| && Last(s)[t].pid == p)
    ensures Holders(s')
  {
    forall q | 0 <= q < |s'.prods| ensures HolderOk(s', q) {
      assert HolderOk(s, q);
    }
  }

  // ------------------------------------------------------------ producers

  lemma StartPushKeeps(s: State, p: nat, line: Line)
    requires Inv(s) && p < |s.prods| && s.prods[p] == Idle
    ensures Inv(StartPush(s, p, line))
  {
    var s' := StartPush(s, p, line);
    StartPushCore(s, p, line);
    SlotsUntouched(s, s');
  }

  lemma StartPushCore(s: State, p: nat, line: Line)
    requires Core(s) && p < |s.prods| && s.prods[p] == Idle
    ensures Core(StartPush(s, p, line))
  {
    var s' := StartPush(s, p, line);
    assert Shape(s');
    forall q | 0 <= q < |s'.prods| ensures HolderOk(s', q) {
      assert HolderOk(s, q);
    }
  }

  lemma TurnAwayKeeps(s: State, p: nat, line: Line)
    requires Inv(s) && p < |s.prods| && s.prods[p] == Ready(line) && s.size <= s.writeIndex
    ensures Inv(TurnAway(s, p, line))
  {
    TurnAwayCore(s, p, line);
    TurnAwaySlots(s, p, line);
    TurnAwayHistory(s, p, line);
  }

  lemma TurnAwaySlots(s: State, p: nat, line: Line)
    requires Shape(s) && Slots(s) && p < |s.prods| && s.prods[p] == Ready(line)
    requires Shape(TurnAway(s, p, line))
    ensures Slots(TurnAway(s, p, line))
  {
    SlotsUntouched(s, TurnAway(s, p, line));
  }

  lemma TurnAwayHistory(s: State, p: nat, line: Line)
    requires Shape(s) && Reading(s) && History(s) && p < |s.prods| && s.prods[p] == Ready(line)
    requires Shape(TurnAway(s, p, line)) && Reading(TurnAway(s, p, line))
    ensures History(TurnAway(s, p, line))
  {
    HistoryUntouched(s, TurnAway(s, p, line));
  }

  /** Every producer is turned away at most once per generation, so the counter cannot wrap. */
  lemma CounterBound(s: State)
    requires Shape(s) && Tickets(s)
    ensures s.writeIndex <= s.size + |s.prods|
    ensures (exists p :: 0 <= p < |s.prods| && p !in s.over) ==> s.writeIndex < s.size + |s.prods|
  {
    SubsetOfBelow(s.over, |s.prods|);
  }

  lemma TurnAwayCore(s: State, p: nat, line: Line)
    requires Core(s) && p < |s.prods| && s.prods[p] == Ready(line) && s.size <= s.writeIndex
    ensures Core(TurnAway(s, p, line))
  {
    TurnAwayShape(s, p, line);
    TurnAwayHolders(s, p, line);
    TurnAwayTickets(s, p, line);
    TurnAwayRest(s, p, line);
  }

  lemma TurnAwayTickets(s: State, p: nat, line: Line)
    requires Core(s) && p < |s.prods| && s.prods[p] == Ready(line) && s.size <= s.writeIndex
    requires Shape(TurnAway(s, p, line))
    ensures Tickets(TurnAway(s, p, line))
  {
    CounterBound(s);
    assert p !in s.over;
  }

  /** Seal, lock and read position do not depend on who spins. */
  lemma TurnAwayRest(s: State, p: nat, line: Line)
    requires Shape(s) && Sealed(s) && Locks(s) && Reading(s)
    requires p < |s.prods| && s.prods[p] == Ready(line) && Shape(TurnAway(s, p, line))
    ensures Sealed(TurnAway(s, p, line)) && Locks(TurnAway(s, p, line)) && Reading(TurnAway(s, p, line))
  {
  }

  lemma TurnAwayShape(s: State, p: nat, line: Line)
    requires Shape(s) && p < |s.prods| && s.prods[p] == Ready(line)
    ensures Shape(TurnAway(s, p, line))
  {
  }

  lemma TurnAwayHolders(s: State, p: nat, line: Line)
    requires Shape(s) && Holders(s) && p < |s.prods| && s.prods[p] == Ready(line) && Shape(TurnAway(s, p, line))
    ensures Holders(TurnAway(s, p, line))
  {
    HoldersMoved(s, TurnAway(s, p, line), p);
  }

  lemma GrantKeeps(s: State, p: nat, line: Line)
    requires Inv(s) && p < |s.prods| && s.prods[p] == Ready(line) && s.writeIndex < s.size
    ensures Inv(Grant(s, p, line))
  {
    GrantCore(s, p, line);
    GrantSlots(s, p, line);
    GrantHistory(s, p, line);
  }

  lemma GrantCore(s: State, p: nat, line: Line)
    requires Core(s) && p < |s.prods| && s.prods[p] == Ready(line) && s.writeIndex < s.size
    requires Slots(s)
    ensures Core(Grant(s, p, line))
  {
    assert s.over == {};
    GrantShape(s, p, line);
    GrantHolders(s, p, line);
  }

  lemma GrantShape(s: State, p: nat, line: Line)
    requires Core(s) && p < |s.prods| && s.prods[p] == Ready(line) && s.writeIndex < s.size
    ensures Shape(Grant(s, p, line))
  {
  }

  lemma GrantHolders(s: State, p: nat, line: Line)
    requires Core(s) && p < |s.prods| && s.prods[p] == Ready(line) && s.writeIndex < s.size
    requires Slots(s) && s.over == {} && Shape(Grant(s, p, line))
    ensures Holders(Grant(s, p, line))
  {
    var s' := Grant(s, p, line);
    assert SlotOk(s, |s.logs| - 1, s.writeIndex);
    forall q | 0 <= q < |s'.prods| ensures HolderOk(s', q) {
      assert HolderOk(s, q);
    }
  }

  lemma GrantSlots(s: State, p: nat, line: Line)
    requires Core(s) && Slots(s)
    requires p < |s.prods| && s.prods[p] == Ready(line) && s.writeIndex < s.size
    requires Shape(Grant(s, p, line))
    ensures Slots(Grant(s, p, line))
  {
    var s' := Grant(s, p, line);
    forall b, i | 0 <= b < |s'.bufs| && 0 <= i < s'.size ensures SlotOk(s', b, i) {
      assert SlotOk(s, b, i);
    }
  }

  lemma GrantHistory(s: State, p: nat, line: Line)
    requires Shape(s) && Reading(s) && History(s)
    requires p < |s.prods| && s.prods[p] == Ready(line) && s.writeIndex < s.size
    requires Shape(Grant(s, p, line)) && Reading(Grant(s, p, line))
    ensures History(Grant(s, p, line))
  {
    GrantAllSent(s, p, line);
    GrantPushed(s, p, line);
    ConsumedKept(s, Grant(s, p, line));
  }

  lemma GrantAllSent(s: State, p: nat, line: Line)
    requires s.logs != [] && p < |s.prods| == |s.sent| && s.prods[p] == Ready(line)
    requires forall q :: 0 <= q < |s.prods| ==> s.sent[q] == OfProducer(Order(s), q) + Untold(s.prods[q])
    ensures var s' := Grant(s, p, line);
      forall q :: 0 <= q < |s.prods| ==> s'.sent[q] == OfProducer(Order(s'), q) + Untold(s'.prods[q])
  {
    var s' := Grant(s, p, line);
    forall q | 0 <= q < |s.prods| ensures s'.sent[q] == OfProducer(Order(s'), q) + Untold(s'.prods[q]) {
      GrantSent(s, p, line, q);
    }
  }

  lemma GrantPushed(s: State, p: nat, line: Line)
    requires s.logs != [] && p < |s.prods| && AllPushed(Order(s), |s.prods|)
    ensures AllPushed(Order(Grant(s, p, line)), |s.prods|)
  {
    FlattenAppend(s.logs, Entry(p, line));
  }

  lemma GrantSent(s: State, p: nat, line: Line, q: nat)
    requires s.logs != [] && p < |s.prods| == |s.sent| && q < |s.prods| && s.prods[p] == Ready(line)
    requires s.sent[q] == OfProducer(Order(s), q) + Untold(s.prods[q])
    ensures var s' := Grant(s, p, line);
      s'.sent[q] == OfProducer(Order(s'), q) + Untold(s'.prods[q])
  {
    FlattenAppend(s.logs, Entry(p, line));
    OfProducerAppend(Order(s), Entry(p, line), q);
  }

  /** Tickets granted after the read position do not change what was consumed. */
  lemma ConsumedKept(s: State, s': State)
    requires Shape(s) && Reading(s) && Shape(s') && Reading(s')
    requires s'.readGen == s.readGen && s'.readIndex == s.readIndex
    requires |s.logs| <= |s'.logs| && forall g :: 0 <= g < |s.logs| ==> s.logs[g] <= s'.logs[g]
    requires forall g :: 0 <= g < s.readGen ==> s'.logs[g] == s.logs[g]
    ensures Consumed(s') == Consumed(s)
  {
    assert s'.logs[..s.readGen] == s.logs[..s.readGen];
    if s.readGen < |s.logs| {
      assert s'.logs[s.readGen][..s.readIndex] == s.logs[s.readGen][..s.readIndex];
    }
  }

  lemma WakeKeeps(s: State, p: nat)
    requires Inv(s) && p < |s.prods| && s.prods[p].Spinning?
    ensures Inv(ProducerStep(s, p))
  {
    WakeCore(s, p);
    WakeSlots(s, p);
    WakeHistory(s, p);
  }

  lemma WakeSlots(s: State, p: nat)
    requires Shape(s) && Slots(s) && p < |s.prods| && s.prods[p].Spinning? && Shape(ProducerStep(s, p))
    ensures Slots(ProducerStep(s, p))
  {
    SlotsUntouched(s, ProducerStep(s, p));
  }

  lemma WakeHistory(s: State, p: nat)
    requires Shape(s) && Reading(s) && History(s) && p < |s.prods| && s.prods[p].Spinning?
    requires Shape(ProducerStep(s, p)) && Reading(ProducerStep(s, p))
    ensures History(ProducerStep(s, p))
  {
    HistoryUntouched(s, ProducerStep(s, p));
  }

  lemma WakeCore(s: State, p: nat)
    requires Core(s) && p < |s.prods| && s.prods[p].Spinning?
    ensures Core(ProducerStep(s, p))
  {
    var s' := ProducerStep(s, p);
    assert s.writeIndex < s.size ==> s.over == {};
    assert Shape(s');
    forall q | 0 <= q < |s'.prods| ensures HolderOk(s', q) {
      assert HolderOk(s, q);
    }
  }

  lemma LoadKeeps(s: State, p: nat)
    requires Inv(s) && p < |s.prods| && s.prods[p].Ticket?
    ensures Inv(ProducerStep(s, p))
  {
    var s' := ProducerStep(s, p);
    LoadCore(s, p);
    forall b, i | 0 <= b < |s'.bufs| && 0 <= i < s'.size ensures SlotOk(s', b, i) {
      assert SlotOk(s, b, i);
    }
    HistoryUntouched(s, s');
  }

  /** While a ticket is out, its buffer is not full, so nobody replaces it. */
  lemma NoSealerWhileHeld(s: State, p: nat)
    requires Core(s) && p < |s.prods| && Holds(s.prods[p])
    ensures s.sealer == None && |s.bufs| == |s.logs| && s.current == |s.logs| - 1
  {
    assert HolderOk(s, p);
    SubsetOfBelow(s.bufs[|s.logs| - 1].counted, s.size);
  }

  lemma LoadCore(s: State, p: nat)
    requires Core(s) && p < |s.prods| && s.prods[p].Ticket?
    ensures Core(ProducerStep(s, p))
  {
    var s' := ProducerStep(s, p);
    NoSealerWhileHeld(s, p);
    assert Shape(s');
    forall q | 0 <= q < |s'.prods| ensures HolderOk(s', q) {
      assert HolderOk(s, q);
    }
  }

  /** A producer writes a slot or a flag of the current buffer: the ticket stays its own. */
  ghost predicate UpdatesBuffer(s: State, s': State, p: nat) {
    && p < |s.prods| && |s'.prods| == |s.prods|
    && s' == At(s, p, s'.prods[p]).(bufs := s'.bufs)
    && (s.prods[p].Loaded? || s.prods[p].Stored?)
    && (s'.prods[p].Stored? || s'.prods[p].Flagged?)
    && s'.prods[p].ticket == s.prods[p].ticket
    && s'.prods[p].buf == s.prods[p].buf
    && |s'.bufs| == |s.bufs|
    && forall b {:trigger s'.bufs[b]} :: 0 <= b < |s.bufs| ==>
      && s'.bufs[b].count == s.bufs[b].count && s'.bufs[b].counted == s.bufs[b].counted
      && |s'.bufs[b].slots| == |s.bufs[b].slots| && |s'.bufs[b].flags| == |s.bufs[b].flags|
      && forall i :: 0 <= i < |s.bufs[b].flags| && s.bufs[b].flags[i] ==> s'.bufs[b].flags[i]
  }

  lemma UpdateShape(s: State, s': State, p: nat)
    requires Core(s) && UpdatesBuffer(s, s', p)
    ensures Shape(s')
  {
    assert Published(s') == Published(s);
  }

  lemma UpdateReading(s: State, s': State, p: nat)
    requires Core(s) && UpdatesBuffer(s, s', p) && Shape(s')
    ensures Reading(s') && Locks(s') && Sealed(s')
  {
    assert QueueLow(s') == QueueLow(s) && QueueHigh(s') == QueueHigh(s);
  }

  lemma BufferUpdateCore(s: State, s': State, p: nat)
    requires Core(s) && UpdatesBuffer(s, s', p)
    ensures Core(s')
  {
    UpdateShape(s, s', p);
    UpdateReading(s, s', p);
    assert HolderOk(s, p);
    HoldersMoved(s, s', p);
  }

  lemma ConstructKeeps(s: State, p: nat)
    requires Inv(s) && p < |s.prods| && s.prods[p].Loaded?
    ensures Inv(ProducerStep(s, p))
  {
    var s' := ProducerStep(s, p);
    assert HolderOk(s, p);
    BufferUpdateCore(s, s', p);
    ConstructSlots(s, p);
    HistoryUntouched(s, s');
  }

  lemma ConstructSlots(s: State, p: nat)
    requires Core(s) && Slots(s)
    requires p < |s.prods| && s.prods[p].Loaded?
    requires Shape(ProducerStep(s, p))
    ensures Slots(ProducerStep(s, p))
  {
    var s' := Construct(s, p, s.prods[p].line, s.prods[p].ticket, s.prods[p].buf);
    assert HolderOk(s, p);
    assert SlotOk(s, s.prods[p].buf, s.prods[p].ticket);
    forall b, i | 0 <= b < |s'.bufs| && 0 <= i < s'.size ensures SlotOk(s', b, i) {
      assert SlotOk(s, b, i);
    }
  }

  lemma RaiseKeeps(s: State, p: nat)
    requires Inv(s) && p < |s.prods| && s.prods[p].Stored?
    ensures Inv(ProducerStep(s, p))
  {
    var s' := ProducerStep(s, p);
    assert HolderOk(s, p);
    BufferUpdateCore(s, s', p);
    RaiseSlots(s, p);
    HistoryUntouched(s, s');
  }

  lemma RaiseSlots(s: State, p: nat)
    requires Core(s) && Slots(s)
    requires p < |s.prods| && s.prods[p].Stored?
    requires Shape(ProducerStep(s, p))
    ensures Slots(ProducerStep(s, p))
  {
    var s' := Raise(s, p, s.prods[p].ticket, s.prods[p].buf);
    assert HolderOk(s, p);
    assert SlotOk(s, s.prods[p].buf, s.prods[p].ticket);
    forall b, i | 0 <= b < |s'.bufs| && 0 <= i < s'.size ensures SlotOk(s', b, i) {
      assert SlotOk(s, b, i);
    }
  }

  lemma BumpKeeps(s: State, p: nat)
    requires Inv(s) && p < |s.prods| && s.prods[p].Flagged?
    ensures Inv(ProducerStep(s, p))
  {
    BumpInv(s, p);
    BumpIsStep(s, p);
  }

  lemma BumpIsStep(s: State, p: nat)
    requires p < |s.prods| && s.prods[p].Flagged?
    ensures ProducerStep(s, p) == Bump(s, p, s.prods[p].ticket, s.prods[p].buf)
  {
  }

  lemma BumpInv(s: State, p: nat)
    requires Inv(s) && p < |s.prods| && s.prods[p].Flagged?
    ensures Inv(Bump(s, p, s.prods[p].ticket, s.prods[p].buf))
  {
    BumpShape(s, p);
    BumpCore(s, p);
    BumpSlots(s, p);
    BumpHistory(s, p);
  }

  lemma BumpHistory(s: State, p: nat)
    requires Shape(s) && Reading(s) && History(s) && p < |s.prods| && s.prods[p].Flagged?
    requires Shape(Bump(s, p, s.prods[p].ticket, s.prods[p].buf))
    requires Reading(Bump(s, p, s.prods[p].ticket, s.prods[p].buf))
    ensures History(Bump(s, p, s.prods[p].ticket, s.prods[p].buf))
  {
    HistoryUntouched(s, Bump(s, p, s.prods[p].ticket, s.prods[p].buf));
  }

  lemma BumpBuffer(buf: Buffer, t: nat, b: nat, size: nat)
    requires BufferOk(buf, b, size, b + 1) && t < size && t !in buf.counted && size < Arithmetic.WORD
    ensures BufferOk(BumpCount([buf], 0, t)[0], b, size, b + 1)
    ensures BumpCount([buf], 0, t)[0].count == buf.count + 1 <= size
  {
    SubsetOfBelow(buf.counted + {t}, size);
  }

  lemma BumpShape(s: State, p: nat)
    requires Core(s) && p < |s.prods| && s.prods[p].Flagged?
    ensures Shape(Bump(s, p, s.prods[p].ticket, s.prods[p].buf))
    ensures CountOf(BumpCount(s.bufs, s.prods[p].buf, s.prods[p].ticket), |s.logs| - 1)
      == CountOf(s.bufs, |s.logs| - 1) + 1 <= s.size
  {
    NoSealerWhileHeld(s, p);
    assert HolderOk(s, p);
    BumpBuffer(s.bufs[|s.logs| - 1], s.prods[p].ticket, |s.logs| - 1, s.size);
  }

  lemma BumpSealed(s: State, p: nat)
    requires Core(s) && p < |s.prods| && s.prods[p].Flagged?
    requires Shape(Bump(s, p, s.prods[p].ticket, s.prods[p].buf))
    requires CountOf(BumpCount(s.bufs, s.prods[p].buf, s.prods[p].ticket), |s.logs| - 1)
      == CountOf(s.bufs, |s.logs| - 1) + 1 <= s.size
    ensures Sealed(Bump(s, p, s.prods[p].ticket, s.prods[p].buf))
  {
    NoSealerWhileHeld(s, p);
    assert HolderOk(s, p);
    BumpUnsealed(s, p);
  }

  lemma BumpUnsealed(s: State, p: nat)
    requires Shape(s) && Sealed(s) && s.sealer == None
    requires p < |s.prods| && s.prods[p].Flagged? && s.prods[p].buf == |s.logs| - 1
    requires Shape(Bump(s, p, s.prods[p].ticket, s.prods[p].buf))
    requires CountOf(BumpCount(s.bufs, s.prods[p].buf, s.prods[p].ticket), |s.logs| - 1)
      == CountOf(s.bufs, |s.logs| - 1) + 1 <= s.size
    ensures Sealed(Bump(s, p, s.prods[p].ticket, s.prods[p].buf))
  {
  }

  lemma BumpReading(s: State, p: nat)
    requires Core(s) && p < |s.prods| && s.prods[p].Flagged?
    requires Shape(Bump(s, p, s.prods[p].ticket, s.prods[p].buf))
    requires CountOf(BumpCount(s.bufs, s.prods[p].buf, s.prods[p].ticket), |s.logs| - 1)
      == CountOf(s.bufs, |s.logs| - 1) + 1 <= s.size
    ensures Reading(Bump(s, p, s.prods[p].ticket, s.prods[p].buf))
  {
    NoSealerWhileHeld(s, p);
    BumpLeavesReader(s, p);
  }

  lemma BumpLeavesReader(s: State, p: nat)
    requires Shape(s) && Reading(s) && s.sealer == None && p < |s.prods| && s.prods[p].Flagged?
    requires Shape(Bump(s, p, s.prods[p].ticket, s.prods[p].buf))
    ensures Reading(Bump(s, p, s.prods[p].ticket, s.prods[p].buf))
  {
  }

  lemma BumpCore(s: State, p: nat)
    requires Core(s) && p < |s.prods| && s.prods[p].Flagged?
    requires Shape(Bump(s, p, s.prods[p].ticket, s.prods[p].buf))
    requires CountOf(BumpCount(s.bufs, s.prods[p].buf, s.prods[p].ticket), |s.logs| - 1)
      == CountOf(s.bufs, |s.logs| - 1) + 1 <= s.size
    ensures Core(Bump(s, p, s.prods[p].ticket, s.prods[p].buf))
  {
    BumpSealed(s, p);
    BumpReading(s, p);
    BumpHolders(s, p);
    BumpLocks(s, p);
  }

  lemma BumpHolders(s: State, p: nat)
    requires Core(s) && p < |s.prods| && s.prods[p].Flagged?
    requires Shape(Bump(s, p, s.prods[p].ticket, s.prods[p].buf))
    ensures Holders(Bump(s, p, s.prods[p].ticket, s.prods[p].buf))
  {
    assert HolderOk(s, p);
    HoldersMoved(s, Bump(s, p, s.prods[p].ticket, s.prods[p].buf), p);
  }

  lemma BumpLocks(s: State, p: nat)
    requires Core(s) && p < |s.prods| && s.prods[p].Flagged?
    requires Shape(Bump(s, p, s.prods[p].ticket, s.prods[p].buf))
    ensures Tickets(Bump(s, p, s.prods[p].ticket, s.prods[p].buf))
    ensures Locks(Bump(s, p, s.prods[p].ticket, s.prods[p].buf))
  {
  }

  /** The slot that is counted now was flagged. */
  lemma BumpOwnSlot(s: State, p: nat)
    requires Shape(s) && p < |s.prods| && s.prods[p].Flagged? && HolderOk(s, p)
    requires Shape(Bump(s, p, s.prods[p].ticket, s.prods[p].buf))
    requires s.prods[p].buf == |s.logs| - 1 && s.prods[p].ticket < s.size
    requires SlotOk(s, s.prods[p].buf, s.prods[p].ticket)
    ensures SlotOk(Bump(s, p, s.prods[p].ticket, s.prods[p].buf), s.prods[p].buf, s.prods[p].ticket)
  {
  }

  lemma BumpOtherSlot(s: State, p: nat, b: nat, i: nat)
    requires Shape(s) && p < |s.prods| && s.prods[p].Flagged?
    requires Shape(Bump(s, p, s.prods[p].ticket, s.prods[p].buf))
    requires s.prods[p].buf == |s.logs| - 1 && b < |s.bufs| && i < s.size && SlotOk(s, b, i)
    requires b != s.prods[p].buf || i != s.prods[p].ticket
    ensures SlotOk(Bump(s, p, s.prods[p].ticket, s.prods[p].buf), b, i)
  {
    assert BufferOk(s.bufs[b], b, s.size, |s.logs|);
  }

  lemma BumpSlots(s: State, p: nat)
    requires Core(s) && Slots(s)
    requires p < |s.prods| && s.prods[p].Flagged?
    requires Shape(Bump(s, p, s.prods[p].ticket, s.prods[p].buf))
    ensures Slots(Bump(s, p, s.prods[p].ticket, s.prods[p].buf))
  {
    var s' := Bump(s, p, s.prods[p].ticket, s.prods[p].buf);
    assert HolderOk(s, p);
    assert SlotOk(s, s.prods[p].buf, s.prods[p].ticket);
    forall b, i | 0 <= b < |s'.bufs| && 0 <= i < s'.size ensures SlotOk(s', b, i) {
      if b != s.prods[p].buf || i != s.prods[p].ticket {
        assert SlotOk(s, b, i);
        BumpOtherSlot(s, p, b, i);
      } else {
        BumpOwnSlot(s, p);
      }
    }
  }

  lemma SwapKeeps(s: State, p: nat)
    requires Inv(s) && p < |s.prods| && s.prods[p].Sealing?
    ensures Inv(ProducerStep(s, p))
  {
    SwapCore(s, p);
    SwapSlots(s, p);
    HistoryUntouched(s, ProducerStep(s, p));
  }

  lemma SwapCore(s: State, p: nat)
    requires Core(s) && p < |s.prods| && s.prods[p].Sealing?
    ensures Core(ProducerStep(s, p))
  {
    var s' := ProducerStep(s, p);
    assert s.sealer == Some(p);
    assert Shape(s');
    forall q | 0 <= q < |s'.prods| ensures HolderOk(s', q) {
      assert HolderOk(s, q);
    }
  }

  lemma SwapSlots(s: State, p: nat)
    requires Core(s) && Slots(s)
    requires p < |s.prods| && s.prods[p].Sealing?
    requires Shape(ProducerStep(s, p))
    ensures Slots(ProducerStep(s, p))
  {
    var s' := ProducerStep(s, p);
    forall b, i | 0 <= b < |s'.bufs| && 0 <= i < s'.size ensures SlotOk(s', b, i) {
      if b < |s.bufs| {
        assert SlotOk(s, b, i);
      }
    }
  }

  /** Taking the lock, queueing the new buffer, releasing the lock. */
  lemma InstallKeeps(s: State, p: nat)
    requires Inv(s) && p < |s.prods| && (s.prods[p].Swapped? || s.prods[p].Locked? || s.prods[p].Reset?)
    ensures Inv(ProducerStep(s, p))
  {
    var s' := ProducerStep(s, p);
    InstallCore(s, p);
    InstallFrame(s, p);
    SlotsUntouched(s, s');
    HistoryUntouched(s, s');
  }

  lemma InstallFrame(s: State, p: nat)
    requires p < |s.prods| && (s.prods[p].Swapped? || s.prods[p].Locked? || s.prods[p].Reset?)
    ensures var s' := ProducerStep(s, p);
      s' == s.(prods := s'.prods, lock := s'.lock, queue := s'.queue) && |s'.prods| == |s.prods|
    ensures forall q :: 0 <= q < |s.prods| && q != p ==> ProducerStep(s, p).prods[q] == s.prods[q]
    ensures !Holds(ProducerStep(s, p).prods[p]) && Untold(ProducerStep(s, p).prods[p]) == []
  {
  }

  lemma InstallShape(s: State, p: nat)
    requires Core(s) && p < |s.prods| && (s.prods[p].Swapped? || s.prods[p].Locked? || s.prods[p].Reset?)
    ensures Shape(ProducerStep(s, p)) && Tickets(ProducerStep(s, p)) && Sealed(ProducerStep(s, p))
  {
    assert !s.prods[p].Reset? ==> s.sealer == Some(p);
  }

  lemma InstallReading(s: State, p: nat)
    requires Core(s) && p < |s.prods| && (s.prods[p].Swapped? || s.prods[p].Locked? || s.prods[p].Reset?)
    requires Shape(ProducerStep(s, p))
    ensures Reading(ProducerStep(s, p)) && Locks(ProducerStep(s, p))
  {
    assert !s.prods[p].Reset? ==> s.sealer == Some(p);
  }

  lemma InstallCore(s: State, p: nat)
    requires Core(s) && p < |s.prods| && (s.prods[p].Swapped? || s.prods[p].Locked? || s.prods[p].Reset?)
    ensures Core(ProducerStep(s, p))
  {
    InstallShape(s, p);
    InstallReading(s, p);
    InstallFrame(s, p);
    HoldersMoved(s, ProducerStep(s, p), p);
  }

  lemma ResetKeeps(s: State, p: nat)
    requires Inv(s) && p < |s.prods| && s.prods[p].Enqueued?
    ensures Inv(ProducerStep(s, p))
  {
    var s' := ProducerStep(s, p);
    ResetCore(s, p);
    ResetSlots(s, p);
    FlattenNewPart(s.logs);
    ConsumedKept(s, s');
  }

  /** When a buffer is being replaced all of its tickets are out and all its slots are counted. */
  lemma SealedIsFull(s: State)
    requires Shape(s) && Sealed(s) && Slots(s) && Tickets(s) && s.sealer.Some?
    ensures s.bufs[|s.logs| - 1].counted == Below(s.size)
    ensures |Last(s)| == s.size
  {
    SubsetOfBelow(s.bufs[|s.logs| - 1].counted, s.size);
    assert SlotOk(s, |s.logs| - 1, s.size - 1);
  }

  lemma ResetShape(s: State, p: nat)
    requires Core(s) && Slots(s) && p < |s.prods| && s.prods[p].Enqueued?
    ensures Shape(ProducerStep(s, p)) && Tickets(ProducerStep(s, p)) && Sealed(ProducerStep(s, p))
  {
    assert s.sealer == Some(p);
    SealedIsFull(s);
    assert Shape(ProducerStep(s, p));
  }

  lemma ResetReading(s: State, p: nat)
    requires Core(s) && p < |s.prods| && s.prods[p].Enqueued? && Shape(ProducerStep(s, p))
    ensures Reading(ProducerStep(s, p)) && Locks(ProducerStep(s, p))
  {
    assert s.sealer == Some(p);
  }

  lemma ResetCore(s: State, p: nat)
    requires Core(s) && Slots(s) && p < |s.prods| && s.prods[p].Enqueued?
    ensures Core(ProducerStep(s, p))
  {
    var s' := ProducerStep(s, p);
    ResetShape(s, p);
    ResetReading(s, p);
    assert s.sealer == Some(p);
    SealedIsFull(s);
    forall q | 0 <= q < |s'.prods| ensures HolderOk(s', q) {
      assert HolderOk(s, q);
    }
  }

  lemma ResetSlots(s: State, p: nat)
    requires Core(s) && Slots(s) && p < |s.prods| && s.prods[p].Enqueued?
    requires Shape(ProducerStep(s, p))
    ensures Slots(ProducerStep(s, p))
  {
    var s' := ProducerStep(s, p);
    assert s.sealer == Some(p);
    SealedIsFull(s);
    forall b, i | 0 <= b < |s'.bufs| && 0 <= i < s'.size ensures SlotOk(s', b, i) {
      assert SlotOk(s, b, i);
    }
  }

  lemma ProducerKeeps(s: State, p: nat)
    requires Inv(s) && p < |s.prods|
    ensures Inv(ProducerStep(s, p))
  {
    match s.prods[p]
    case Idle =>
    case Ready(line) =>
      if s.writeIndex < s.size {
        GrantKeeps(s, p, line);
      } else {
        TurnAwayKeeps(s, p, line);
      }
    case Spinning(_) => WakeKeeps(s, p);
    case Ticket(_, _) => LoadKeeps(s, p);
    case Loaded(_, _, _) => ConstructKeeps(s, p);
    case Stored(_, _) => RaiseKeeps(s, p);
    case Flagged(_, _) => BumpKeeps(s, p);
    case Sealing => SwapKeeps(s, p);
    case Swapped => InstallKeeps(s, p);
    case Locked => InstallKeeps(s, p);
    case Enqueued => ResetKeeps(s, p);
    case Reset => InstallKeeps(s, p);
  }

  // ------------------------------------------------------------ the reader

  /** Steps other than taking a line leave the shared buffers and the producers alone. */
  lemma ReaderLeavesProducers(s: State)
    requires Core(s) && !s.reader.AtTake?
    ensures var s' := ReaderStep(s);
      s' == s.(reader := s'.reader, lock := s'.lock, queue := s'.queue, readBuf := s'.readBuf)
  {
  }

  lemma ReaderShape(s: State, s': State)
    requires Core(s)
    requires s' == s.(reader := s'.reader, lock := s'.lock, queue := s'.queue, readBuf := s'.readBuf)
    ensures Shape(s') && Tickets(s') && Sealed(s') && Holders(s')
  {
    assert Shape(s');
    forall q | 0 <= q < |s'.prods| ensures HolderOk(s', q) {
      assert HolderOk(s, q);
    }
  }

  lemma ReaderLocks(s: State)
    requires Core(s) && !s.reader.AtTake?
    ensures Locks(ReaderStep(s))
  {
  }

  lemma ReaderReading(s: State)
    requires Core(s) && !s.reader.AtTake? && Shape(ReaderStep(s))
    ensures Reading(ReaderStep(s))
  {
    ReaderLeavesProducers(s);
    match s.reader
    case AtFront =>
    case AtRetire =>
    case FrontRead =>
    case _ =>
  }

  lemma ReaderCore(s: State)
    requires Core(s) && !s.reader.AtTake?
    ensures Core(ReaderStep(s))
  {
    ReaderLeavesProducers(s);
    ReaderShape(s, ReaderStep(s));
    ReaderLocks(s);
    ReaderReading(s);
  }

  /** What the flag says about the slot to be read next. */
  lemma TakeReads(s: State)
    requires Core(s) && Slots(s) && s.reader.AtTake?
    ensures s.readGen < |s.logs| && s.readIndex < |s.logs[s.readGen]|
    ensures s.bufs[s.readGen].slots[s.readIndex] == Built(s.logs[s.readGen][s.readIndex].line)
  {
    assert SlotOk(s, s.readGen, s.readIndex);
  }

  lemma TakeShape(s: State)
    requires Core(s) && Slots(s) && s.reader.AtTake?
    ensures Shape(Take(s, s.readGen)) && Tickets(Take(s, s.readGen)) && Sealed(Take(s, s.readGen))
    ensures Locks(Take(s, s.readGen)) && Holders(Take(s, s.readGen))
  {
    TakeBuffers(s);
    TakeHolders(s);
  }

  lemma TakeBuffers(s: State)
    requires Shape(s)
    ensures Shape(Take(s, s.readGen))
  {
  }

  lemma TakeHolders(s: State)
    requires Shape(s) && Holders(s) && Shape(Take(s, s.readGen))
    ensures Holders(Take(s, s.readGen))
  {
    var s' := Take(s, s.readGen);
    forall q | 0 <= q < |s'.prods| ensures HolderOk(s', q) {
      assert HolderOk(s, q);
    }
  }

  lemma TakeReading(s: State)
    requires Core(s) && Slots(s) && s.reader.AtTake? && Shape(Take(s, s.readGen))
    ensures Reading(Take(s, s.readGen))
  {
    TakeReads(s);
  }

  lemma TakeCore(s: State)
    requires Core(s) && Slots(s) && s.reader.AtTake?
    ensures Core(Take(s, s.readGen))
  {
    TakeShape(s);
    TakeReading(s);
  }

  lemma TakeSlots(s: State)
    requires Core(s) && Slots(s) && s.reader.AtTake?
    requires Shape(Take(s, s.readGen))
    ensures Slots(Take(s, s.readGen))
  {
    var s' := Take(s, s.readGen);
    TakeReads(s);
    assert SlotOk(s, s.readGen, s.readIndex);
    forall b, i | 0 <= b < |s'.bufs| && 0 <= i < s'.size ensures SlotOk(s', b, i) {
      assert SlotOk(s, b, i);
      TakeSlot(s, b, i);
    }
  }

  lemma TakeSlot(s: State, b: nat, i: nat)
    requires Shape(s) && Shape(Take(s, s.readGen)) && b < |s.bufs| && i < s.size && SlotOk(s, b, i)
    requires s.readGen < |s.logs| && s.readIndex < |s.logs[s.readGen]| && s.readIndex < s.size
    requires s.bufs[s.readGen].flags[s.readIndex]
    ensures SlotOk(Take(s, s.readGen), b, i)
  {
  }

  /** Reading one more ticket of generation g. */
  lemma ConsumedStep(logs: seq<seq<Entry>>, g: nat, i: nat)
    requires g < |logs| && i < |logs[g]|
    ensures Flatten(logs[..g]) + logs[g][..i + 1] == Flatten(logs[..g]) + logs[g][..i] + [logs[g][i]]
    ensures i + 1 == |logs[g]| ==>
      Flatten(logs[..g + 1]) == Flatten(logs[..g]) + logs[g][..i + 1]
  {
    assert logs[g][..i + 1] == logs[g][..i] + [logs[g][i]];
    assert logs[..g + 1][..g] == logs[..g];
    assert i + 1 == |logs[g]| ==> logs[g][..i + 1] == logs[g];
  }

  lemma TakeConsumed(s: State)
    requires Core(s) && Slots(s) && s.reader.AtTake?
    requires Reading(Take(s, s.readGen))
    ensures Consumed(Take(s, s.readGen)) == Consumed(s) + [s.logs[s.readGen][s.readIndex]]
    ensures Take(s, s.readGen).popped == s.popped + [s.logs[s.readGen][s.readIndex].line]
  {
    TakeReads(s);
    ConsumedStep(s.logs, s.readGen, s.readIndex);
    if s.readIndex + 1 == s.size {
      assert Consumed(Take(s, s.readGen)) == Flatten(s.logs[..s.readGen + 1]);
    }
  }

  lemma TakeHistory(s: State)
    requires Core(s) && Slots(s) && History(s) && s.reader.AtTake?
    requires Shape(Take(s, s.readGen)) && Reading(Take(s, s.readGen))
    ensures History(Take(s, s.readGen))
  {
    TakeReads(s);
    TakeConsumed(s);
    assert Take(s, s.readGen).popped == Lines(Consumed(Take(s, s.readGen)));
  }

  lemma TakeKeeps(s: State)
    requires Inv(s) && s.reader.AtTake?
    ensures Inv(Take(s, s.readGen)) && ReaderStep(s) == Take(s, s.readGen)
  {
    TakeCore(s);
    TakeSlots(s);
    TakeHistory(s);
  }

  lemma ReaderKeeps(s: State)
    requires Inv(s)
    ensures Inv(ReaderStep(s))
  {
    if s.reader.AtTake? {
      TakeKeeps(s);
    } else {
      ReaderCore(s);
      ReaderLeavesProducers(s);
      SlotsUntouched(s, ReaderStep(s));
      HistoryUntouched(s, ReaderStep(s));
    }
  }

  // ------------------------------------------------------------ runs

  lemma NextKeeps(s: State, s': State)
    requires Inv(s) && Next(s, s')
    ensures Inv(s')
  {
    if p: nat, line: Line :| PushStarts(s, s', p, line) {
      StartPushKeeps(s, p, line);
    } else if p: nat :| ProducerMoves(s, s', p) {
      ProducerKeeps(s, p);
    } else {
      ReaderKeeps(s);
    }
  }

  /** The invariant holds in every state of every interleaving. */
  lemma {:induction false} RunKeeps(e: seq<State>, i: nat)
    requires Run(e) && i < |e|
    ensures Inv(e[i])
  {
    if i == 0 {
      InitInv(e[0]);
    } else {
      RunKeeps(e, i - 1);
      assert Follows(e, i - 1);
      NextKeeps(e[i - 1], e[i]);
    }
  }
}
