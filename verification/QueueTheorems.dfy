/** What the guaranteed logger's queue promises, over every interleaving. */
module QueueTheorems {
  import Arithmetic
  import opened Sequences
  import opened Logger
  import opened QueueBuffer
  import opened QueueSafety

  // ------------------------------------------------------------ nothing lost, invented or reordered

  lemma {:induction false} OfProducerPrefix(es: seq<Entry>, n: nat, p: nat)
    requires n <= |es|
    ensures OfProducer(es[..n], p) <= OfProducer(es, p)
  {
    if n == |es| {
      assert es[..n] == es;
    } else {
      OfProducerPrefix(es[..|es| - 1], n, p);
      assert es[..|es| - 1][..n] == es[..n];
    }
  }

  lemma ConsumedIsPrefix(s: State)
    requires Inv(s)
    ensures Consumed(s) <= Order(s)
  {
    if s.readGen < |s.logs| {
      FlattenPrefix(s.logs, s.readGen + 1);
      FlattenNext(s.logs, s.readGen);
    } else {
      assert s.logs[..s.readGen] == s.logs;
    }
  }

  /** In every interleaving the lines popped so far are a prefix of the lines with a ticket, ordered
      by generation and ticket.  Every ticket is some producer's, and the lines with a ticket are,
      producer by producer and in the order in which it pushed them, all lines it passed to push but
      the one still waiting for its ticket; so of each producer's lines a prefix has been popped. */
  lemma PoppedInTicketOrder(e: seq<State>, i: nat)
    requires Run(e) && i < |e|
    ensures var s := e[i];
      && |s.popped| <= |Order(s)|
      && s.popped == Lines(Order(s)[..|s.popped|])
      && |s.sent| == |s.prods| && AllPushed(Order(s), |s.prods|)
      && (forall p :: 0 <= p < |s.prods| ==> s.sent[p] == OfProducer(Order(s), p) + Untold(s.prods[p]))
      && forall p :: 0 <= p < |s.prods| ==> OfProducer(Order(s)[..|s.popped|], p) <= s.sent[p]
  {
    var s := e[i];
    RunKeeps(e, i);
    ConsumedIsPrefix(s);
    assert Order(s)[..|s.popped|] == Consumed(s);
    forall p | 0 <= p < |s.prods| ensures OfProducer(Order(s)[..|s.popped|], p) <= s.sent[p] {
      OfProducerPrefix(Order(s), |s.popped|, p);
    }
  }

  /** Slot i of buffer b holds the line of its own ticket. */
  predicate HoldsOwnLine(s: State, b: nat, i: nat) {
    && b < |s.logs| && i < |s.logs[b]| && b < |s.bufs| && i < |s.bufs[b].slots|
    && s.bufs[b].slots[i] == Built(s.logs[b][i].line)
  }

  /** A slot goes from raw to the line of its own ticket to moved-from, and never back. */
  ghost predicate SlotLife(s: State, s': State, b: nat, i: nat)
    requires b < |s.bufs| && i < |s.bufs[b].slots|
  {
    && b < |s'.bufs| && i < |s'.bufs[b].slots|
    && (s.bufs[b].slots[i].Moved? ==> s'.bufs[b].slots[i].Moved?)
    && (s.bufs[b].slots[i].Built? ==> s'.bufs[b].slots[i] == s.bufs[b].slots[i] || s'.bufs[b].slots[i].Moved?)
    && (s.bufs[b].slots[i].Raw? ==>
          s'.bufs[b].slots[i].Raw? || s'.bufs[b].slots[i].Moved? || HoldsOwnLine(s', b, i))
  }

  /** Granted tickets and popped lines are never taken back. */
  ghost predicate Grows(s: State, s': State) {
    && s.popped <= s'.popped
    && |s.logs| <= |s'.logs|
    && (forall g :: 0 <= g < |s.logs| ==> s.logs[g] <= s'.logs[g])
    && (forall b, i {:trigger SlotLife(s, s', b, i)} ::
          0 <= b < |s.bufs| && 0 <= i < |s.bufs[b].slots| ==> SlotLife(s, s', b, i))
  }

  lemma ConstructGrows(s: State, p: nat)
    requires Inv(s) && p < |s.prods| && s.prods[p].Loaded?
    ensures SetSlot(s.bufs, s.prods[p].buf, s.prods[p].ticket, Built(s.prods[p].line)) == ProducerStep(s, p).bufs
    ensures s.prods[p].buf < |s.bufs| && s.prods[p].ticket < |s.bufs[s.prods[p].buf].slots|
    ensures s.bufs[s.prods[p].buf].slots[s.prods[p].ticket] == Raw
    ensures s.prods[p].buf < |s.logs| && s.prods[p].ticket < |s.logs[s.prods[p].buf]|
    ensures s.prods[p].line == s.logs[s.prods[p].buf][s.prods[p].ticket].line
  {
    assert HolderOk(s, p);
    assert SlotOk(s, s.prods[p].buf, s.prods[p].ticket);
  }

  lemma ProducerGrows(s: State, p: nat)
    requires Inv(s) && p < |s.prods|
    ensures Grows(s, ProducerStep(s, p))
  {
    ProducerLogsGrow(s, p);
    forall b, i | 0 <= b < |s.bufs| && 0 <= i < |s.bufs[b].slots| ensures SlotLife(s, ProducerStep(s, p), b, i) {
      if s.prods[p].Loaded? {
        ConstructGrows(s, p);
        ConstructSlotLife(s, p, b, i);
      } else {
        OtherSlotLife(s, p, b, i);
      }
    }
  }

  lemma ProducerLogsGrow(s: State, p: nat)
    requires p < |s.prods| && s.logs != []
    ensures var s' := ProducerStep(s, p);
      && s'.popped == s.popped
      && |s.logs| <= |s'.logs|
      && forall g :: 0 <= g < |s.logs| ==> s.logs[g] <= s'.logs[g]
  {
  }

  lemma ConstructSlotLife(s: State, p: nat, b: nat, i: nat)
    requires p < |s.prods| && s.prods[p].Loaded? && b < |s.bufs| && i < |s.bufs[b].slots|
    requires s.prods[p].buf < |s.bufs| && s.prods[p].ticket < |s.bufs[s.prods[p].buf].slots|
    requires s.bufs[s.prods[p].buf].slots[s.prods[p].ticket] == Raw
    requires s.prods[p].buf < |s.logs| && s.prods[p].ticket < |s.logs[s.prods[p].buf]|
    requires s.prods[p].line == s.logs[s.prods[p].buf][s.prods[p].ticket].line
    ensures SlotLife(s, ProducerStep(s, p), b, i)
  {
  }

  lemma OtherSlotLife(s: State, p: nat, b: nat, i: nat)
    requires p < |s.prods| && !s.prods[p].Loaded? && b < |s.bufs| && i < |s.bufs[b].slots|
    ensures SlotLife(s, ProducerStep(s, p), b, i)
  {
  }

  lemma ReaderGrows(s: State)
    ensures Grows(s, ReaderStep(s))
  {
    var s' := ReaderStep(s);
    forall b, i | 0 <= b < |s.bufs| && 0 <= i < |s.bufs[b].slots| ensures SlotLife(s, s', b, i) {
    }
  }

  lemma NextGrows(s: State, s': State)
    requires Inv(s) && Next(s, s')
    ensures Grows(s, s')
  {
    if p: nat, line: Line :| PushStarts(s, s', p, line) {
      forall b, i | 0 <= b < |s.bufs| && 0 <= i < |s.bufs[b].slots| ensures SlotLife(s, s', b, i) {
      }
    } else if p: nat :| ProducerMoves(s, s', p) {
      ProducerGrows(s, p);
    } else {
      ReaderGrows(s);
    }
  }

  lemma GrowsTransitive(s: State, t: State, u: State)
    requires Grows(s, t) && Grows(t, u)
    ensures Grows(s, u)
  {
    forall b, i | 0 <= b < |s.bufs| && 0 <= i < |s.bufs[b].slots| ensures SlotLife(s, u, b, i) {
      assert SlotLife(s, t, b, i) && SlotLife(t, u, b, i);
    }
  }

  lemma RunGrows(e: seq<State>, k: nat)
    requires Run(e) && k + 1 < |e|
    ensures Grows(e[k], e[k + 1])
  {
    RunKeeps(e, k);
    assert Follows(e, k);
    NextGrows(e[k], e[k + 1]);
  }

  lemma GrowsReflexive(s: State)
    ensures Grows(s, s)
  {
    forall b, k | 0 <= b < |s.bufs| && 0 <= k < |s.bufs[b].slots| ensures SlotLife(s, s, b, k) {
    }
  }

  /** No slot of any generation is ever written twice, and popped lines stay popped. */
  lemma {:induction false} SlotsWrittenOnce(e: seq<State>, i: nat, j: nat)
    requires Run(e) && i <= j < |e|
    ensures Grows(e[i], e[j])
    decreases j
  {
    if i < j {
      SlotsWrittenOnce(e, i, j - 1);
      RunGrows(e, j - 1);
      GrowsTransitive(e[i], e[j - 1], e[j]);
    } else {
      GrowsReflexive(e[i]);
    }
  }

  // ------------------------------------------------------------ order across producers

  /** The size and the number of producers are fixed. */
  ghost predicate SameCast(s: State, s': State) {
    s'.size == s.size && |s'.prods| == |s.prods|
  }

  lemma NextSameCast(s: State, s': State)
    requires Next(s, s')
    ensures SameCast(s, s')
  {
    if p: nat, line: Line :| PushStarts(s, s', p, line) {
    } else if p: nat :| ProducerMoves(s, s', p) {
      ProducerSameCast(s, p);
    } else {
      assert ReaderStep(s).size == s.size && ReaderStep(s).prods == s.prods;
    }
  }

  lemma ProducerSameCast(s: State, p: nat)
    requires p < |s.prods|
    ensures SameCast(s, ProducerStep(s, p))
  {
  }

  lemma {:induction false} RunSameCast(e: seq<State>, i: nat, j: nat)
    requires Run(e) && i <= j < |e|
    ensures SameCast(e[i], e[j])
    decreases j
  {
    if i < j {
      RunSameCast(e, i, j - 1);
      assert Follows(e, j - 1);
      NextSameCast(e[j - 1], e[j]);
    }
  }

  lemma FlattenGrows<T>(a: seq<seq<T>>, b: seq<seq<T>>, size: nat)
    requires |a| <= |b| && forall g :: 0 <= g < |a| ==> a[g] <= b[g]
    requires forall g :: 0 <= g < |a| - 1 ==> |a[g]| == size
    requires forall g :: 0 <= g < |b| - 1 ==> |b[g]| == size
    ensures Flatten(a) <= Flatten(b)
  {
    if a != [] {
      var n := |a| - 1;
      forall g | 0 <= g < n ensures a[g] == b[g] {
      }
      assert a[..n] == b[..n];
      FlattenNext(b, n);
      FlattenPrefix(b, n + 1);
    }
  }

  /** The ticket order only grows at its end. */
  lemma OrderGrows(e: seq<State>, i: nat, j: nat)
    requires Run(e) && i <= j < |e|
    ensures Order(e[i]) <= Order(e[j])
  {
    assert Grows(e[i], e[j]) && SameCast(e[i], e[j]) && Shape(e[i]) && Shape(e[j]) by {
      SlotsWrittenOnce(e, i, j);
      RunSameCast(e, i, j);
      RunKeeps(e, i);
      RunKeeps(e, j);
    }
    FlattenGrows(e[i].logs, e[j].logs, e[i].size);
  }

  /** Where producer p's lines stand in the ticket order. */
  function PlacesOf(es: seq<Entry>, p: nat): (ks: seq<nat>)
    ensures forall n :: 0 <= n < |ks| ==> ks[n] < |es|
  {
    if es == [] then []
    else
      var k := |es| - 1;
      if es[k].pid == p then PlacesOf(es[..k], p) + [k] else PlacesOf(es[..k], p)
  }

  /** Reading producer p's lines off these places gives its lines, in order. */
  predicate PlacesRight(es: seq<Entry>, p: nat) {
    && |PlacesOf(es, p)| == |OfProducer(es, p)|
    && forall n :: 0 <= n < |PlacesOf(es, p)| ==>
         es[PlacesOf(es, p)[n]].pid == p && es[PlacesOf(es, p)[n]].line == OfProducer(es, p)[n]
  }

  lemma {:induction false} PlacesAreRight(es: seq<Entry>, p: nat)
    ensures PlacesRight(es, p)
  {
    if es != [] {
      PlacesAreRight(es[..|es| - 1], p);
    }
  }

  /** Later tickets leave the places as they are and stand behind them. */
  predicate PlacesGrow(es: seq<Entry>, more: seq<Entry>, p: nat) {
    && PlacesOf(es, p) <= PlacesOf(more, p)
    && forall n :: |PlacesOf(es, p)| <= n < |PlacesOf(more, p)| ==> |es| <= PlacesOf(more, p)[n]
  }

  lemma {:induction false} PlacesDoGrow(es: seq<Entry>, more: seq<Entry>, p: nat)
    requires es <= more
    ensures PlacesGrow(es, more, p)
    decreases |more|
  {
    if es != more {
      PlacesDoGrow(es, more[..|more| - 1], p);
    }
  }

  /** Producer p's n-th push has returned. */
  predicate Returned(s: State, p: nat, n: nat) {
    p < |s.prods| && p < |s.sent| && (n + 1 < |s.sent[p]| || (n + 1 == |s.sent[p]| && s.prods[p].Idle?))
  }

  lemma ReturnedHasPlace(s: State, p: nat, n: nat)
    requires Inv(s) && Returned(s, p, n)
    ensures n < |PlacesOf(Order(s), p)|
  {
    PlacesAreRight(Order(s), p);
  }

  lemma PlacesWithin(s: State, p: nat)
    requires Inv(s) && p < |s.prods|
    ensures |s.sent| == |s.prods| && PlacesRight(Order(s), p)
    ensures |PlacesOf(Order(s), p)| <= |s.sent[p]|
    ensures forall n :: 0 <= n < |PlacesOf(Order(s), p)| ==> OfProducer(Order(s), p)[n] == s.sent[p][n]
  {
    PlacesAreRight(Order(s), p);
  }

  /** What is popped at the place of producer p's n-th line is that line. */
  lemma PoppedAtPlace(e: seq<State>, j: nat, p: nat, n: nat)
    requires Run(e) && j < |e| && p < |e[j].prods| && n < |PlacesOf(Order(e[j]), p)|
    ensures var k := PlacesOf(Order(e[j]), p)[n];
      k < |e[j].popped| ==> p < |e[j].sent| && n < |e[j].sent[p]| && e[j].popped[k] == e[j].sent[p][n]
  {
    RunKeeps(e, j);
    PlacesWithin(e[j], p);
    PoppedInTicketOrder(e, j);
  }

  /** First come, first served across producers: if producer p's n-th push had returned before producer
      q's m-th push began, and the latter's line has a ticket by now, then the former's line stands
      before it in the ticket order; so it is popped before it, and each is popped at its place. */
  lemma EarlierPushPoppedFirst(e: seq<State>, i: nat, j: nat, p: nat, n: nat, q: nat, m: nat)
    requires Run(e) && i <= j < |e| && Returned(e[i], p, n)
    requires q < |e[i].sent| && |e[i].sent[q]| <= m < |PlacesOf(Order(e[j]), q)|
    ensures n < |PlacesOf(Order(e[j]), p)|
    ensures var s, a, b := e[j], PlacesOf(Order(e[j]), p)[n], PlacesOf(Order(e[j]), q)[m];
      && a < b
      && (a < |s.popped| ==> p < |s.sent| && n < |s.sent[p]| && s.popped[a] == s.sent[p][n])
      && (b < |s.popped| ==> q < |s.sent| && m < |s.sent[q]| && s.popped[b] == s.sent[q][m])
  {
    RunKeeps(e, i);
    RunSameCast(e, i, j);
    ReturnedHasPlace(e[i], p, n);
    PlacesWithin(e[i], q);
    OrderGrows(e, i, j);
    PlacesDoGrow(Order(e[i]), Order(e[j]), p);
    PlacesDoGrow(Order(e[i]), Order(e[j]), q);
    PoppedAtPlace(e, j, p, n);
    PoppedAtPlace(e, j, q, m);
  }

  // ------------------------------------------------------------ tickets and generations

  /** What a step does to the program counter of one producer. */
  ghost predicate StepOf(s: State, s': State, p: nat) {
    && |s'.prods| == |s.prods|
    && p < |s.prods|
    && (|s'.logs| == |s.logs| || exists q :: 0 <= q < |s.prods| && s.prods[q].Enqueued?)
    && (s'.prods[p] == s.prods[p] || s'.prods[p] == ProducerStep(s, p).prods[p]
        || (s.prods[p].Idle? && s'.prods[p].Ready?))
  }

  lemma ProducerStepOf(s: State, q: nat, p: nat)
    requires p < |s.prods| && q < |s.prods| && s.logs != []
    ensures StepOf(s, ProducerStep(s, q), p)
  {
    ProducerLogs(s, q);
    ProducerPc(s, q, p);
  }

  lemma ProducerLogs(s: State, q: nat)
    requires q < |s.prods| && s.logs != []
    ensures s.prods[q].Enqueued? || |ProducerStep(s, q).logs| == |s.logs|
  {
  }

  lemma ProducerPc(s: State, q: nat, p: nat)
    requires p < |s.prods| && q < |s.prods|
    ensures |ProducerStep(s, q).prods| == |s.prods|
    ensures p != q ==> ProducerStep(s, q).prods[p] == s.prods[p]
  {
  }

  lemma NextStepOf(s: State, s': State, p: nat)
    requires Next(s, s') && p < |s.prods|
    requires s.logs != []
    ensures StepOf(s, s', p)
  {
    if q: nat, line: Line :| PushStarts(s, s', q, line) {
    } else if q: nat :| ProducerMoves(s, s', q) {
      ProducerStepOf(s, q, p);
    } else {
      assert ReaderStep(s).prods == s.prods && ReaderStep(s).logs == s.logs;
    }
  }

  lemma NobodyEnqueuedWhileHeld(s: State, p: nat)
    requires Inv(s) && p < |s.prods| && Holds(s.prods[p])
    ensures forall q :: 0 <= q < |s.prods| ==> !s.prods[q].Enqueued?
    ensures s.logs != []
  {
    NoSealerWhileHeld(s, p);
  }

  lemma HeldTicketStep(e: seq<State>, k: nat, p: nat)
    requires Run(e) && k + 1 < |e| && p < |e[k].prods| && p < |e[k + 1].prods|
    requires Holds(e[k].prods[p]) && Holds(e[k + 1].prods[p])
    ensures |e[k + 1].logs| == |e[k].logs| && e[k + 1].prods[p].ticket == e[k].prods[p].ticket
  {
    assert StepOf(e[k], e[k + 1], p) && forall q :: 0 <= q < |e[k].prods| ==> !e[k].prods[q].Enqueued? by {
      RunKeeps(e, k);
      NobodyEnqueuedWhileHeld(e[k], p);
      assert Follows(e, k);
      NextStepOf(e[k], e[k + 1], p);
    }
  }

  lemma HeldSlot(s: State, p: nat)
    requires Inv(s) && p < |s.prods| && Holds(s.prods[p])
    ensures !s.prods[p].Ticket? ==> s.prods[p].buf == |s.logs| - 1
    ensures s.prods[p].Loaded? ==>
      && s.prods[p].buf < |s.bufs| && s.prods[p].ticket < |s.bufs[s.prods[p].buf].slots|
      && s.bufs[s.prods[p].buf].slots[s.prods[p].ticket] == Raw
  {
    assert HolderOk(s, p);
    if s.prods[p].Loaded? {
      ConstructGrows(s, p);
    }
  }

  lemma RunHeldSlot(e: seq<State>, j: nat, p: nat)
    requires Run(e) && j < |e| && p < |e[j].prods| && Holds(e[j].prods[p])
    ensures !e[j].prods[p].Ticket? ==> e[j].prods[p].buf == |e[j].logs| - 1
    ensures e[j].prods[p].Loaded? ==>
      && e[j].prods[p].buf < |e[j].bufs| && e[j].prods[p].ticket < |e[j].bufs[e[j].prods[p].buf].slots|
      && e[j].bufs[e[j].prods[p].buf].slots[e[j].prods[p].ticket] == Raw
  {
    RunKeeps(e, j);
    HeldSlot(e[j], p);
  }

  /** From the moment a producer holds a ticket until it has bumped the fill count, the generation
      does not change: although the ticket and the buffer are read in separate steps, the buffer
      it writes is the one its ticket was issued for, and the slot is its own. */
  lemma {:induction false} TicketAndBufferAgree(e: seq<State>, i: nat, j: nat, p: nat)
    requires Run(e) && i <= j < |e|
    requires forall k :: i <= k <= j ==> p < |e[k].prods| && Holds(e[k].prods[p])
    ensures |e[j].logs| == |e[i].logs|
    ensures Holds(e[i].prods[p]) && Holds(e[j].prods[p]) && e[j].prods[p].ticket == e[i].prods[p].ticket
    ensures !e[j].prods[p].Ticket? ==> e[j].prods[p].buf == |e[i].logs| - 1
    ensures e[j].prods[p].Loaded? ==>
      && e[j].prods[p].buf < |e[j].bufs| && e[j].prods[p].ticket < |e[j].bufs[e[j].prods[p].buf].slots|
      && e[j].bufs[e[j].prods[p].buf].slots[e[j].prods[p].ticket] == Raw
    decreases j
  {
    if i < j {
      TicketAndBufferAgree(e, i, j - 1, p);
      HeldTicketStep(e, j - 1, p);
    }
    RunHeldSlot(e, j, p);
  }

  /** The step in which a producer sees the fill count reach the size. */
  ghost predicate Seals(s: State, s': State, p: nat) {
    && p < |s.prods| && p < |s'.prods|
    && s.prods[p].Flagged? && s'.prods[p].Sealing?
  }

  ghost predicate SealsAt(e: seq<State>, k: nat, p: nat) {
    k + 1 < |e| && Seals(e[k], e[k + 1], p)
  }

  ghost predicate AllFlagged(s: State, b: int) {
    0 <= b < |s.bufs| && |s.bufs[b].flags| == s.size && forall i :: 0 <= i < s.size ==> s.bufs[b].flags[i]
  }

  lemma SealerMeansFlagged(s: State)
    requires Inv(s) && s.sealer.Some?
    ensures AllFlagged(s, |s.logs| - 1)
  {
    var g := |s.logs| - 1;
    SealedIsFull(s);
    forall i | 0 <= i < s.size ensures s.bufs[g].flags[i] {
      assert SlotOk(s, g, i);
    }
  }

  lemma SealStep(e: seq<State>, k: nat, p: nat)
    requires Run(e) && k + 1 < |e| && Seals(e[k], e[k + 1], p)
    ensures e[k].sealer == None && e[k + 1].sealer == Some(p) && |e[k + 1].logs| == |e[k].logs|
    ensures AllFlagged(e[k + 1], |e[k].logs| - 1)
  {
    assert e[k].sealer == None && |e[k + 1].logs| == |e[k].logs| by {
      RunKeeps(e, k);
      NoSealerWhileHeld(e[k], p);
      NobodyEnqueuedWhileHeld(e[k], p);
      assert Follows(e, k);
      NextStepOf(e[k], e[k + 1], p);
    }
    RunKeeps(e, k + 1);
    SealerMeansFlagged(e[k + 1]);
  }

  lemma SealerStays(e: seq<State>, k: nat)
    requires Run(e) && k + 1 < |e| && e[k].sealer.Some? && |e[k + 1].logs| == |e[k].logs|
    ensures e[k + 1].sealer.Some?
  {
    RunKeeps(e, k);
    assert Follows(e, k);
    SealerStaysStep(e[k], e[k + 1]);
  }

  lemma SealerStaysStep(s: State, s': State)
    requires Next(s, s') && s.logs != []
    requires s.sealer.Some? && |s'.logs| == |s.logs|
    ensures s'.sealer.Some?
  {
    if q: nat, line: Line :| PushStarts(s, s', q, line) {
    } else if q: nat :| ProducerMoves(s, s', q) {
      SealerStaysMove(s, q);
    } else {
      assert ReaderStep(s).sealer == s.sealer;
    }
  }

  lemma SealerStaysMove(s: State, q: nat)
    requires q < |s.prods| && s.logs != []
    requires s.sealer.Some? && |ProducerStep(s, q).logs| == |s.logs|
    ensures ProducerStep(s, q).sealer.Some?
  {
  }

  lemma GenerationsGrow(e: seq<State>, i: nat, j: nat)
    requires Run(e) && i <= j < |e|
    ensures |e[i].logs| <= |e[j].logs|
  {
    SlotsWrittenOnce(e, i, j);
  }

  lemma {:induction false} SealerStaysInGeneration(e: seq<State>, i: nat, j: nat)
    requires Run(e) && i <= j < |e| && e[i].sealer.Some?
    requires |e[i].logs| == |e[j].logs|
    ensures e[j].sealer.Some?
    decreases j
  {
    if i < j {
      GenerationsGrow(e, i, j - 1);
      GenerationsGrow(e, j - 1, j);
      SealerStaysInGeneration(e, i, j - 1);
      SealerStays(e, j - 1);
    }
  }

  /** A generation is sealed at most once. */
  lemma SealedAtMostOnce(e: seq<State>, i: nat, p: nat, j: nat, q: nat)
    requires Run(e) && SealsAt(e, i, p) && SealsAt(e, j, q)
    requires |e[i].logs| == |e[j].logs|
    ensures i == j && p == q
  {
    SealStep(e, i, p);
    SealStep(e, j, q);
    if i < j {
      SealerStaysInGeneration(e, i + 1, j);
    } else if j < i {
      SealerStaysInGeneration(e, j + 1, i);
    }
  }

  /** All tickets of generation g are granted and counted: a later generation has begun, or a producer
      is about to begin it. */
  predicate Completed(s: State, g: nat) {
    g + 1 < |s.logs| || (g + 1 == |s.logs| && s.sealer.Some?)
  }

  /** A new generation begins only under a sealer, who then steps down; and nobody becomes the sealer
      but by sealing. */
  lemma SealerAppears(s: State, s': State, g: nat) returns (p: nat)
    requires Inv(s) && Next(s, s') && !Completed(s, g) && Completed(s', g)
    ensures Seals(s, s', p) && |s.logs| == g + 1
  {
    if q: nat, line: Line :| PushStarts(s, s', q, line) {
      assert false;
    } else if q: nat :| ProducerMoves(s, s', q) {
      p := q;
      MoverSeals(s, q, g);
    } else {
      assert false;
    }
  }

  lemma MoverSeals(s: State, q: nat, g: nat)
    requires Shape(s) && Sealed(s) && q < |s.prods| && !Completed(s, g) && Completed(ProducerStep(s, q), g)
    ensures Seals(s, ProducerStep(s, q), q) && |s.logs| == g + 1
  {
  }

  lemma {:induction false} SealedBefore(e: seq<State>, j: nat, g: nat) returns (i: nat, p: nat)
    requires Run(e) && j < |e| && Completed(e[j], g)
    ensures i < j && SealsAt(e, i, p) && |e[i].logs| == g + 1
  {
    if j > 0 && Completed(e[j - 1], g) {
      i, p := SealedBefore(e, j - 1, g);
    } else {
      i := j - 1;
      RunKeeps(e, i);
      assert Follows(e, i);
      p := SealerAppears(e[i], e[j], g);
    }
  }

  /** Each completed generation was completed by exactly one producer in exactly one step, the one that
      saw the count reach the size, and at that moment every slot of the generation was flagged. */
  lemma SealedOncePerGeneration(e: seq<State>, j: nat, g: nat) returns (i: nat, p: nat)
    requires Run(e) && j < |e| && Completed(e[j], g)
    ensures i < j && SealsAt(e, i, p) && |e[i].logs| == g + 1
    ensures AllFlagged(e[i + 1], g)
    ensures forall k: nat, q: nat :: SealsAt(e, k, q) && |e[k].logs| == g + 1 ==> k == i && q == p
  {
    i, p := SealedBefore(e, j, g);
    SealStep(e, i, p);
    forall k: nat, q: nat | SealsAt(e, k, q) && |e[k].logs| == g + 1 ensures k == i && q == p {
      SealedAtMostOnce(e, i, p, k, q);
    }
  }

  /** The shared ticket counter exceeds the size by at most one per producer, so it never wraps. */
  lemma TicketCounterBounded(e: seq<State>, i: nat)
    requires Run(e) && i < |e|
    ensures e[i].writeIndex <= e[i].size + |e[i].prods| < Arithmetic.WORD
    ensures e[i].writeIndex > e[i].size ==> exists p :: 0 <= p < |e[i].prods| && e[i].prods[p].Spinning?
  {
    RunKeeps(e, i);
    CounterBound(e[i]);
    if e[i].writeIndex > e[i].size {
      var p :| p in e[i].over;
    }
  }
}
