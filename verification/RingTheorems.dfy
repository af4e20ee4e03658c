/** What the lossy ring keeps, and when it loses nothing. */
module RingTheorems {
  import opened Sequences
  import opened Logger
  import opened RingBuffer
  import opened Arithmetic

  // ------------------------------------------------------------ conservation

  function Times(b: bool): nat {
    if b then 1 else 0
  }

  lemma {:induction false} DistinctCount(xs: seq<nat>, k: nat)
    requires forall i, j :: 0 <= i < j < |xs| ==> xs[i] != xs[j]
    ensures multiset(xs)[k] == Times(k in xs)
  {
    if xs != [] {
      var n := |xs| - 1;
      DistinctCount(xs[..n], k);
      assert xs == xs[..n] + [xs[n]];
    }
  }

  /** The push that took ticket k still has its line. */
  predicate StillPushing(s: State, k: nat)
    requires k < |s.tickets|
  {
    var p := s.tickets[k].pid;
    p < |s.prods| && HasTicket(s.prods[p]) && s.prods[p].ticket == k
  }

  predicate InRing(s: State, k: nat) {
    exists c :: 0 <= c < |s.cells| && s.cells[c].content == Some(k)
  }

  /** In every interleaving each ticket's line is in exactly one place, once: with the push that
      took the ticket, in the ring, among the lines read, or among the lines overwritten. */
  lemma TicketConservation(s: State, k: nat)
    requires Inv(s) && k < |s.tickets|
    ensures Times(StillPushing(s, k)) + Times(InRing(s, k)) + multiset(s.popped)[k] + multiset(s.lost)[k] == 1
  {
    DistinctCount(s.popped, k);
    DistinctCount(s.lost, k);
    Whereabouts(s, k);
  }

  /** The n-th push of producer p has returned. */
  predicate PushDone(s: State, p: nat, n: nat)
    requires p < |s.prods| && p < |s.sent|
  {
    n < |s.sent[p]| && (n + 1 < |s.sent[p]| || s.prods[p].Idle?)
  }

  /** In every interleaving, the n-th line producer p passed to push either still waits for its ticket
      or has one, the n-th of p's tickets, whose line is that line and is in exactly one place, once.
      If the push has returned, that place is the ring, the lines read, or the lines overwritten. */
  lemma Conservation(e: seq<State>, i: nat, p: nat, n: nat)
    requires Run(e) && i < |e| && p < |e[i].sent| && n < |e[i].sent[p]|
    ensures p < |e[i].prods|
    ensures var s := e[i];
      var ts := TicketsOf(s.tickets, p);
      if |ts| <= n then
        n == |ts| && s.prods[p] == Ready(s.sent[p][n])
      else
        var k := ts[n];
        && s.tickets[k].pid == p && s.tickets[k].line == s.sent[p][n]
        && Times(StillPushing(s, k)) + Times(InRing(s, k)) + multiset(s.popped)[k] + multiset(s.lost)[k] == 1
        && (PushDone(s, p, n) ==> !StillPushing(s, k))
  {
    var s := e[i];
    RunKeeps(e, i);
    assert PushesOk(s, p);
    var ts := TicketsOf(s.tickets, p);
    if n < |ts| {
      TicketConservation(s, ts[n]);
    }
  }

  lemma {:induction false} TicketListed(es: seq<Entry>, k: nat) returns (n: nat)
    requires k < |es|
    ensures var ts := TicketsOf(es, es[k].pid); n < |ts| && ts[n] == k
  {
    var last := |es| - 1;
    if k == last {
      n := |TicketsOf(es, es[k].pid)| - 1;
    } else {
      n := TicketListed(es[..last], k);
    }
  }

  /** Nothing is invented: every ticket is a producer's, and its line is the one that producer passed
      to the push in question. */
  lemma TicketWasPushed(e: seq<State>, i: nat, k: nat) returns (n: nat)
    requires Run(e) && i < |e| && k < |e[i].tickets|
    ensures var s := e[i];
      var p := s.tickets[k].pid;
      && p < |s.prods| && p < |s.sent| && n < |s.sent[p]|
      && s.sent[p][n] == s.tickets[k].line
      && n < |TicketsOf(s.tickets, p)| && TicketsOf(s.tickets, p)[n] == k
  {
    var s := e[i];
    RunKeeps(e, i);
    assert PushesOk(s, s.tickets[k].pid);
    n := TicketListed(s.tickets, k);
  }

  lemma Whereabouts(s: State, k: nat)
    requires Core(s) && k < |s.tickets|
    ensures StillPushing(s, k) <==> s.fates[k] == InFlight
    ensures InRing(s, k) <==> s.fates[k] == Resident
    ensures k in s.popped <==> s.fates[k] == Popped
    ensures k in s.lost <==> s.fates[k] == Lost
  {
    assert TicketOk(s, k);
    if StillPushing(s, k) {
      assert ProducerOk(s, s.tickets[k].pid);
    }
    if InRing(s, k) {
      var c :| 0 <= c < |s.cells| && s.cells[c].content == Some(k);
      assert CellOk(s, c);
    }
  }

  /** Each line read is the line of its ticket, and a line in the ring sits in its ticket's slot,
      marked as written. */
  lemma LinesIntact(e: seq<State>, i: nat)
    requires Run(e) && i < |e|
    ensures var s := e[i];
      && |s.output| == |s.popped|
      && (forall j :: 0 <= j < |s.popped| ==> s.popped[j] < |s.tickets| && s.output[j] == s.tickets[s.popped[j]].line)
      && (forall c :: 0 <= c < |s.cells| && s.cells[c].content.Some? ==>
            var k := s.cells[c].content.value;
            && k < |s.tickets| && 0 < s.size && c == SlotOf(k, s.size)
            && s.cells[c].written && s.cells[c].line == s.tickets[k].line)
  {
    var s := e[i];
    RunKeeps(e, i);
    forall c | 0 <= c < |s.cells| && s.cells[c].content.Some?
      ensures var k := s.cells[c].content.value;
        k < |s.tickets| && c == SlotOf(k, s.size) && s.cells[c].written && s.cells[c].line == s.tickets[k].line
    {
      assert CellOk(s, c);
    }
  }

  // ------------------------------------------------------------ when nothing is lost

  /** Tickets are at most one ring ahead of the reader, and the 32-bit counters have not wrapped
      (or wrapping does not matter, because the size divides 2^32). */
  ghost predicate Close(s: State) {
    && |s.tickets| <= |s.popped| + s.size
    && (|s.tickets| <= WORD || (0 < s.size && WORD % s.size == 0))
  }

  /** Nothing was overwritten and the lines read are the first ones, in ticket order. */
  ghost predicate Lossless(s: State) {
    && s.lost == []
    && forall i :: 0 <= i < |s.popped| ==> s.popped[i] == i
  }

  lemma WindowUnique(a: nat, b: nat, size: nat)
    requires 0 < size && a <= b < a + size && a % size == b % size
    ensures a == b
  {
    var r, q, q' := a % size, a / size, b / size;
    assert a == size * q + r && b == size * q' + r;
    MultiplesApart(size, q, q');
    MultiplesApart(size, q', q);
  }

  /** Within one ring's length, tickets have different slots. */
  lemma SlotsDiffer(a: nat, b: nat, size: nat)
    requires 0 < size && a <= b < a + size
    requires b < WORD || WORD % size == 0
    requires SlotOf(a, size) == SlotOf(b, size)
    ensures a == b
  {
    if b >= WORD {
      ModuloOfMultiple(a, WORD, size);
      ModuloOfMultiple(b, WORD, size);
    }
    WindowUnique(a, b, size);
  }

  lemma UnreadTicket(s: State, k: nat)
    requires Core(s) && Lossless(s) && k < |s.tickets| && s.fates[k] != Popped
    ensures |s.popped| <= k
  {
    forall i | 0 <= i < |s.popped| ensures i < |s.fates| && s.fates[i] == Popped {
      assert s.popped[i] == i;
    }
  }

  lemma SameSlot(s: State, j: nat, k: nat)
    requires Core(s) && Counters(s) && Lossless(s) && Close(s)
    requires |s.popped| <= j < |s.tickets| && |s.popped| <= k < |s.tickets|
    requires s.tickets[j].cell == s.tickets[k].cell
    ensures j == k
  {
    if j <= k {
      SlotsDiffer(j, k, s.size);
    } else {
      SlotsDiffer(k, j, s.size);
    }
  }

  lemma StoreLossless(s: State, p: nat)
    requires Core(s) && Counters(s) && Lossless(s) && Close(s) && p < |s.prods| && s.prods[p].Holding?
    ensures Lossless(ProducerStep(s, p))
  {
    assert ProducerOk(s, p);
    var k, c := s.prods[p].ticket, s.prods[p].cell;
    assert CellOk(s, c);
    UnreadTicket(s, k);
    if s.cells[c].content.Some? {
      var j := s.cells[c].content.value;
      UnreadTicket(s, j);
      SameSlot(s, j, k);
      assert false;
    }
  }

  lemma TakeLossless(s: State)
    requires Core(s) && Counters(s) && Lossless(s) && Close(s)
    requires s.reader.Locked? && CellAt(s, s.reader.cell).written
    ensures Lossless(ReaderStep(s))
  {
    var c := s.reader.cell;
    WrittenHasContent(s);
    assert CellOk(s, c);
    var j := s.cells[c].content.value;
    UnreadTicket(s, j);
    SlotsDiffer(|s.popped|, j, s.size);
  }

  lemma NextLossless(s: State, s': State)
    requires Inv(s) && Lossless(s) && Close(s) && Next(s, s')
    ensures Lossless(s')
  {
    if p: nat, line: Line :| PushStarts(s, s', p, line) {
    } else if p: nat :| ProducerMoves(s, s', p) {
      if s.prods[p].Holding? {
        StoreLossless(s, p);
      }
    } else {
      if s.reader.Locked? && CellAt(s, s.reader.cell).written {
        TakeLossless(s);
      }
    }
  }

  lemma LosslessOutput(s: State)
    requires Core(s) && Lossless(s)
    ensures |s.output| <= |s.tickets|
    ensures forall j :: 0 <= j < |s.output| ==> s.output[j] == s.tickets[j].line
  {
    forall j | 0 <= j < |s.output| ensures j < |s.tickets| && s.output[j] == s.tickets[j].line {
      assert s.popped[j] == j;
    }
    if s.output != [] {
      assert s.popped[|s.output| - 1] < |s.tickets|;
    }
  }

  /** While tickets never run more than a ring's length ahead of the reader, the ring is a lossless
      queue: nothing is overwritten and lines come out in ticket order, none left out. */
  lemma {:induction false} LosslessWhileClose(e: seq<State>, i: nat)
    requires Run(e) && i < |e|
    requires forall k :: 0 <= k < i ==> Close(e[k])
    ensures Lossless(e[i])
    ensures |e[i].output| <= |e[i].tickets|
    ensures forall j :: 0 <= j < |e[i].output| ==> e[i].output[j] == e[i].tickets[j].line
  {
    if i > 0 {
      LosslessWhileClose(e, i - 1);
      LosslessStep(e, i - 1);
    }
    RunKeeps(e, i);
    LosslessOutput(e[i]);
  }

  lemma LosslessStep(e: seq<State>, i: nat)
    requires Run(e) && i + 1 < |e| && Close(e[i]) && Lossless(e[i])
    ensures Lossless(e[i + 1])
  {
    RunKeeps(e, i);
    assert Follows(e, i);
    NextLossless(e[i], e[i + 1]);
  }

  // ------------------------------------------------------------ both bounds are tight

  /** Nobody is doing anything, and there is one producer. */
  predicate Resting(s: State) {
    && 0 < s.size == |s.cells|
    && s.prods == [Idle] && |s.sent| == 1 && s.reader == AtCall
    && forall c :: 0 <= c < s.size ==> s.cells[c].lock == None
  }

  /** The six states of an uninterrupted push. */
  function OnePush(s: State, line: Line): (e: seq<State>)
    requires 0 < s.size && |s.prods| == |s.sent| == 1
    ensures |e| == 6
  {
    var s1 := StartPush(s, 0, line);
    var s2 := ProducerStep(s1, 0);
    var s3 := ProducerStep(s2, 0);
    var s4 := ProducerStep(s3, 0);
    var s5 := ProducerStep(s4, 0);
    [s1, s2, s3, s4, s5, ProducerStep(s5, 0)]
  }

  /** The four states of an uninterrupted pop. */
  function OnePop(s: State): (e: seq<State>)
    requires 0 < s.size
    ensures |e| == 4
  {
    var s1 := ReaderStep(s);
    var s2 := ReaderStep(s1);
    var s3 := ReaderStep(s2);
    [s1, s2, s3, ReaderStep(s3)]
  }

  predicate StaysWithin(e: seq<State>, size: nat, tickets: nat, popped: nat) {
    forall t :: t in e ==> t.size == size && |t.tickets| <= tickets && popped <= |t.popped|
  }

  /** What an uninterrupted push does: one ticket, and what was in its slot is lost. */
  lemma PushEffect(s: State, line: Line)
    requires Resting(s)
    ensures var s' := OnePush(s, line)[5];
      && Resting(s') && s'.size == s.size
      && |s'.tickets| == |s.tickets| + 1 && s'.popped == s.popped
      && s'.lost == s.lost + match s.cells[s.writeIndex % s.size].content case Some(k) => [k] case None => []
    ensures StaysWithin(OnePush(s, line), s.size, |s.tickets| + 1, |s.popped|)
  {
    PushStages(s, line);
    PushStaysWithin(s, line);
  }

  lemma PushStages(s: State, line: Line)
    requires Resting(s)
    ensures var s' := OnePush(s, line)[5];
      && Resting(s') && s'.size == s.size
      && |s'.tickets| == |s.tickets| + 1 && s'.popped == s.popped
      && s'.lost == s.lost + match s.cells[s.writeIndex % s.size].content case Some(k) => [k] case None => []
  {
    var e, c := OnePush(s, line), s.writeIndex % s.size;
    assert e[1].prods == [Ticketed(line, |s.tickets|, c)];
    assert e[2].prods == [Holding(line, |s.tickets|, c)];
    assert e[3].prods == [Stored(|s.tickets|, c)];
    assert e[4].prods == [Marked(c)];
  }

  lemma PushStaysWithin(s: State, line: Line)
    requires Resting(s)
    ensures StaysWithin(OnePush(s, line), s.size, |s.tickets| + 1, |s.popped|)
  {
    var e, c := OnePush(s, line), s.writeIndex % s.size;
    assert e[1].prods == [Ticketed(line, |s.tickets|, c)];
    assert e[2].prods == [Holding(line, |s.tickets|, c)];
    assert e[3].prods == [Stored(|s.tickets|, c)];
    assert e[4].prods == [Marked(c)];
    forall t | t in e ensures t.size == s.size && |t.tickets| <= |s.tickets| + 1 && |s.popped| <= |t.popped| {
      assert t == e[0] || t == e[1] || t == e[2] || t == e[3] || t == e[4] || t == e[5];
    }
  }

  /** What an uninterrupted pop of a written slot does. */
  lemma PopEffect(s: State)
    requires Resting(s)
    requires var cell := s.cells[s.readIndex % s.size]; cell.written && cell.content.Some?
    ensures var s' := OnePop(s)[3];
      && Resting(s') && s'.size == s.size
      && s'.tickets == s.tickets && |s'.popped| == |s.popped| + 1 && s'.lost == s.lost
    ensures StaysWithin(OnePop(s), s.size, |s.tickets|, |s.popped|)
  {
    var e, c := OnePop(s), s.readIndex % s.size;
    assert e[0].reader == Locked(c);
    assert e[1].reader == Taken(c);
    assert e[2].reader == Leaving(c);
    forall t | t in e ensures t.size == s.size && |t.tickets| <= |s.tickets| && |s.popped| <= |t.popped| {
      assert t == e[0] || t == e[1] || t == e[2] || t == e[3];
    }
  }

  lemma ExtendRun(e: seq<State>, more: seq<State>)
    requires Run(e) && more != [] && Next(e[|e| - 1], more[0])
    requires forall i {:trigger Follows(more, i)} :: 0 <= i < |more| - 1 ==> Follows(more, i)
    ensures Run(e + more)
  {
    var e' := e + more;
    forall i | 0 <= i < |e'| - 1 ensures Follows(e', i) {
      if i < |e| - 1 {
        assert Follows(e, i);
      } else if i >= |e| {
        assert Follows(more, i - |e|);
      }
    }
  }

  lemma RunPush(e: seq<State>, line: Line)
    requires Run(e) && Resting(e[|e| - 1])
    ensures Run(e + OnePush(e[|e| - 1], line))
  {
    var s := e[|e| - 1];
    var more := OnePush(s, line);
    PushEffect(s, line);
    assert PushStarts(s, more[0], 0, line);
    forall i | 0 <= i < |more| - 1 ensures Follows(more, i) {
      assert more[i] in more;
      assert ProducerMoves(more[i], more[i + 1], 0);
    }
    ExtendRun(e, more);
  }

  lemma RunPop(e: seq<State>)
    requires Run(e) && Resting(e[|e| - 1])
    requires var s := e[|e| - 1]; var cell := s.cells[s.readIndex % s.size]; cell.written && cell.content.Some?
    ensures Run(e + OnePop(e[|e| - 1]))
  {
    var more := OnePop(e[|e| - 1]);
    PopEffect(e[|e| - 1]);
    forall i | 0 <= i < |more| - 1 ensures Follows(more, i) {
      assert more[i] in more;
    }
    ExtendRun(e, more);
  }

  /** In a run that stays within the ring's length, at rest, the tickets not yet popped are all in their
      slots. */
  lemma UnreadResident(e: seq<State>, k: nat)
    requires Run(e) && Resting(e[|e| - 1]) && (forall t :: t in e ==> Close(t))
    requires |e[|e| - 1].popped| <= k < |e[|e| - 1].tickets|
    ensures var s := e[|e| - 1];
      Lossless(s) && Inv(s) && s.cells[SlotOf(k, s.size)].content == Some(k) && s.cells[SlotOf(k, s.size)].written
  {
    var s := e[|e| - 1];
    LosslessWhileClose(e, |e| - 1);
    RunKeeps(e, |e| - 1);
    assert TicketOk(s, k);
    if s.fates[k] == Popped {
      var i :| 0 <= i < |s.popped| && s.popped[i] == k;
      assert false;
    }
    assert CellOk(s, SlotOf(k, s.size));
  }

  lemma PushOn(front: seq<State>, line: Line) returns (e: seq<State>)
    requires Run(front) && Resting(front[|front| - 1]) && (forall t :: t in front ==> Close(t))
    requires forall t :: t in front ==> t.size == front[|front| - 1].size
    requires var s := front[|front| - 1]; |s.tickets| < WORD && |s.tickets| < |s.popped| + s.size
    ensures var s := front[|front| - 1];
      && Run(e) && Resting(e[|e| - 1]) && (forall t :: t in e ==> Close(t) && t.size == s.size)
      && |e[|e| - 1].tickets| == |s.tickets| + 1 && |e[|e| - 1].popped| == |s.popped|
  {
    var s := front[|front| - 1];
    PushEffect(s, line);
    RunPush(front, line);
    e := front + OnePush(s, line);
  }

  lemma PopOn(front: seq<State>) returns (e: seq<State>)
    requires Run(front) && Resting(front[|front| - 1]) && (forall t :: t in front ==> Close(t))
    requires forall t :: t in front ==> t.size == front[|front| - 1].size
    requires var s := front[|front| - 1]; |s.popped| < |s.tickets|
    ensures var s := front[|front| - 1];
      && Run(e) && Resting(e[|e| - 1]) && (forall t :: t in e ==> Close(t) && t.size == s.size)
      && |e[|e| - 1].tickets| == |s.tickets| && |e[|e| - 1].popped| == |s.popped| + 1
  {
    var s := front[|front| - 1];
    assert s in front && Close(s);
    UnreadResident(front, |s.popped|);
    PopEffect(s);
    RunPop(front);
    e := front + OnePop(s);
  }

  /** For every window of at most a ring's length below 2^32 there is a run that ends at rest with just
      these tickets unread. */
  lemma {:induction false} Reach(size: nat, popped: nat, tickets: nat, line: Line) returns (e: seq<State>)
    requires 0 < size && popped <= tickets <= popped + size && tickets <= WORD
    ensures Run(e) && Resting(e[|e| - 1]) && (forall t :: t in e ==> Close(t) && t.size == size)
    ensures |e[|e| - 1].tickets| == tickets && |e[|e| - 1].popped| == popped
    ensures Lossless(e[|e| - 1]) && Inv(e[|e| - 1])
    decreases tickets + popped
  {
    if popped < tickets {
      var front := Reach(size, popped, tickets - 1, line);
      e := PushOn(front, line);
    } else if 0 < popped {
      var front := Reach(size, popped - 1, tickets, line);
      e := PopOn(front);
    } else {
      var cells := seq(size, _ => Cell(None, false, "", None));
      e := [State(size, cells, 0, [Idle], AtCall, 0, [], [[]], [], [], [], [])];
    }
    LosslessWhileClose(e, |e| - 1);
    RunKeeps(e, |e| - 1);
  }

  /** One more push, when the slot it gets holds an unread line: that line is lost. */
  lemma PushLoses(e: seq<State>, k: nat, line: Line) returns (e': seq<State>)
    requires Run(e) && Resting(e[|e| - 1]) && (forall t :: t in e ==> Close(t))
    requires var s := e[|e| - 1];
      |s.popped| <= k < |s.tickets| && SlotOf(k, s.size) == s.writeIndex % s.size && s.lost == []
    ensures Run(e') && e <= e' && e'[|e'| - 1].lost == [k]
    ensures var s := e[|e| - 1]; StaysWithin(e'[|e|..], s.size, |s.tickets| + 1, |s.popped|)
  {
    var s := e[|e| - 1];
    UnreadResident(e, k);
    PushEffect(s, line);
    RunPush(e, line);
    e' := e + OnePush(s, line);
    assert e'[|e|..] == OnePush(s, line);
  }

  /** Tickets are at most a ring's length ahead of the reader throughout. */
  ghost predicate WithinRing(e: seq<State>, size: nat) {
    forall t :: t in e ==> t.size == size && |t.tickets| <= |t.popped| + size
  }

  lemma SlotZero(size: nat)
    requires 0 < size && WORD % size != 0
    ensures var k := WORD - WORD % size; k < WORD && SlotOf(k, size) == 0
  {
    var k := WORD - WORD % size;
    assert k == size * (WORD / size);
    QuotientUnique(k, size, WORD / size, 0);
  }

  /** When the ring's size does not divide 2^32, the slots jump as the counter wraps: there is a run
      that never gets more than a ring's length ahead and still loses a line. */
  lemma WrapLoses(size: nat, line: Line) returns (e: seq<State>)
    requires 0 < size && WORD % size != 0
    ensures Run(e) && WithinRing(e, size) && e[|e| - 1].lost == [WORD - WORD % size]
  {
    var k := WORD - WORD % size;
    SlotZero(size);
    var full := Reach(size, k, WORD, line);
    e := PushLoses(full, k, line);
    forall t | t in e ensures t.size == size && |t.tickets| <= |t.popped| + size {
      InEither(full, e, t);
    }
  }

  /** A lead of a ring's length is safe for every run exactly when the ring's size divides 2^32. */
  lemma LosslessExactly(size: nat)
    requires 0 < size
    ensures WORD % size == 0 <==> forall e :: Run(e) && WithinRing(e, size) ==> Lossless(e[|e| - 1])
  {
    if WORD % size == 0 {
      forall e | Run(e) && WithinRing(e, size) ensures Lossless(e[|e| - 1]) {
        LosslessWhileClose(e, |e| - 1);
      }
    } else {
      var e := WrapLoses(size, "");
      assert !Lossless(e[|e| - 1]);
    }
  }

  lemma InEither<T>(a: seq<T>, e: seq<T>, t: T)
    requires a <= e && t in e
    ensures t in a || t in e[|a|..]
  {
    assert e == a + e[|a|..];
  }

  lemma NextSlotZero(s: State, size: nat)
    requires 0 < size <= WORD && s.size == size && Counters(s) && |s.tickets| == size
    ensures SlotOf(0, size) == s.writeIndex % size
  {
    WrappedZero(size);
  }

  lemma WrappedZero(size: nat)
    requires 0 < size <= WORD
    ensures size % WORD % size == 0 == SlotOf(0, size)
  {
    if size == WORD {
      QuotientUnique(size, WORD, 1, 0);
    } else {
      QuotientUnique(size, WORD, 0, size);
    }
    QuotientUnique(size, size, 1, 0);
    QuotientUnique(0, size, 0, 0);
  }

  lemma OverrunLoses(size: nat, line: Line) returns (e: seq<State>)
    requires 0 < size <= WORD
    ensures Run(e) && (forall t :: t in e ==> t.size == size && |t.tickets| <= |t.popped| + size + 1)
    ensures e[|e| - 1].lost == [0]
  {
    var full := Reach(size, 0, size, line);
    NextSlotZero(full[|full| - 1], size);
    e := PushLoses(full, 0, line);
    forall t | t in e ensures t.size == size && |t.tickets| <= |t.popped| + size + 1 {
      InEither(full, e, t);
    }
  }

  /** For every ring size there is a run in which tickets get one further ahead than the ring is
      long and the first line is lost: the bound cannot be raised. */
  lemma BoundIsTight(size: nat, line: Line) returns (e: seq<State>)
    requires 0 < size
    ensures Run(e) && (forall t :: t in e ==> t.size == size && |t.tickets| <= |t.popped| + size + 1)
    ensures e[|e| - 1].lost == [0]
  {
    if size <= WORD {
      e := OverrunLoses(size, line);
    } else {
      e := WrapLoses(size, line);
    }
  }
}
