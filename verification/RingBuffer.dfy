/** The non-guaranteed logger's ring: producers overwrite the slot of their ticket whether or not
    it was read, one consumer reads the slots in turn, and each slot has its own spin lock.

    As in `QueueBuffer`, every step is one access of one thread and failed busy-waits leave the
    state alone.  Tickets are numbered without wrapping in the history variables; the counters
    the code uses are 32 bits wide. */
module RingBuffer {
  import Arithmetic
  import opened Sequences
  import opened Logger

  /** `content` is a history variable: the ticket of the unread line in the slot. */
  datatype Cell = Cell(lock: Option<Owner>, written: bool, line: Line, content: Option<nat>)

  /** A ticket: who took it, for which line, and the slot it leads to. */
  datatype Entry = Entry(pid: nat, line: Line, cell: nat)

  datatype Fate = InFlight | Resident | Popped | Lost

  datatype Producer =
    | Idle
    | Ready(line: Line)                                // before the ticket is taken
    | Ticketed(line: Line, ticket: nat, cell: nat)     // before the slot's lock
    | Holding(line: Line, ticket: nat, cell: nat)      // has the lock
    | Stored(ticket: nat, cell: nat)                   // moved the line in
    | Marked(cell: nat)                                // set `written`

  datatype Reader =
    | AtCall
    | Locked(cell: nat)     // has the lock, before testing `written`
    | Taken(cell: nat)      // moved the line out
    | Leaving(cell: nat)    // before releasing the lock

  /** The fields from `sent` on are history variables. */
  datatype State = State(
    size: nat,
    cells: seq<Cell>,
    writeIndex: nat,
    prods: seq<Producer>,
    reader: Reader,
    readIndex: nat,
    output: seq<Line>,       // lines handed to the log writer
    sent: seq<seq<Line>>,    // lines passed to push, by producer
    tickets: seq<Entry>,     // every ticket taken
    fates: seq<Fate>,        // by ticket
    popped: seq<nat>,        // tickets read, in order
    lost: seq<nat>)          // tickets overwritten before they were read

  /** The slot of a ticket. */
  function SlotOf(ticket: nat, size: nat): nat
    requires 0 < size
  {
    ticket % Arithmetic.WORD % size
  }

  ghost predicate Init(s: State) {
    && 0 < s.size
    && s == State(s.size, seq(s.size, _ => Cell(None, false, "", None)), 0,
                  seq(|s.prods|, _ => Idle), AtCall, 0, [],
                  seq(|s.prods|, _ => []), [], [], [], [])
  }

  function SetCell(cells: seq<Cell>, c: nat, cell: Cell): seq<Cell> {
    if c < |cells| then cells[c := cell] else cells
  }

  function CellAt(s: State, c: nat): Cell {
    if c < |s.cells| then s.cells[c] else Cell(None, false, "", None)
  }

  function SetFate(fates: seq<Fate>, k: nat, fate: Fate): seq<Fate> {
    if k < |fates| then fates[k := fate] else fates
  }

  function At(s: State, p: nat, pc: Producer): State
    requires p < |s.prods|
  {
    s.(prods := s.prods[p := pc])
  }

  /** A producer calls push with a line. */
  function StartPush(s: State, p: nat, line: Line): State
    requires p < |s.prods| && p < |s.sent|
  {
    At(s, p, Ready(line)).(sent := s.sent[p := s.sent[p] + [line]])
  }

  function TakeTicket(s: State, p: nat, line: Line): State
    requires 0 < s.size && p < |s.prods|
  {
    At(s, p, Ticketed(line, |s.tickets|, s.writeIndex % s.size)).(
      writeIndex := (s.writeIndex + 1) % Arithmetic.WORD,
      tickets := s.tickets + [Entry(p, line, s.writeIndex % s.size)],
      fates := s.fates + [InFlight])
  }

  /** Moving the new line in; what was unread in the slot is lost. */
  function Store(s: State, p: nat, line: Line, k: nat, c: nat): State
    requires p < |s.prods|
  {
    var cell := CellAt(s, c);
    var s1 := At(s, p, Stored(k, c)).(cells := SetCell(s.cells, c, cell.(line := line, content := None)));
    if cell.content.Some? then
      s1.(fates := SetFate(s.fates, cell.content.value, Lost), lost := s.lost + [cell.content.value])
    else s1
  }

  function ProducerStep(s: State, p: nat): State
    requires 0 < s.size && p < |s.prods|
  {
    match s.prods[p]
    case Idle => s
    case Ready(line) => TakeTicket(s, p, line)
    case Ticketed(line, k, c) =>
      if CellAt(s, c).lock != None then s
      else At(s, p, Holding(line, k, c)).(cells := SetCell(s.cells, c, CellAt(s, c).(lock := Some(ByProducer(p)))))
    case Holding(line, k, c) => Store(s, p, line, k, c)
    case Stored(k, c) =>
      At(s, p, Marked(c)).(
        cells := SetCell(s.cells, c, CellAt(s, c).(written := true, content := Some(k))),
        fates := SetFate(s.fates, k, Resident))
    case Marked(c) => At(s, p, Idle).(cells := SetCell(s.cells, c, CellAt(s, c).(lock := None)))
  }

  /** Moving the line out of the slot. */
  function Take(s: State, c: nat): State {
    var cell := CellAt(s, c);
    var s1 := s.(reader := Taken(c), output := s.output + [cell.line],
                 cells := SetCell(s.cells, c, cell.(content := None)));
    if cell.content.Some? then
      s1.(fates := SetFate(s.fates, cell.content.value, Popped), popped := s.popped + [cell.content.value])
    else s1
  }

  function ReaderStep(s: State): State
    requires 0 < s.size
  {
    match s.reader
    case AtCall =>
      var c := s.readIndex % s.size;
      if CellAt(s, c).lock != None then s
      else s.(reader := Locked(c), cells := SetCell(s.cells, c, CellAt(s, c).(lock := Some(ByReader))))
    case Locked(c) => if CellAt(s, c).written then Take(s, c) else s.(reader := Leaving(c))
    case Taken(c) =>
      s.(reader := Leaving(c), readIndex := (s.readIndex + 1) % Arithmetic.WORD,
         cells := SetCell(s.cells, c, CellAt(s, c).(written := false)))
    case Leaving(c) => s.(reader := AtCall, cells := SetCell(s.cells, c, CellAt(s, c).(lock := None)))
  }

  ghost predicate PushStarts(s: State, s': State, p: nat, line: Line) {
    p < |s.prods| && p < |s.sent| && s.prods[p] == Idle && s' == StartPush(s, p, line)
  }

  ghost predicate ProducerMoves(s: State, s': State, p: nat) {
    0 < s.size && p < |s.prods| && s' == ProducerStep(s, p)
  }

  ghost predicate Next(s: State, s': State) {
    || (exists p: nat, line: Line :: PushStarts(s, s', p, line))
    || (exists p: nat :: ProducerMoves(s, s', p))
    || (0 < s.size && s' == ReaderStep(s))
  }

  ghost predicate Follows(e: seq<State>, i: nat) {
    i + 1 < |e| && Next(e[i], e[i + 1])
  }

  ghost predicate Run(e: seq<State>) {
    && 0 < |e|
    && Init(e[0])
    && forall i {:trigger Follows(e, i)} :: 0 <= i < |e| - 1 ==> Follows(e, i)
  }

  // ---------------------------------------------------------------- invariant

  predicate HasTicket(pc: Producer) {
    pc.Ticketed? || pc.Holding? || pc.Stored?
  }

  predicate HasLock(pc: Producer) {
    pc.Holding? || pc.Stored? || pc.Marked?
  }

  ghost predicate Shape(s: State) {
    && 0 < s.size == |s.cells|
    && |s.fates| == |s.tickets|
    && |s.output| == |s.popped|
    && (forall k :: 0 <= k < |s.tickets| ==> s.tickets[k].cell < s.size)
  }

  /** The 32-bit counters, and how a ticket leads to its slot. */
  ghost predicate Counters(s: State)
    requires 0 < s.size
  {
    && s.writeIndex == |s.tickets| % Arithmetic.WORD
    && (s.reader.Taken? ==> s.popped != [])
    && s.readIndex == (|s.popped| - if s.reader.Taken? then 1 else 0) % Arithmetic.WORD
    && (s.reader.Locked? ==> s.reader.cell == s.readIndex % s.size)
    && forall k :: 0 <= k < |s.tickets| ==> s.tickets[k].cell == SlotOf(k, s.size)
  }

  ghost predicate ProducerOk(s: State, p: nat)
    requires Shape(s) && p < |s.prods|
  {
    var pc := s.prods[p];
    && (HasTicket(pc) ==>
          && pc.ticket < |s.tickets|
          && s.tickets[pc.ticket].pid == p
          && s.fates[pc.ticket] == InFlight
          && pc.cell == s.tickets[pc.ticket].cell
          && (!pc.Stored? ==> pc.line == s.tickets[pc.ticket].line))
    && (HasLock(pc) ==> pc.cell < s.size && s.cells[pc.cell].lock == Some(ByProducer(p)))
    && (pc.Stored? ==> s.cells[pc.cell].content == None && s.cells[pc.cell].line == s.tickets[pc.ticket].line)
    && (pc.Marked? ==> s.cells[pc.cell].content.Some?)
  }

  ghost predicate CellOk(s: State, c: nat)
    requires Shape(s) && c < s.size
  {
    var cell := s.cells[c];
    && (cell.content.Some? ==>
          && cell.content.value < |s.tickets|
          && s.tickets[cell.content.value].cell == c
          && s.fates[cell.content.value] == Resident
          && cell.line == s.tickets[cell.content.value].line
          && cell.written)
    && (cell.written && cell.content == None ==>
          || s.reader == Taken(c)
          || (cell.lock.Some? && cell.lock.value.ByProducer? && cell.lock.value.pid < |s.prods|
              && s.prods[cell.lock.value.pid].Stored? && s.prods[cell.lock.value.pid].cell == c))
  }

  ghost predicate TicketOk(s: State, k: nat)
    requires Shape(s) && k < |s.tickets|
  {
    match s.fates[k]
    case InFlight =>
      var p := s.tickets[k].pid;
      p < |s.prods| && HasTicket(s.prods[p]) && s.prods[p].ticket == k
    case Resident => s.cells[s.tickets[k].cell].content == Some(k)
    case Popped => k in s.popped
    case Lost => k in s.lost
  }

  ghost predicate ReaderOk(s: State)
    requires Shape(s)
  {
    && (!s.reader.AtCall? ==> s.reader.cell < s.size && s.cells[s.reader.cell].lock == Some(ByReader))
    && (s.reader.Taken? ==> s.cells[s.reader.cell].content == None)
  }

  ghost predicate Threads(s: State)
    requires Shape(s)
  {
    && (forall p {:trigger ProducerOk(s, p)} :: 0 <= p < |s.prods| ==> ProducerOk(s, p))
    && ReaderOk(s)
  }

  ghost predicate Cells(s: State)
    requires Shape(s)
  {
    forall c {:trigger CellOk(s, c)} :: 0 <= c < s.size ==> CellOk(s, c)
  }

  ghost predicate Fates(s: State)
    requires Shape(s)
  {
    && (forall k {:trigger TicketOk(s, k)} :: 0 <= k < |s.tickets| ==> TicketOk(s, k))
    && (forall i :: 0 <= i < |s.popped| ==>
          s.popped[i] < |s.tickets| && s.fates[s.popped[i]] == Popped && s.output[i] == s.tickets[s.popped[i]].line)
    && (forall i :: 0 <= i < |s.lost| ==> s.lost[i] < |s.tickets| && s.fates[s.lost[i]] == Lost)
    && (forall i, j :: 0 <= i < j < |s.popped| ==> s.popped[i] != s.popped[j])
    && (forall i, j :: 0 <= i < j < |s.lost| ==> s.lost[i] != s.lost[j])
  }

  /** Producer p's tickets, in the order in which it took them. */
  function TicketsOf(es: seq<Entry>, p: nat): (ts: seq<nat>)
    ensures forall i :: 0 <= i < |ts| ==> ts[i] < |es| && es[ts[i]].pid == p
    ensures forall i, j :: 0 <= i < j < |ts| ==> ts[i] < ts[j]
  {
    if es == [] then []
    else
      var n := |es| - 1;
      if es[n].pid == p then TicketsOf(es[..n], p) + [n] else TicketsOf(es[..n], p)
  }

  /** The lines producer p passed to push are those of its tickets, in order, and the one that is
      still without; the ticket it works on is its last. */
  predicate PushesOk(s: State, p: nat)
    requires p < |s.prods| && p < |s.sent|
  {
    PushesMatch(TicketsOf(s.tickets, p), s.tickets, s.sent[p], s.prods[p])
  }

  predicate PushesMatch(ts: seq<nat>, es: seq<Entry>, sent: seq<Line>, pc: Producer) {
    && |sent| == |ts| + (if pc.Ready? then 1 else 0)
    && (forall i :: 0 <= i < |ts| ==> ts[i] < |es| && sent[i] == es[ts[i]].line)
    && (pc.Ready? ==> sent[|ts|] == pc.line)
    && (HasTicket(pc) ==> ts != [] && pc.ticket == ts[|ts| - 1])
  }

  /** Every ticket is some producer's, and every producer's pushes are accounted for. */
  ghost predicate History(s: State) {
    && |s.sent| == |s.prods|
    && (forall k :: 0 <= k < |s.tickets| ==> s.tickets[k].pid < |s.prods|)
    && (forall p {:trigger PushesOk(s, p)} :: 0 <= p < |s.prods| ==> PushesOk(s, p))
  }

  ghost predicate Inv(s: State) {
    Shape(s) && Threads(s) && Cells(s) && Fates(s) && Counters(s) && History(s)
  }

  // ---------------------------------------------------------------- preservation

  lemma InitInv(s: State)
    requires Init(s)
    ensures Inv(s)
  {
  }

  lemma StartKeeps(s: State, p: nat, line: Line)
    requires Inv(s) && p < |s.prods| && s.prods[p] == Idle
    ensures Inv(StartPush(s, p, line))
  {
    var s' := StartPush(s, p, line);
    StartHistory(s, p, line);
    forall q | 0 <= q < |s'.prods| ensures ProducerOk(s', q) {
      assert ProducerOk(s, q);
    }
    forall c | 0 <= c < s'.size ensures CellOk(s', c) {
      assert CellOk(s, c);
    }
    forall k | 0 <= k < |s'.tickets| ensures TicketOk(s', k) {
      assert TicketOk(s, k);
    }
  }

  lemma StartHistory(s: State, p: nat, line: Line)
    requires History(s) && p < |s.prods| && s.prods[p] == Idle
    ensures History(StartPush(s, p, line))
  {
    var s' := StartPush(s, p, line);
    forall q | 0 <= q < |s'.prods| ensures PushesOk(s', q) {
      assert PushesOk(s, q);
    }
  }

  lemma TicketsOfSnoc(es: seq<Entry>, e: Entry, q: nat)
    ensures TicketsOf(es + [e], q) == if e.pid == q then TicketsOf(es, q) + [|es|] else TicketsOf(es, q)
  {
    assert (es + [e])[..|es|] == es;
  }

  lemma TicketHistory(s: State, p: nat, line: Line)
    requires 0 < s.size && History(s) && p < |s.prods| && s.prods[p] == Ready(line)
    ensures History(TakeTicket(s, p, line))
  {
    var s' := TakeTicket(s, p, line);
    var e := s'.tickets[|s.tickets|];
    forall q | 0 <= q < |s'.prods| ensures PushesOk(s', q) {
      assert PushesOk(s, q);
      TicketsOfSnoc(s.tickets, e, q);
      if q == p {
        OwnTicket(TicketsOf(s.tickets, p), s.tickets, e, s.sent[p], s.prods[p], s'.prods[p]);
      } else {
        OthersTicket(TicketsOf(s.tickets, q), s.tickets, e, s.sent[q], s.prods[q]);
      }
    }
  }

  lemma OwnTicket(ts: seq<nat>, es: seq<Entry>, e: Entry, sent: seq<Line>, pc: Producer, pc': Producer)
    requires PushesMatch(ts, es, sent, pc) && pc == Ready(e.line)
    requires !pc'.Ready? && HasTicket(pc') && pc'.ticket == |es|
    ensures PushesMatch(ts + [|es|], es + [e], sent, pc')
  {
  }

  lemma OthersTicket(ts: seq<nat>, es: seq<Entry>, e: Entry, sent: seq<Line>, pc: Producer)
    requires PushesMatch(ts, es, sent, pc)
    ensures PushesMatch(ts, es + [e], sent, pc)
  {
  }

  /** A step that leaves tickets and pushes alone, after which a producer may have dropped its ticket. */
  lemma HistoryUntouched(s: State, s': State)
    requires History(s) && s'.sent == s.sent && s'.tickets == s.tickets && |s'.prods| == |s.prods|
    requires forall q :: 0 <= q < |s.prods| ==> NoNewTicket(s.prods[q], s'.prods[q])
    ensures History(s')
  {
    forall q | 0 <= q < |s'.prods| ensures PushesOk(s', q) {
      assert PushesOk(s, q);
    }
  }

  predicate NoNewTicket(pc: Producer, pc': Producer) {
    pc' == pc || (!pc.Ready? && !pc'.Ready? && (HasTicket(pc') ==> HasTicket(pc) && pc'.ticket == pc.ticket))
  }

  lemma ProducerHistory(s: State, p: nat)
    requires 0 < s.size && History(s) && p < |s.prods|
    ensures History(ProducerStep(s, p))
  {
    if s.prods[p].Ready? {
      TicketHistory(s, p, s.prods[p].line);
    } else {
      OtherSteps(s, p);
      HistoryUntouched(s, ProducerStep(s, p));
    }
  }

  lemma OtherSteps(s: State, p: nat)
    requires 0 < s.size && p < |s.prods| && !s.prods[p].Ready?
    ensures var s' := ProducerStep(s, p);
      && s'.sent == s.sent && s'.tickets == s.tickets && |s'.prods| == |s.prods|
      && forall q :: 0 <= q < |s.prods| ==> NoNewTicket(s.prods[q], s'.prods[q])
  {
  }

  lemma ReaderHistory(s: State)
    requires 0 < s.size && History(s)
    ensures History(ReaderStep(s))
  {
    ReaderAlone(s);
    HistoryUntouched(s, ReaderStep(s));
  }

  lemma ReaderAlone(s: State)
    requires 0 < s.size
    ensures var s' := ReaderStep(s); s'.sent == s.sent && s'.tickets == s.tickets && s'.prods == s.prods
  {
  }

  ghost predicate Core(s: State) {
    Shape(s) && Threads(s) && Cells(s) && Fates(s)
  }

  lemma TicketThreads(s: State, p: nat, line: Line)
    requires Core(s) && p < |s.prods| && s.prods[p] == Ready(line)
    ensures Shape(TakeTicket(s, p, line)) && Threads(TakeTicket(s, p, line))
  {
    var s' := TakeTicket(s, p, line);
    assert Shape(s');
    forall q | 0 <= q < |s'.prods| ensures ProducerOk(s', q) {
      assert ProducerOk(s, q);
    }
  }

  lemma StoreThreads(s: State, p: nat)
    requires Core(s) && p < |s.prods| && s.prods[p].Holding?
    ensures Shape(ProducerStep(s, p)) && Threads(ProducerStep(s, p))
  {
    var s' := Store(s, p, s.prods[p].line, s.prods[p].ticket, s.prods[p].cell);
    assert ProducerOk(s, p);
    assert CellOk(s, s.prods[p].cell);
    assert Shape(s');
    forall q | 0 <= q < |s'.prods| ensures ProducerOk(s', q) {
      assert ProducerOk(s, q);
    }
  }

  /** Acquiring the lock, setting `written`, releasing the lock. */
  lemma LockThreads(s: State, p: nat)
    requires Core(s) && p < |s.prods| && (s.prods[p].Ticketed? || s.prods[p].Stored? || s.prods[p].Marked?)
    ensures Shape(ProducerStep(s, p)) && Threads(ProducerStep(s, p))
  {
    var s' := ProducerStep(s, p);
    assert ProducerOk(s, p);
    assert Shape(s');
    forall q | 0 <= q < |s'.prods| ensures ProducerOk(s', q) {
      assert ProducerOk(s, q);
    }
  }

  lemma ProducerThreads(s: State, p: nat)
    requires Core(s) && p < |s.prods|
    ensures Shape(ProducerStep(s, p)) && Threads(ProducerStep(s, p))
  {
    match s.prods[p]
    case Idle =>
    case Ready(line) => TicketThreads(s, p, line);
    case Holding(_, _, _) => StoreThreads(s, p);
    case _ => LockThreads(s, p);
  }

  lemma ProducerCells(s: State, p: nat)
    requires Core(s) && p < |s.prods|
    requires Shape(ProducerStep(s, p))
    ensures Cells(ProducerStep(s, p))
  {
    var s' := ProducerStep(s, p);
    assert ProducerOk(s, p);
    forall c | 0 <= c < s'.size ensures CellOk(s', c) {
      ProducerCell(s, p, c);
    }
  }

  lemma ProducerCell(s: State, p: nat, c: nat)
    requires Core(s) && p < |s.prods| && ProducerOk(s, p) && c < s.size
    requires Shape(ProducerStep(s, p))
    ensures c < ProducerStep(s, p).size && CellOk(ProducerStep(s, p), c)
  {
    assert CellOk(s, c);
    if s.prods[p].Holding? {
      StoreCell(s, p, c);
    }
  }

  lemma StoreCell(s: State, p: nat, c: nat)
    requires Core(s) && p < |s.prods| && s.prods[p].Holding? && ProducerOk(s, p) && c < s.size && CellOk(s, c)
    requires Shape(ProducerStep(s, p))
    ensures c < ProducerStep(s, p).size && CellOk(ProducerStep(s, p), c)
  {
    assert CellOk(s, s.prods[p].cell);
  }

  lemma StoreFates(s: State, p: nat)
    requires Core(s) && p < |s.prods| && s.prods[p].Holding?
    requires Shape(ProducerStep(s, p))
    ensures Fates(ProducerStep(s, p))
  {
    var s' := Store(s, p, s.prods[p].line, s.prods[p].ticket, s.prods[p].cell);
    assert ProducerOk(s, p);
    assert CellOk(s, s.prods[p].cell);
    forall k | 0 <= k < |s'.tickets| ensures TicketOk(s', k) {
      assert TicketOk(s, k);
    }
  }

  lemma OtherFates(s: State, p: nat)
    requires Core(s) && p < |s.prods| && !s.prods[p].Holding?
    requires Shape(ProducerStep(s, p))
    ensures Fates(ProducerStep(s, p))
  {
    var s' := ProducerStep(s, p);
    assert ProducerOk(s, p);
    forall k | 0 <= k < |s'.tickets| ensures TicketOk(s', k) {
      if k < |s.tickets| {
        assert TicketOk(s, k);
      }
    }
  }

  lemma ProducerFates(s: State, p: nat)
    requires Core(s) && p < |s.prods|
    requires Shape(ProducerStep(s, p))
    ensures Fates(ProducerStep(s, p))
  {
    if s.prods[p].Holding? {
      StoreFates(s, p);
    } else {
      OtherFates(s, p);
    }
  }

  lemma ProducerCounters(s: State, p: nat)
    requires 0 < s.size && Counters(s) && p < |s.prods|
    ensures Counters(ProducerStep(s, p))
  {
    assert |s.tickets| % Arithmetic.WORD == s.writeIndex;
  }

  lemma ReaderThreads(s: State)
    requires Core(s)
    ensures Shape(ReaderStep(s)) && Threads(ReaderStep(s))
  {
    var s' := ReaderStep(s);
    if !s.reader.AtCall? {
      assert CellOk(s, s.reader.cell);
    }
    assert Shape(s');
    forall q | 0 <= q < |s'.prods| ensures ProducerOk(s', q) {
      assert ProducerOk(s, q);
    }
  }

  lemma ReaderCells(s: State)
    requires Core(s)
    requires Shape(ReaderStep(s))
    ensures Cells(ReaderStep(s))
  {
    var s' := ReaderStep(s);
    if !s.reader.AtCall? {
      assert CellOk(s, s.reader.cell);
    }
    forall c | 0 <= c < s'.size ensures CellOk(s', c) {
      assert CellOk(s, c);
    }
  }

  lemma ReaderFates(s: State)
    requires Core(s)
    requires Shape(ReaderStep(s))
    ensures Fates(ReaderStep(s))
  {
    var s' := ReaderStep(s);
    if !s.reader.AtCall? {
      assert CellOk(s, s.reader.cell);
    }
    forall k | 0 <= k < |s'.tickets| ensures TicketOk(s', k) {
      assert TicketOk(s, k);
    }
  }

  lemma WrittenHasContent(s: State)
    requires Core(s) && s.reader.Locked? && CellAt(s, s.reader.cell).written
    ensures CellAt(s, s.reader.cell).content.Some?
  {
    assert CellOk(s, s.reader.cell);
  }

  lemma CountersStep(s: State)
    requires 0 < s.size && Counters(s)
    requires s.reader.Locked? && CellAt(s, s.reader.cell).written ==> CellAt(s, s.reader.cell).content.Some?
    ensures Counters(ReaderStep(s))
  {
    if s.reader.Taken? {
      NextModulo(|s.popped| - 1);
    }
  }

  lemma NextModulo(n: nat)
    ensures (n % Arithmetic.WORD + 1) % Arithmetic.WORD == (n + 1) % Arithmetic.WORD
  {
  }

  lemma ReaderCounters(s: State)
    requires Core(s) && Counters(s)
    ensures Counters(ReaderStep(s))
  {
    if s.reader.Locked? && CellAt(s, s.reader.cell).written {
      WrittenHasContent(s);
    }
    CountersStep(s);
  }

  lemma NextKeeps(s: State, s': State)
    requires Inv(s) && Next(s, s')
    ensures Inv(s')
  {
    if p: nat, line: Line :| PushStarts(s, s', p, line) {
      StartKeeps(s, p, line);
    } else if p: nat :| ProducerMoves(s, s', p) {
      ProducerThreads(s, p);
      ProducerCells(s, p);
      ProducerFates(s, p);
      ProducerCounters(s, p);
      ProducerHistory(s, p);
    } else {
      ReaderHistory(s);
      ReaderThreads(s);
      ReaderCells(s);
      ReaderFates(s);
      ReaderCounters(s);
    }
  }

  lemma {:induction false} RunKeeps(e: seq<State>, i: nat)
    requires Run(e) && i < |e|
    ensures Inv(e[i])
  {
    if i == 0 {
      InitInv(e[0]);
    } else {
      RunKeeps(e, i - 1);
      assert Follows(e, i - 1);
      NextKeeps(e[i - 1], e[i]);
    }
  }
}
