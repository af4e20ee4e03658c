/** The guaranteed logger's queue: any number of producers, one consumer, lock-free pushes.

    The protocol is a transition system.  Every thread has a program counter, and one step of a
    thread performs exactly one shared-memory access of the source (atomics are sequentially
    consistent).  `ProducerStep` and `ReaderStep` are total: a busy-wait that fails leaves the
    state as it is, and an access outside the buffers is ignored; the invariant shows that the
    latter never happens.  Buffers keep their identity (an index into `bufs`) after the consumer
    has retired them, so a late fill-count update still has something to act on. */
module QueueBuffer {
  import Arithmetic
  import opened Sequences
  import opened Logger

  /** A slot of a buffer: unconstructed storage, a log line, or a moved-from log line. */
  datatype Slot = Raw | Built(line: Line) | Moved

  /** `counted` is a history variable: the slots whose producer has bumped `count`. */
  datatype Buffer = Buffer(slots: seq<Slot>, flags: seq<bool>, count: nat, counted: set<nat>)

  /** One line that obtained a ticket: who pushed it and what it says. */
  datatype Entry = Entry(pid: nat, line: Line)

  datatype Producer =
    | Idle
    | Ready(line: Line)                            // before the ticket is taken
    | Spinning(line: Line)                         // ticket was too large, waiting for a reset
    | Ticket(line: Line, ticket: nat)              // before the current buffer is loaded
    | Loaded(line: Line, ticket: nat, buf: nat)    // before the item is constructed
    | Stored(ticket: nat, buf: nat)                // before the flag is set
    | Flagged(ticket: nat, buf: nat)               // before the fill count is bumped
    | Sealing                                      // saw the count reach the size
    | Swapped                                      // stored the new current buffer
    | Locked                                       // holds the spin lock
    | Enqueued                                     // appended the new buffer to the queue
    | Reset                                        // zeroed the ticket counter, lock still held

  datatype Reader =
    | AtCall          // between two calls of try_pop
    | WantFront       // waiting for the lock to look up the next buffer
    | AtFront         // holds the lock, before reading the front
    | FrontRead       // holds the lock, after reading the front
    | AtTest          // before loading the flag
    | AtTake          // the flag was set, before moving the line out
    | WantRetire      // finished a buffer, waiting for the lock
    | AtRetire        // holds the lock, before removing the buffer
    | Retired         // holds the lock, after removing the buffer

  /** The fields from `logs` on are history variables: they record what happened and no step
      looks at them. */
  datatype State = State(
    size: nat,
    bufs: seq<Buffer>,
    current: nat,
    queue: seq<nat>,
    writeIndex: nat,
    lock: Option<Owner>,
    prods: seq<Producer>,
    reader: Reader,
    readBuf: Option<nat>,
    readIndex: nat,
    logs: seq<seq<Entry>>,      // tickets granted, by generation and ticket
    popped: seq<Line>,          // lines handed to the log writer
    readGen: nat,               // buffers read to the end
    sent: seq<seq<Line>>,       // lines passed to push, by producer
    over: set<nat>,             // producers whose ticket was too large since the last reset
    sealer: Option<nat>)        // the producer that saw the count reach the size

  // ---------------------------------------------------------------- steps

  function NewBuffer(size: nat): Buffer {
    Buffer(seq(size, _ => Raw), seq(size, _ => false), 0, {})
  }

  /** The state left by the constructor. */
  function InitialState(size: nat, producers: nat): State {
    State(size, [NewBuffer(size)], 0, [0], 0, None,
          seq(producers, _ => Idle), AtCall, None, 0,
          [[]], [], 0, seq(producers, _ => []), {}, None)
  }

  ghost predicate Init(s: State) {
    && 0 < s.size
    && s.size + |s.prods| < Arithmetic.WORD
    && s == InitialState(s.size, |s.prods|)
  }

  function SetSlot(bufs: seq<Buffer>, b: nat, t: nat, slot: Slot): seq<Buffer> {
    if b < |bufs| && t < |bufs[b].slots| then bufs[b := bufs[b].(slots := bufs[b].slots[t := slot])] else bufs
  }

  function SetFlag(bufs: seq<Buffer>, b: nat, t: nat): seq<Buffer> {
    if b < |bufs| && t < |bufs[b].flags| then bufs[b := bufs[b].(flags := bufs[b].flags[t := true])] else bufs
  }

  function BumpCount(bufs: seq<Buffer>, b: nat, t: nat): seq<Buffer> {
    if b < |bufs| then
      bufs[b := bufs[b].(count := (bufs[b].count + 1) % Arithmetic.WORD, counted := bufs[b].counted + {t})]
    else
      bufs
  }

  function CountOf(bufs: seq<Buffer>, b: nat): nat {
    if b < |bufs| then bufs[b].count else 0
  }

  function AddToLast<T>(logs: seq<seq<T>>, e: T): seq<seq<T>> {
    if logs == [] then [[e]] else logs[|logs| - 1 := logs[|logs| - 1] + [e]]
  }

  function At(s: State, p: nat, pc: Producer): State
    requires p < |s.prods|
  {
    s.(prods := s.prods[p := pc])
  }

  /** A producer calls push with a line. */
  function StartPush(s: State, p: nat, line: Line): State
    requires p < |s.prods| && p < |s.sent|
  {
    At(s, p, Ready(line)).(sent := s.sent[p := s.sent[p] + [line]])
  }

  /** fetch_add on the ticket counter returned a slot of the current buffer. */
  function Grant(s: State, p: nat, line: Line): State
    requires p < |s.prods|
  {
    At(s, p, Ticket(line, s.writeIndex)).(writeIndex := (s.writeIndex + 1) % Arithmetic.WORD,
                                          logs := AddToLast(s.logs, Entry(p, line)))
  }

  /** fetch_add on the ticket counter returned a number past the buffer's end. */
  function TurnAway(s: State, p: nat, line: Line): State
    requires p < |s.prods|
  {
    At(s, p, Spinning(line)).(writeIndex := (s.writeIndex + 1) % Arithmetic.WORD, over := s.over + {p})
  }

  /** fetch_add on the fill count; the producer that completes the buffer goes on to replace it. */
  function Bump(s: State, p: nat, t: nat, b: nat): State
    requires p < |s.prods|
  {
    if CountOf(s.bufs, b) + 1 == s.size then
      At(s, p, Sealing).(bufs := BumpCount(s.bufs, b, t), sealer := Some(p))
    else
      At(s, p, Idle).(bufs := BumpCount(s.bufs, b, t))
  }

  /** Placement-construct the item in its slot. */
  function Construct(s: State, p: nat, line: Line, t: nat, b: nat): State
    requires p < |s.prods|
  {
    At(s, p, Stored(t, b)).(bufs := SetSlot(s.bufs, b, t, Built(line)))
  }

  /** Store 1 into the slot's write state. */
  function Raise(s: State, p: nat, t: nat, b: nat): State
    requires p < |s.prods|
  {
    At(s, p, Flagged(t, b)).(bufs := SetFlag(s.bufs, b, t))
  }

  function ProducerStep(s: State, p: nat): State
    requires p < |s.prods|
  {
    match s.prods[p]
    case Idle => s
    case Ready(line) => if s.writeIndex < s.size then Grant(s, p, line) else TurnAway(s, p, line)
    case Spinning(line) => if s.writeIndex >= s.size then s else At(s, p, Ready(line))
    case Ticket(line, t) => At(s, p, Loaded(line, t, s.current))
    case Loaded(line, t, b) => Construct(s, p, line, t, b)
    case Stored(t, b) => Raise(s, p, t, b)
    case Flagged(t, b) => Bump(s, p, t, b)
    case Sealing => At(s, p, Swapped).(bufs := s.bufs + [NewBuffer(s.size)], current := |s.bufs|)
    case Swapped => if s.lock != None then s else At(s, p, Locked).(lock := Some(ByProducer(p)))
    case Locked => At(s, p, Enqueued).(queue := s.queue + [s.current])
    case Enqueued => At(s, p, Reset).(writeIndex := 0, logs := s.logs + [[]], over := {}, sealer := None)
    case Reset => At(s, p, Idle).(lock := None)
  }

  predicate FlagAt(s: State, b: nat, i: nat) {
    b < |s.bufs| && i < |s.bufs[b].flags| && s.bufs[b].flags[i]
  }

  /** Moving a line out of a slot that holds none yields the empty line; the invariant excludes it. */
  function LineAt(s: State, b: nat, i: nat): Line {
    if b < |s.bufs| && i < |s.bufs[b].slots| && s.bufs[b].slots[i].Built? then s.bufs[b].slots[i].line else ""
  }

  /** The successful end of try_pop: move the line out and advance the read position. */
  function Take(s: State, b: nat): State {
    var s1 := s.(bufs := SetSlot(s.bufs, b, s.readIndex, Moved), popped := s.popped + [LineAt(s, b, s.readIndex)]);
    if s.readIndex + 1 == s.size then
      s1.(readIndex := 0, readBuf := None, readGen := s.readGen + 1, reader := WantRetire)
    else
      s1.(readIndex := s.readIndex + 1, reader := AtCall)
  }

  function ReaderStep(s: State): State {
    match s.reader
    case AtCall => s.(reader := if s.readBuf == None then WantFront else AtTest)
    case WantFront => if s.lock != None then s else s.(reader := AtFront, lock := Some(ByReader))
    case AtFront => s.(reader := FrontRead, readBuf := if s.queue == [] then None else Some(s.queue[0]))
    case FrontRead => s.(lock := None, reader := if s.readBuf == None then AtCall else AtTest)
    case AtTest =>
      (match s.readBuf
       case None => s.(reader := AtCall)
       case Some(b) => s.(reader := if FlagAt(s, b, s.readIndex) then AtTake else AtCall))
    case AtTake =>
      (match s.readBuf
       case None => s.(reader := AtCall)
       case Some(b) => Take(s, b))
    case WantRetire => if s.lock != None then s else s.(reader := AtRetire, lock := Some(ByReader))
    case AtRetire => s.(reader := Retired, queue := if s.queue == [] then [] else s.queue[1..])
    case Retired => s.(reader := AtCall, lock := None)
  }

  ghost predicate PushStarts(s: State, s': State, p: nat, line: Line) {
    p < |s.prods| && p < |s.sent| && s.prods[p] == Idle && s' == StartPush(s, p, line)
  }

  ghost predicate ProducerMoves(s: State, s': State, p: nat) {
    p < |s.prods| && s' == ProducerStep(s, p)
  }

  ghost predicate Next(s: State, s': State) {
    || (exists p: nat, line: Line :: PushStarts(s, s', p, line))
    || (exists p: nat :: ProducerMoves(s, s', p))
    || s' == ReaderStep(s)
  }

  ghost predicate Follows(e: seq<State>, i: nat) {
    i + 1 < |e| && Next(e[i], e[i + 1])
  }

  /** Every finite interleaving. */
  ghost predicate Run(e: seq<State>) {
    && 0 < |e|
    && Init(e[0])
    && forall i {:trigger Follows(e, i)} :: 0 <= i < |e| - 1 ==> Follows(e, i)
  }

  // ---------------------------------------------------------------- invariant

  function Lines(es: seq<Entry>): (ls: seq<Line>)
    ensures |ls| == |es|
    ensures forall i :: 0 <= i < |es| ==> ls[i] == es[i].line
  {
    seq(|es|, i requires 0 <= i < |es| => es[i].line)
  }

  /** The lines of one producer, in order. */
  function OfProducer(es: seq<Entry>, p: nat): seq<Line> {
    if es == [] then []
    else
      var front := OfProducer(es[..|es| - 1], p);
      if es[|es| - 1].pid == p then front + [es[|es| - 1].line] else front
  }

  /** All lines with a ticket, ordered by generation and then ticket. */
  function Order(s: State): seq<Entry> {
    Flatten(s.logs)
  }

  predicate Holds(pc: Producer) {
    pc.Ticket? || pc.Loaded? || pc.Stored? || pc.Flagged?
  }

  predicate Replacing(pc: Producer) {
    pc.Sealing? || pc.Swapped? || pc.Locked? || pc.Enqueued?
  }

  function Untold(pc: Producer): seq<Line> {
    if pc.Ready? || pc.Spinning? then [pc.line] else []
  }

  predicate Owns(pc: Producer) {
    pc.Locked? || pc.Enqueued? || pc.Reset?
  }

  predicate ReaderOwns(r: Reader) {
    r.AtFront? || r.FrontRead? || r.AtRetire? || r.Retired?
  }

  /** The sealer's progress: has it published a new buffer, has it queued it? */
  predicate Published(s: State) {
    s.sealer.Some? && s.sealer.value < |s.prods| && !s.prods[s.sealer.value].Sealing?
  }

  predicate QueuedNew(s: State) {
    Published(s) && s.prods[s.sealer.value].Enqueued?
  }

  ghost predicate Shape(s: State) {
    && 0 < s.size && s.size + |s.prods| < Arithmetic.WORD
    && |s.sent| == |s.prods|
    && 1 <= |s.logs|
    && |s.bufs| == |s.logs| + (if Published(s) then 1 else 0)
    && s.current == |s.bufs| - 1
    && (forall b {:trigger s.bufs[b]} :: 0 <= b < |s.bufs| ==> BufferOk(s.bufs[b], b, s.size, |s.logs|))
    && (forall g :: 0 <= g < |s.logs| - 1 ==> |s.logs[g]| == s.size)
  }

  /** Buffer b, when tickets have been granted in `gens` generations. */
  ghost predicate BufferOk(buf: Buffer, b: nat, size: nat, gens: nat) {
    && |buf.slots| == size
    && |buf.flags| == size
    && buf.count == |buf.counted|
    && (forall t :: t in buf.counted ==> t < size)
    && (b + 1 < gens ==> forall t: nat :: t < size ==> t in buf.counted)
    && (b >= gens ==> buf.counted == {})
  }

  function Last(s: State): seq<Entry>
    requires s.logs != []
  {
    s.logs[|s.logs| - 1]
  }

  /** The ticket counter: tickets granted in this generation, then one per producer turned away. */
  ghost predicate Tickets(s: State)
    requires Shape(s)
  {
    && |Last(s)| <= s.size
    && s.writeIndex == |Last(s)| + |s.over|
    && (s.over != {} ==> |Last(s)| == s.size)
    && (forall p :: p in s.over ==> p < |s.prods| && s.prods[p].Spinning?)
  }

  ghost predicate HolderOk(s: State, p: nat)
    requires Shape(s) && p < |s.prods|
  {
    var pc := s.prods[p];
    Holds(pc) ==>
      && pc.ticket < |Last(s)|
      && Last(s)[pc.ticket].pid == p
      && pc.ticket !in s.bufs[|s.logs| - 1].counted
      && (pc.Ticket? || pc.buf == |s.logs| - 1)
      && (pc.Ticket? || pc.Loaded? ==> pc.line == Last(s)[pc.ticket].line)
  }

  ghost predicate Holders(s: State)
    requires Shape(s)
  {
    forall p {:trigger HolderOk(s, p)} :: 0 <= p < |s.prods| ==> HolderOk(s, p)
  }

  /** The buffer is full exactly while one producer is replacing it. */
  ghost predicate Sealed(s: State)
    requires Shape(s)
  {
    && (s.sealer.Some? <==> s.bufs[|s.logs| - 1].count == s.size)
    && (s.sealer.Some? ==> s.sealer.value < |s.prods|)
    && (forall p :: 0 <= p < |s.prods| ==> (Replacing(s.prods[p]) <==> s.sealer == Some(p)))
  }

  predicate WasRead(s: State, b: nat, i: nat) {
    b < s.readGen || (b == s.readGen && i < s.readIndex)
  }

  ghost predicate SlotOk(s: State, b: nat, i: nat)
    requires Shape(s) && b < |s.bufs| && i < s.size
  {
    var slot, flag := s.bufs[b].slots[i], s.bufs[b].flags[i];
    && (WasRead(s, b, i) ==> flag)
    && (i in s.bufs[b].counted ==> flag)
    && (b < |s.logs| && i < |s.logs[b]| ==>
          && (flag ==> slot == if WasRead(s, b, i) then Moved else Built(s.logs[b][i].line))
          && (i !in s.bufs[b].counted ==>
                var p := s.logs[b][i].pid;
                && p < |s.prods| && Holds(s.prods[p]) && s.prods[p].ticket == i
                && (flag <==> s.prods[p].Flagged?)
                && (s.prods[p].Stored? ==> slot == Built(s.logs[b][i].line))
                && (!flag && !s.prods[p].Stored? ==> slot == Raw)))
    && (b >= |s.logs| || i >= |s.logs[b]| ==> slot == Raw && !flag)
  }

  ghost predicate Slots(s: State)
    requires Shape(s)
  {
    forall b, i {:trigger SlotOk(s, b, i)} ::
      0 <= b < |s.bufs| && 0 <= i < s.size ==> SlotOk(s, b, i)
  }

  ghost predicate Locks(s: State) {
    && (forall p :: 0 <= p < |s.prods| ==> (Owns(s.prods[p]) <==> s.lock == Some(ByProducer(p))))
    && (ReaderOwns(s.reader) <==> s.lock == Some(ByReader))
    && (s.lock.Some? && s.lock.value.ByProducer? ==>
          s.lock.value.pid < |s.prods| && Owns(s.prods[s.lock.value.pid]))
  }

  predicate Retiring(s: State) {
    s.reader.WantRetire? || s.reader.AtRetire?
  }

  /** Oldest generation still in the queue, and the first one not yet in it. */
  function QueueLow(s: State): int {
    s.readGen - (if Retiring(s) then 1 else 0)
  }

  function QueueHigh(s: State): int {
    |s.bufs| - (if Published(s) && !QueuedNew(s) then 1 else 0)
  }

  ghost predicate Reading(s: State)
    requires Shape(s)
  {
    && 0 <= QueueLow(s) <= QueueHigh(s)
    && |s.queue| == QueueHigh(s) - QueueLow(s)
    && (forall i :: 0 <= i < |s.queue| ==> s.queue[i] == QueueLow(s) + i)
    && s.readGen <= |s.logs|
    && s.readIndex < s.size
    && (s.readGen == |s.logs| ==> s.readIndex == 0 && |Last(s)| == s.size)
    && (s.readGen < |s.logs| ==> s.readIndex <= |s.logs[s.readGen]|)
    && (s.readBuf.Some? ==> s.readBuf.value == s.readGen && s.readGen < QueueHigh(s) && !Retiring(s))
    && (s.readBuf == None ==> s.readIndex == 0)
    && (s.reader.WantFront? || s.reader.AtFront? || Retiring(s) || s.reader.Retired? ==> s.readBuf == None)
    && (s.reader.AtTest? || s.reader.AtTake? ==> s.readBuf.Some?)
    && (s.reader.AtTake? ==> FlagAt(s, s.readGen, s.readIndex))
    && (Retiring(s) ==> s.queue != [])
  }

  /** The tickets already consumed, in order. */
  function Consumed(s: State): seq<Entry>
    requires s.readGen <= |s.logs|
    requires s.readGen < |s.logs| ==> s.readIndex <= |s.logs[s.readGen]|
  {
    Flatten(s.logs[..s.readGen]) + if s.readGen < |s.logs| then s.logs[s.readGen][..s.readIndex] else []
  }

  /** Every ticket is one of the n producers'. */
  predicate AllPushed(es: seq<Entry>, n: nat) {
    forall k :: 0 <= k < |es| ==> es[k].pid < n
  }

  ghost predicate History(s: State)
    requires Shape(s) && Reading(s)
  {
    && s.popped == Lines(Consumed(s))
    && AllPushed(Order(s), |s.prods|)
    && (forall p :: 0 <= p < |s.prods| ==> s.sent[p] == OfProducer(Order(s), p) + Untold(s.prods[p]))
  }

  ghost predicate Core(s: State) {
    && Shape(s)
    && Tickets(s)
    && Holders(s)
    && Sealed(s)
    && Locks(s)
    && Reading(s)
  }

  ghost predicate Inv(s: State) {
    && Core(s)
    && Slots(s)
    && History(s)
  }
}
