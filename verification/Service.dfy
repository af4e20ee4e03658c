/** Whole runs of a server connection: any byte stream, cut up by the socket in any way, with errors
    in between and the workers taking read tasks at any moment. */
module Service {
  import opened Bits
  import opened Sequences
  import Codec
  import ObjectPool
  import Crc16
  import opened Protocol
  import opened Framing
  import opened Connection

  /** What happens next: a read brings between 1 and n bytes, as many as there are and were asked
      for; a read fails in passing or for good; a worker takes one of the waiting read tasks; the
      strand gets to a buffer that was posted to it because a frame was refused. */
  datatype Step = Read(n: nat) | Interrupted | Failure | Work(k: nat) | Strand

  function Reads(schedule: seq<Step>): nat {
    if schedule == [] then 0
    else Reads(schedule[..|schedule| - 1]) + if schedule[|schedule| - 1].Read? then 1 else 0
  }

  function Min(a: int, b: int): int {
    if a < b then a else b
  }

  /** The chunk a read brings. */
  function Chunk(rest: seq<byte>, wanted: nat, n: nat): (chunk: seq<byte>)
    requires 0 < wanted && rest != []
    ensures 1 <= |chunk| <= wanted && chunk <= rest
  {
    rest[..Min(|rest|, Min(wanted, n + 1))]
  }

  /** Every frame in the stream that passes the check can be decoded. */
  predicate AllDecodable(stream: seq<byte>) {
    var frames := Split(stream).frames;
    forall i :: 0 <= i < |frames| ==> Decodable(frames[i])
  }

  /** The log holds the outcomes of the frames that were dealt with, in the order in which they
      were. */
  predicate LogFits(frames: seq<seq<byte>>, order: seq<nat>, log: seq<Option<Message>>) {
    && |log| == |order|
    && forall i :: 0 <= i < |log| ==>
         order[i] < |frames| && Decodable(frames[order[i]]) && log[i] == Outcome(frames[order[i]])
  }

  lemma NextInStream(stream: seq<byte>, consumed: seq<byte>, chunk: seq<byte>)
    requires consumed <= stream && chunk <= stream[|consumed|..]
    ensures consumed + chunk <= stream
  {
  }

  /** A new connection with a pool of its own. */
  method Accept(poolSize: nat) returns (c: Connection)
    ensures fresh(c) && fresh(c.repr) && c.Valid() && c.open
    ensures c.consumed == [] && c.delivered == [] && c.handled == [] && c.refusals == []
  {
    var pool := new ObjectPool.ObjectPool(poolSize);
    assert fresh(set b | b in pool.freeList);
    c := new Connection(pool);
  }

  /** One step of the read chain.  A chain that has ended takes no more, and a read waits while there
      is nothing to read.  If the strand has closed the socket under the chain, a read that was complete
      by then still brings its bytes, and the chain ends with the next one. */
  method ReadStep(c: Connection, stream: seq<byte>, pos: nat, step: Step) returns (next: nat)
    requires c.Valid() && c.consumed <= stream && pos == |c.consumed| && !step.Work? && !step.Strand?
    modifies c.repr
    ensures c.Valid() && c.handled == old(c.handled) && c.refusals == old(c.refusals) && next == |c.consumed|
    ensures old(c.consumed) <= c.consumed <= stream
    ensures step.Read? && old(c.open) && pos < |stream| ==> pos < next
    ensures Split(old(c.consumed)).closed ==> c.consumed == old(c.consumed)
    ensures old(c.delivered) <= c.delivered
    ensures !old(c.open) ==> !c.reading
    ensures c.open <==> old(c.open) && !step.Failure? && !Split(c.consumed).closed
    ensures fresh(c.repr - old(c.repr))
  {
    next := pos;
    if c.reading {
      var down := !c.open;
      next := OneRead(c, stream, pos, step);
      if down && c.reading {
        c.HandleRead(Fatal);
      }
    }
    DeliveredInStream(old(c.consumed), c.consumed);
  }

  method OneRead(c: Connection, stream: seq<byte>, pos: nat, step: Step) returns (next: nat)
    requires c.Valid() && c.consumed <= stream && pos == |c.consumed| && !step.Work? && !step.Strand?
    requires c.reading
    modifies c.repr
    ensures c.Valid() && c.handled == old(c.handled) && c.refusals == old(c.refusals) && next == |c.consumed|
    ensures old(c.consumed) <= c.consumed <= stream
    ensures step.Read? && pos < |stream| ==> pos < next
    ensures c.reading <==> !step.Failure? && !Split(c.consumed).closed
    ensures c.open <==> old(c.open) && c.reading
    ensures fresh(c.repr - old(c.repr))
  {
    next := pos;
    match step {
      case Read(n) =>
        if pos < |stream| {
          SplitShape(c.consumed);
          var chunk := Chunk(stream[pos..], c.wanted, n);
          NextInStream(stream, c.consumed, chunk);
          c.HandleRead(Got(chunk));
          next := pos + |chunk|;
        }
      case Interrupted =>
        c.HandleRead(Retry);
      case Failure =>
        c.HandleRead(Fatal);
    }
  }

  /** The server's read handler on a worker, when there is a task: what is no message is refused. */
  method WorkStep(c: Connection, stream: seq<byte>, k: nat, log: seq<Option<Message>>)
    returns (longer: seq<Option<Message>>)
    requires c.Valid() && c.consumed <= stream && AllDecodable(stream)
    requires LogFits(c.delivered, c.handled, log)
    modifies c.repr
    ensures c.Valid() && c.consumed == old(c.consumed) && c.delivered == old(c.delivered) && c.open == old(c.open)
    ensures LogFits(c.delivered, c.handled, longer)
    ensures log <= longer && |longer| <= |log| + 1
    ensures |c.inbox| == if old(c.inbox) == [] then 0 else old(|c.inbox|) - 1
    ensures |c.refusals| == old(|c.refusals|) + if |log| < |longer| && longer[|log|].None? then 1 else 0
    ensures fresh(c.repr - old(c.repr))
  {
    longer := log;
    if |c.inbox| > 0 {
      var msg := TakeTask(c, stream, k % |c.inbox|, log);
      longer := log + [msg];
      Answer(c, msg);
    }
  }

  method Answer(c: Connection, msg: Option<Message>)
    requires c.Valid()
    modifies c.repr
    ensures c.Valid() && |c.refusals| == old(|c.refusals|) + if msg.None? then 1 else 0
    ensures c.consumed == old(c.consumed) && c.delivered == old(c.delivered) && c.open == old(c.open)
    ensures c.handled == old(c.handled) && c.inbox == old(c.inbox)
    ensures fresh(c.repr - old(c.repr))
  {
    if msg.None? {
      c.Refuse();
    }
  }

  method TakeTask(c: Connection, stream: seq<byte>, i: nat, ghost log: seq<Option<Message>>)
    returns (msg: Option<Message>)
    requires c.Valid() && c.consumed <= stream && AllDecodable(stream)
    requires LogFits(c.delivered, c.handled, log) && i < |c.inbox|
    modifies c.repr
    ensures c.Valid() && c.consumed == old(c.consumed) && c.delivered == old(c.delivered) && c.open == old(c.open)
    ensures LogFits(c.delivered, c.handled, log + [msg])
    ensures |c.inbox| == old(|c.inbox|) - 1 && c.refusals == old(c.refusals) && c.repr == old(c.repr)
  {
    ghost var frame := c.delivered[c.waiting[i]];
    DeliveredInStream(c.consumed, stream);
    assert frame == Split(stream).frames[c.waiting[i]];
    LogGrows(c.delivered, c.handled, c.waiting[i], log);
    var checked;
    msg, checked := c.HandleTask(i, frame);
  }

  lemma LogGrows(frames: seq<seq<byte>>, order: seq<nat>, next: nat, log: seq<Option<Message>>)
    requires LogFits(frames, order, log) && next < |frames| && Decodable(frames[next])
    ensures LogFits(frames, order + [next], log + [Outcome(frames[next])])
  {
  }

  lemma DeliveredInStream(consumed: seq<byte>, stream: seq<byte>)
    requires consumed <= stream
    ensures Split(consumed).frames <= Split(stream).frames
    ensures Split(consumed).closed || |consumed| == |stream| ==> Split(stream) == Split(consumed)
  {
    var more := stream[|consumed|..];
    SplitGrows(consumed, more);
    assert stream == consumed + more;
    assert |consumed| == |stream| ==> stream == consumed;
  }

  /** No read failed for good, and the strand did not close the connection over a refused frame. */
  predicate Undisturbed(done: seq<Step>, log: seq<Option<Message>>) {
    Failure !in done && (Strand !in done || None !in log)
  }

  /** The observable part of a connection's state. */
  datatype View = View(consumed: seq<byte>, delivered: seq<seq<byte>>, handled: seq<nat>, open: bool, refusals: nat)

  ghost function ViewOf(c: Connection): View
    reads c
  {
    View(c.consumed, c.delivered, c.handled, c.open, |c.refusals|)
  }

  /** How far a run has come after the steps in done. */
  predicate Coherent(v: View, stream: seq<byte>, done: seq<Step>, pos: nat, log: seq<Option<Message>>) {
    && v.consumed <= stream && pos == |v.consumed|
    && LogFits(v.delivered, v.handled, log)
    && (Undisturbed(done, log) ==> (v.open <==> !Split(v.consumed).closed))
    && (None in log ==> v.refusals > 0 || !v.open)
    && (v.refusals > 0 ==> None in log)
    && (Reads(done) <= pos || pos == |stream| || !v.open)
  }

  lemma CoherentRead(v: View, v': View, stream: seq<byte>, done: seq<Step>, step: Step, pos: nat,
                     log: seq<Option<Message>>)
    requires Coherent(v, stream, done, pos, log) && !step.Work? && !step.Strand?
    requires v.consumed <= v'.consumed <= stream && v.delivered <= v'.delivered
    requires v'.handled == v.handled && v'.refusals == v.refusals
    requires step.Read? && v.open && pos < |stream| ==> pos < |v'.consumed|
    requires Split(v.consumed).closed ==> v'.consumed == v.consumed
    requires v'.open <==> v.open && !step.Failure? && !Split(v'.consumed).closed
    ensures Coherent(v', stream, done + [step], |v'.consumed|, log)
  {
    assert (done + [step])[..|done|] == done;
    LogStays(v.delivered, v'.delivered, v.handled, log);
    if Undisturbed(done + [step], log) {
      assert Failure in done + [step] <==> Failure in done || step == Failure;
      assert Undisturbed(done, log);
    }
  }

  lemma CoherentWork(v: View, v': View, stream: seq<byte>, done: seq<Step>, step: Step, pos: nat,
                     log: seq<Option<Message>>, longer: seq<Option<Message>>)
    requires Coherent(v, stream, done, pos, log) && step.Work?
    requires v' == v.(handled := v'.handled, refusals := v'.refusals)
    requires LogFits(v'.delivered, v'.handled, longer) && log <= longer && |longer| <= |log| + 1
    requires v'.refusals == v.refusals + if |log| < |longer| && longer[|log|].None? then 1 else 0
    ensures Coherent(v', stream, done + [step], pos, longer)
  {
    assert (done + [step])[..|done|] == done;
    assert longer == log || longer == log + [longer[|log|]];
    if Undisturbed(done + [step], longer) {
      assert Undisturbed(done, log);
    }
  }

  lemma CoherentStrand(v: View, v': View, stream: seq<byte>, done: seq<Step>, step: Step, pos: nat,
                       log: seq<Option<Message>>)
    requires Coherent(v, stream, done, pos, log) && step.Strand?
    requires v' == if v.refusals == 0 then v else v.(open := false, refusals := v.refusals - 1)
    ensures Coherent(v', stream, done + [step], pos, log)
  {
    assert (done + [step])[..|done|] == done;
    if Undisturbed(done + [step], log) {
      assert (done + [step])[|done|] == Strand;
      assert Undisturbed(done, log);
    }
  }

  method Advance(c: Connection, stream: seq<byte>, ghost done: seq<Step>, step: Step,
                 pos: nat, log: seq<Option<Message>>)
    returns (next: nat, longer: seq<Option<Message>>)
    requires c.Valid() && Coherent(ViewOf(c), stream, done, pos, log)
    requires step.Work? ==> AllDecodable(stream)
    modifies c.repr
    ensures c.Valid() && Coherent(ViewOf(c), stream, done + [step], next, longer)
    ensures fresh(c.repr - old(c.repr))
  {
    ghost var v := ViewOf(c);
    next, longer := pos, log;
    if step.Work? {
      longer := WorkStep(c, stream, step.k, log);
      CoherentWork(v, ViewOf(c), stream, done, step, pos, log, longer);
    } else if step.Strand? {
      StrandStep(c);
      CoherentStrand(v, ViewOf(c), stream, done, step, pos, log);
    } else {
      next := ReadStep(c, stream, pos, step);
      CoherentRead(v, ViewOf(c), stream, done, step, pos, log);
    }
  }

  /** The strand gets to a refusal, if there is one. */
  method StrandStep(c: Connection)
    requires c.Valid()
    modifies c.repr
    ensures c.Valid() && c.repr == old(c.repr)
    ensures var v := old(ViewOf(c));
      ViewOf(c) == if v.refusals == 0 then v else v.(open := false, refusals := v.refusals - 1)
  {
    if |c.refusals| > 0 {
      c.CloseOnRefusal();
    }
  }

  lemma LogStays(frames: seq<seq<byte>>, more: seq<seq<byte>>, order: seq<nat>, log: seq<Option<Message>>)
    requires LogFits(frames, order, log) && frames <= more
    ensures LogFits(more, order, log)
  {
  }

  method AdvanceAll(c: Connection, stream: seq<byte>, schedule: seq<Step>)
    returns (pos: nat, log: seq<Option<Message>>)
    requires c.Valid() && Coherent(ViewOf(c), stream, [], 0, [])
    requires AllDecodable(stream) || forall i :: 0 <= i < |schedule| ==> !schedule[i].Work?
    modifies c.repr
    ensures c.Valid() && Coherent(ViewOf(c), stream, schedule, pos, log)
    ensures fresh(c.repr - old(c.repr))
  {
    log := [];
    pos := 0;
    var i := 0;
    while i < |schedule|
      invariant 0 <= i <= |schedule| && fresh(c.repr - old(c.repr))
      invariant c.Valid() && Coherent(ViewOf(c), stream, schedule[..i], pos, log)
    {
      Prefixes(schedule, i);
      pos, log := Advance(c, stream, schedule[..i], schedule[i], pos, log);
      i := i + 1;
    }
    Prefixes(schedule, i);
  }

  lemma Prefixes<T>(s: seq<T>, i: nat)
    ensures i < |s| ==> s[..i + 1] == s[..i] + [s[i]]
    ensures i == |s| ==> s[..i] == s
  {
  }

  /** A run.  Whatever the chunks and the errors, what is handed over are the first frames of the pure
      split; once the reads suffice for the stream, frames, leftover bytes and the point of closing
      are those of the split, so they are the same for every schedule.  Each frame handed over is
      dealt with once or still waits, and what the workers make of it does not depend on when they
      take it.  A frame that is no message closes the connection once the strand gets to it. */
  method Run(poolSize: nat, stream: seq<byte>, schedule: seq<Step>)
    returns (c: Connection, log: seq<Option<Message>>)
    requires AllDecodable(stream) || forall i :: 0 <= i < |schedule| ==> !schedule[i].Work?
    ensures fresh(c) && fresh(c.repr) && c.Valid() && c.consumed <= stream
    ensures c.delivered <= Split(stream).frames
    ensures LogFits(c.delivered, c.handled, log) && AllAccounted(c.handled, c.waiting, |c.delivered|)
    ensures Undisturbed(schedule, log) ==> (c.open <==> !Split(c.consumed).closed)
    ensures None in log ==> c.refusals != [] || !c.open
    ensures Undisturbed(schedule, log) && |stream| <= Reads(schedule) ==>
      Split(stream) == Feed(c.delivered, c.recv.Readable(), !c.open)
  {
    c := Accept(poolSize);
    var pos;
    pos, log := AdvanceAll(c, stream, schedule);
    DeliveredInStream(c.consumed, stream);
  }

  // ---------------------------------------------------------------- end to end

  datatype Request = Request(cmd: Codec.u32, fields: seq<Codec.Value>)

  function Body(r: Request): seq<byte> {
    Codec.EncodeAll(r.fields)
  }

  /** A request the server knows, with NUL-free strings, no longer than a package may be. */
  predicate Legal(r: Request) {
    && BodyKinds(r.cmd) == Some(Codec.KindsOf(r.fields)) && Codec.AllClean(r.fields)
    && HEAD_LEN + 2 + |Body(r)| <= MAX_PACKAGE
  }

  function Frame(r: Request): seq<byte>
    requires Legal(r)
  {
    RequestFrame(r.cmd, Body(r))
  }

  function Frames(requests: seq<Request>): (frames: seq<seq<byte>>)
    requires forall r :: r in requests ==> Legal(r)
    ensures |frames| == |requests|
    ensures forall i :: 0 <= i < |requests| ==> frames[i] == Frame(requests[i])
  {
    seq(|requests|, i requires 0 <= i < |requests| => Frame(requests[i]))
  }

  /** What the server should make of a request: length 8 + |body|, command and fields as sent, and
      the two check bytes not read. */
  function Understood(r: Request): Option<Message>
    requires Legal(r)
  {
    Some(Message(8 + |Body(r)|, r.cmd, r.fields, Codec.BE16(Crc16.CrcValue(Payload(r.cmd, Body(r))))))
  }

  /** A legal request's frame passes the check and says what was sent. */
  lemma RequestUnderstood(r: Request)
    requires Legal(r)
    ensures IsFrame(Frame(r)) && CheckValueMatches(Frame(r))
    ensures Decodable(Frame(r)) && Outcome(Frame(r)) == Understood(r)
  {
    RequestIsFrame(r.cmd, Body(r));
    RequestComesBack(r.cmd, r.fields);
    RequestPieces(r.cmd, Body(r));
    var check := Codec.BE16(Crc16.CrcValue(Payload(r.cmd, Body(r))));
    assert check + [] == check;
  }

  /** On the wire, legal requests are split into just their frames. */
  lemma RequestsSplit(requests: seq<Request>)
    requires forall r :: r in requests ==> Legal(r)
    ensures Split(Flatten(Frames(requests))) == Feed(Frames(requests), [], false)
    ensures AllDecodable(Flatten(Frames(requests)))
  {
    forall i | 0 <= i < |requests| ensures IsFrame(Frame(requests[i])) && Decodable(Frame(requests[i])) {
      RequestUnderstood(requests[i]);
    }
    SplitOfFrames(Frames(requests));
  }

  /** A log that fits the frames of requests lists these requests. */
  lemma LogUnderstood(requests: seq<Request>, frames: seq<seq<byte>>, order: seq<nat>, log: seq<Option<Message>>)
    requires forall r :: r in requests ==> Legal(r)
    requires frames <= Frames(requests) && LogFits(frames, order, log)
    ensures forall i :: 0 <= i < |log| ==> order[i] < |requests| && log[i] == Understood(requests[order[i]])
  {
    forall i | 0 <= i < |log| ensures order[i] < |requests| && log[i] == Understood(requests[order[i]]) {
      assert frames[order[i]] == Frames(requests)[order[i]];
      RequestUnderstood(requests[order[i]]);
    }
  }

  /** The workers take every task that is left. */
  method TakeAll(c: Connection, stream: seq<byte>, log: seq<Option<Message>>)
    returns (longer: seq<Option<Message>>)
    requires c.Valid() && c.consumed <= stream && AllDecodable(stream)
    requires LogFits(c.delivered, c.handled, log)
    modifies c.repr
    ensures c.Valid() && c.consumed == old(c.consumed) && c.delivered == old(c.delivered) && c.open == old(c.open)
    ensures c.inbox == [] && LogFits(c.delivered, c.handled, longer)
  {
    longer := log;
    while c.inbox != []
      invariant c.Valid() && LogFits(c.delivered, c.handled, longer)
      invariant c.consumed == old(c.consumed) && c.delivered == old(c.delivered) && c.open == old(c.open)
      invariant fresh(c.repr - old(c.repr))
      decreases |c.inbox|
    {
      longer := WorkStep(c, stream, 0, longer);
    }
  }

  /** From a list of requests to what the workers see: for every schedule without a failure whose reads
      suffice, all frames arrive in order, nothing is left over and the connection stays open.  Once
      the workers have taken every task, each request that arrived has been understood, once, as it
      was sent. */
  method ServeRequests(poolSize: nat, requests: seq<Request>, schedule: seq<Step>)
    returns (c: Connection, log: seq<Option<Message>>)
    requires forall r :: r in requests ==> Legal(r)
    ensures c.Valid() && c.delivered <= Frames(requests)
    ensures multiset(c.handled) == multiset(Upto(|c.delivered|)) && |log| == |c.handled|
    ensures forall i :: 0 <= i < |log| ==> c.handled[i] < |requests| && log[i] == Understood(requests[c.handled[i]])
    ensures Failure !in schedule ==> c.open
    ensures Failure !in schedule && |Flatten(Frames(requests))| <= Reads(schedule) ==>
      c.delivered == Frames(requests) && c.recv.Readable() == []
  {
    var stream := Flatten(Frames(requests));
    RequestsSplit(requests);
    c, log := Run(poolSize, stream, schedule);
    DeliveredInStream(c.consumed, stream);
    LogUnderstood(requests, c.delivered, c.handled, log);
    assert Failure !in schedule ==> Undisturbed(schedule, log);
    assert Failure !in schedule && |stream| <= Reads(schedule) ==>
      c.delivered == Frames(requests) && c.recv.Readable() == [];
    log := TakeAll(c, stream, log);
    assert c.waiting == [];
    LogUnderstood(requests, c.delivered, c.handled, log);
  }
}
