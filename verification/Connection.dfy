/** A server connection's receive side: one read chain that reassembles frames in a pooled buffer,
    hands whole frames to the worker pool, and re-arms itself. */
module Connection {
  import Arithmetic
  import opened Bits
  import opened Sequences
  import Codec
  import opened MsgBuffer
  import opened ObjectPool
  import opened Protocol
  import opened Framing

  /** The `packlen` field is zero until a header with the right magic is complete. */
  predicate PackLenFits(packlen: nat, s: seq<byte>) {
    if packlen == 0 then |s| < HEAD_LEN else HEAD_LEN <= |s| && s[..4] == MAGIC && packlen == PackLen(s)
  }

  lemma Read32OfSlice(s: seq<byte>)
    requires HEAD_LEN <= |s|
    ensures Codec.Read32(s[4..]) == Codec.Read32(s[4..8])
  {
  }

  /** `PackageCheck`: sets the buffer's `packlen` when the header is complete; the cursors end where
      they were. */
  method PackageCheck(buffer: MsgBuffer) returns (stat: PackageStat)
    requires buffer.Valid() && buffer.head == 0
    requires buffer.packlen == 0 || PackLenFits(buffer.packlen, buffer.Readable())
    modifies buffer`head, buffer`packlen
    ensures buffer.Valid() && buffer.head == 0
    ensures stat == Verdict(buffer.Readable())
    ensures !stat.Incorrect? ==> PackLenFits(buffer.packlen, buffer.Readable())
  {
    ghost var s := buffer.Readable();
    if buffer.packlen == 0 {
      if buffer.Available() < HEAD_LEN {
        return NeedHead;
      }
      if buffer.store[buffer.head..buffer.head + 4] != MAGIC {
        assert s[..4] != MAGIC;
        return Incorrect;
      }
      buffer.Consume(4);
      var packlen := buffer.Peek32();
      Read32OfSlice(s);
      buffer.packlen := (packlen + 2) % Arithmetic.WORD;
      buffer.Vomit(4);
      assert buffer.Readable() == s;
    }
    if buffer.packlen > MAX_PACKAGE || buffer.packlen < HEAD_LEN + 2 {
      return Incorrect;
    }
    if buffer.Available() < buffer.packlen {
      return NeedBody;
    }
    return Whole;
  }

  /** More bytes do not change a length that is known. */
  lemma PackLenStillFits(packlen: nat, s: seq<byte>, more: seq<byte>)
    requires PackLenFits(packlen, s)
    ensures packlen == 0 || PackLenFits(packlen, s + more)
  {
    if HEAD_LEN <= |s| {
      HeaderStable(s, more);
      assert (s + more)[..4] == s[..4];
    }
  }

  /** The verdict on the bytes since the last frame tells what the stream so far means. */
  predicate Due(consumed: seq<byte>, delivered: seq<seq<byte>>, s: seq<byte>) {
    match Verdict(s)
    case Whole => Split(consumed) == Feed(delivered + [s], [], false)
    case Incorrect => Split(consumed) == Feed(delivered, s, true)
    case _ => Split(consumed) == Feed(delivered, s, false)
  }

  lemma BytesArrived(consumed: seq<byte>, delivered: seq<seq<byte>>, pending: seq<byte>, data: seq<byte>)
    requires Split(consumed) == Feed(delivered, pending, false)
    requires 1 <= |data| <= Missing(pending)
    ensures Due(consumed + data, delivered, pending + data)
  {
    SplitShape(consumed);
    ReadStep(pending, data);
    SplitAppend(consumed, data);
    assert delivered + [] == delivered;
  }

  /** What one read can bring: an error to retry after, one that ends the connection, or bytes. */
  datatype Event = Retry | Fatal | Got(data: seq<byte>)

  predicate Distinct<T(==)>(s: seq<T>) {
    forall i, j :: 0 <= i < j < |s| ==> s[i] != s[j]
  }

  lemma OneMore<T>(s: seq<T>, x: T)
    requires Distinct(s) && x !in s
    ensures Distinct(s + [x])
  {
  }

  function Without<T>(s: seq<T>, k: nat): seq<T>
    requires k < |s|
  {
    s[..k] + s[k + 1..]
  }

  lemma WithoutOne<T>(s: seq<T>, k: nat)
    requires Distinct(s) && k < |s|
    ensures Distinct(Without(s, k)) && s[k] !in Without(s, k)
    ensures forall x :: x in Without(s, k) ==> x in s
  {
  }

  /** The numbers below n. */
  function Upto(n: nat): (s: seq<nat>)
    ensures |s| == n && forall i :: 0 <= i < n ==> s[i] == i
  {
    seq(n, i => i)
  }

  /** Each of n frames was dealt with once or waits once. */
  predicate AllAccounted(handled: seq<nat>, waiting: seq<nat>, n: nat) {
    multiset(handled) + multiset(waiting) == multiset(Upto(n))
  }

  lemma FramePosted(handled: seq<nat>, waiting: seq<nat>, n: nat)
    requires AllAccounted(handled, waiting, n)
    ensures AllAccounted(handled, waiting + [n], n + 1)
  {
    assert Upto(n + 1) == Upto(n) + [n];
  }

  lemma FrameTaken(handled: seq<nat>, waiting: seq<nat>, k: nat, n: nat)
    requires AllAccounted(handled, waiting, n) && k < |waiting|
    ensures AllAccounted(handled + [waiting[k]], Without(waiting, k), n)
  {
    assert waiting == waiting[..k] + [waiting[k]] + waiting[k + 1..];
  }

  /** The free list after a task: its buffer goes to the end if its frame passes the check. */
  function FreeAfter(free: seq<MsgBuffer>, b: MsgBuffer, checked: bool): seq<MsgBuffer> {
    if checked then free + [b] else free
  }

  function LentAfter(lent: set<MsgBuffer>, b: MsgBuffer, checked: bool): set<MsgBuffer> {
    if checked then lent - {b} else lent
  }

  function Rest<T>(s: seq<T>): seq<T> {
    if |s| == 0 then [] else s[1..]
  }

  ghost predicate Holds(b: MsgBuffer, frame: seq<byte>)
    reads b
  {
    b.Valid() && b.head == 0 && b.Readable() == frame
  }

  class Connection {
    const pool: ObjectPool
    var recv: MsgBuffer?
    var open: bool

    /** A read was asked for whose handler is still to run. */
    var reading: bool
    var wanted: nat

    /** Read tasks posted to the worker pool and not taken yet. */
    var inbox: seq<MsgBuffer>

    /** Buffers marked invalid that wait for the strand to close the connection. */
    var refusals: seq<MsgBuffer>

    /** The bytes taken from the socket and the frames handed over; the numbers of the frames in the
        inbox, and of those the workers have dealt with, in that order. */
    ghost var consumed: seq<byte>
    ghost var delivered: seq<seq<byte>>
    ghost var waiting: seq<nat>
    ghost var handled: seq<nat>

    /** The connection, its pool and all their buffers. */
    ghost var repr: set<object>

    /** Nobody shares a buffer. */
    ghost predicate Owned()
      reads `recv, `inbox, `repr, pool
    {
      && this in repr && pool in repr && (forall b :: b in pool.freeList ==> b in repr)
      && (recv != null ==> recv in pool.lent && recv in repr && recv !in inbox)
      && (forall b :: b in inbox ==> b in pool.lent && b in repr)
      && Distinct(inbox)
    }

    ghost predicate Refusing()
      reads `refusals, `recv, `inbox, `repr, pool, refusals
    {
      && (forall b :: b in refusals ==> b in pool.lent && b in repr && b != recv && b !in inbox)
      && (forall b :: b in refusals ==> b.indicator == InvalidMessage)
      && Distinct(refusals)
    }

    /** Every frame was dealt with once or waits once. */
    ghost predicate Numbered()
      reads `waiting, `handled, `delivered
    {
      AllAccounted(handled, waiting, |delivered|)
    }

    /** The frames that wait are under way in buffers that hold them. */
    ghost predicate Posted()
      reads `inbox, `waiting, `delivered, inbox
    {
      && |waiting| == |inbox|
      && forall i :: 0 <= i < |inbox| ==> waiting[i] < |delivered| && Holds(inbox[i], delivered[waiting[i]])
    }

    /** What was handed over and what is in the receive buffer is what the stream so far means; while
        a read is under way the buffer is ready for it. */
    ghost predicate Armed()
      reads `recv, `reading, `wanted, `consumed, `delivered, recv
    {
      && recv != null && recv.Valid() && recv.head == 0
      && Split(consumed) == Feed(delivered, recv.Readable(), Split(consumed).closed)
      && (reading ==>
            && !Split(consumed).closed
            && wanted == Missing(recv.Readable()) <= |recv.store| - recv.tail
            && PackLenFits(recv.packlen, recv.Readable()))
    }

    ghost predicate Valid()
      reads this, repr
    {
      && pool in repr && Owned() && (forall b :: b in refusals ==> b in repr)
      && pool.Valid() && Numbered() && Posted() && Refusing() && Armed() && (open ==> reading)
    }

    /** Asking for size bytes is right: a header if no buffer is in use, else what is missing. */
    ghost predicate Ready(size: int)
      reads `recv, `consumed, `delivered, recv
    {
      if recv == null then
        size == HEAD_LEN && Split(consumed) == Feed(delivered, [], false)
      else
        && recv.Valid() && recv.head == 0
        && Split(consumed) == Feed(delivered, recv.Readable(), false)
        && size == Missing(recv.Readable())
        && PackLenFits(recv.packlen, recv.Readable())
    }

    /** `handle_accept`: ask for the first header. */
    constructor (pool: ObjectPool)
      requires pool.Valid()
      modifies pool, set b | b in pool.freeList
      ensures Valid() && this.pool == pool && open && reading
      ensures consumed == [] && delivered == [] && handled == [] && inbox == [] && refusals == []
      ensures forall o :: o in repr ==> fresh(o) || o == pool || o in old(pool.freeList)
    {
      this.pool := pool;
      recv, open, reading, inbox, refusals := null, true, true, [], [];
      consumed, delivered, waiting, handled := [], [], [], [];
      repr := {this, pool} + set b | b in pool.freeList;
      new;
      AsyncRead(HEAD_LEN);
    }

    /** `async_read`, and the end of `handle_read`: take a buffer from the pool if there is none, and
        make room for what is asked for. */
    method AsyncRead(size: nat)
      requires pool.Valid() && Owned() && Numbered() && Posted() && Refusing() && reading && Ready(size)
      modifies `recv, `wanted, `repr, pool, pool.freeList, recv
      ensures Valid()
      ensures fresh(repr - old(repr))
    {
      if recv == null {
        TakeBuffer();
      }
      Arm(size);
    }

    method TakeBuffer()
      requires pool.Valid() && Owned() && Numbered() && Posted() && Refusing() && recv == null
      modifies `recv, `repr, pool
      ensures pool.Valid() && Owned() && Numbered() && Posted() && Refusing()
      ensures recv != null && recv.Valid() && recv.Cleared()
      ensures fresh(repr - old(repr))
      ensures fresh(recv) || recv in old(pool.freeList)
    {
      var data := Borrow();
      Install(data);
    }

    method Install(data: MsgBuffer)
      requires pool.Valid() && Owned() && Numbered() && Posted() && Refusing() && recv == null
      requires data in pool.lent && data in repr && data !in inbox && data !in refusals
      modifies `recv
      ensures pool.Valid() && Owned() && Numbered() && Posted() && Refusing() && recv == data
    {
      recv := data;
    }

    /** `use`: a buffer that nobody has. */
    method Borrow() returns (data: MsgBuffer)
      requires pool.Valid() && Owned() && Numbered() && Posted() && Refusing()
      modifies `repr, pool
      ensures pool.Valid() && Owned() && Numbered() && Posted() && Refusing()
      ensures data.Valid() && data.Cleared() && data in repr && data != recv && data !in inbox && data !in refusals
      ensures pool.freeList == Rest(old(pool.freeList)) && pool.lent == old(pool.lent) + {data}
      ensures fresh(repr - old(repr)) && old(repr) <= repr
      ensures fresh(data) || data in old(pool.freeList)
    {
      data := pool.Use();
      repr := repr + {data};
    }

    method BorrowSpare() returns (data: MsgBuffer)
      requires Valid()
      modifies `repr, pool
      ensures Valid()
      ensures data.Valid() && data.Cleared() && data in repr && data != recv && data !in inbox && data !in refusals
      ensures pool.freeList == Rest(old(pool.freeList)) && pool.lent == old(pool.lent) + {data}
      ensures fresh(repr - old(repr))
      ensures fresh(data) || data in old(pool.freeList)
    {
      data := Borrow();
    }

    method Arm(size: nat)
      requires pool.Valid() && Owned() && Numbered() && Posted() && Refusing() && reading && recv != null && Ready(size)
      modifies `wanted, recv`store
      ensures Valid()
    {
      recv.Adjust(size);
      wanted := size;
    }

    /** `handle_read`.  It asks for more also when the socket has been closed in the meantime; that read
        then fails. */
    method HandleRead(event: Event)
      requires Valid() && reading
      requires event.Got? ==> 1 <= |event.data| <= wanted
      modifies repr
      ensures Valid() && handled == old(handled) && refusals == old(refusals)
      ensures consumed == old(consumed) + if event.Got? then event.data else []
      ensures reading <==> !event.Fatal? && !Split(consumed).closed
      ensures open <==> old(open) && reading
      ensures fresh(repr - old(repr))
    {
      var size := Result(event);
      AskAgain(size);
    }

    method AskAgain(size: int)
      requires if reading then
        pool.Valid() && Owned() && Numbered() && Posted() && Refusing() && Ready(size) && 0 < size
      else
        Valid()
      modifies `recv, `wanted, `repr, pool, pool.freeList, recv
      ensures Valid()
      ensures fresh(repr - old(repr))
    {
      if reading {
        AsyncRead(size);
      }
    }

    /** The error cases and the check of what came; size is what to ask for next. */
    method Result(event: Event) returns (size: int)
      requires Valid() && reading
      requires event.Got? ==> 1 <= |event.data| <= wanted
      modifies this`recv, this`open, this`reading, this`inbox, this`consumed, this`delivered, this`waiting, recv
      ensures pool.Valid() && Owned() && Numbered() && Posted() && Refusing()
      ensures consumed == old(consumed) + if event.Got? then event.data else []
      ensures reading <==> !event.Fatal? && !Split(consumed).closed
      ensures open <==> old(open) && reading
      ensures if reading then Ready(size) && 0 < size else Valid()
      ensures recv == null || recv == old(recv)
    {
      size := -1;
      match event {
        case Retry =>
          SplitShape(consumed);
          size := wanted;
        case Fatal =>
          Close();
        case Got(data) =>
          size := BytesCame(data);
      }
    }

    method BytesCame(data: seq<byte>) returns (size: int)
      requires Valid() && reading
      requires 1 <= |data| <= wanted
      modifies this`recv, this`open, this`reading, this`inbox, this`consumed, this`delivered, this`waiting, recv
      ensures pool.Valid() && Owned() && Numbered() && Posted() && Refusing() && consumed == old(consumed) + data
      ensures if reading then Ready(size) && 0 < size else Armed() && Split(consumed).closed
      ensures open <==> old(open) && reading
      ensures recv == null || recv == old(recv)
    {
      BytesArrived(consumed, delivered, recv.Readable(), data);
      PackLenStillFits(recv.packlen, recv.Readable(), data);
      recv.Receive(data);
      consumed := consumed + data;
      size := Dispatch();
    }

    /** What to do with the bytes in the receive buffer: hand a whole frame over and start again with
        a header, ask for what is missing, or close. */
    method Dispatch() returns (size: int)
      requires pool.Valid() && Owned() && Numbered() && Posted() && Refusing() && reading
      requires recv != null && recv.Valid() && recv.head == 0
      requires recv.packlen == 0 || PackLenFits(recv.packlen, recv.Readable())
      requires Due(consumed, delivered, recv.Readable())
      modifies this`recv, this`open, this`reading, this`inbox, this`delivered, this`waiting, recv
      ensures pool.Valid() && Owned() && Numbered() && Posted() && Refusing()
      ensures if reading then Ready(size) && 0 < size else Armed() && Split(consumed).closed
      ensures open <==> old(open) && reading
      ensures recv == null || recv == old(recv)
    {
      var stat := Check();
      size := ActOn(stat);
    }

    method ActOn(stat: PackageStat) returns (size: int)
      requires pool.Valid() && Owned() && Numbered() && Posted() && Refusing() && reading
      requires recv != null && recv.Valid() && recv.head == 0
      requires stat == Verdict(recv.Readable()) && (!stat.Incorrect? ==> PackLenFits(recv.packlen, recv.Readable()))
      requires Due(consumed, delivered, recv.Readable())
      modifies this`recv, this`open, this`reading, this`inbox, this`delivered, this`waiting, recv
      ensures pool.Valid() && Owned() && Numbered() && Posted() && Refusing()
      ensures if reading then Ready(size) && 0 < size else Armed() && Split(consumed).closed
      ensures open <==> old(open) && reading
      ensures recv == null || recv == old(recv)
    {
      size := -1;
      match stat {
        case Incorrect =>
          Close();
        case Whole =>
          size := StartAgain();
        case _ =>
          size := StillMissing(stat);
      }
    }

    method StartAgain() returns (size: int)
      requires pool.Valid() && Owned() && Numbered() && Posted() && Refusing()
      requires recv != null && recv.Valid() && recv.head == 0
      requires Split(consumed) == Feed(delivered + [recv.Readable()], [], false)
      modifies this`recv, this`inbox, this`delivered, this`waiting, recv`indicator
      ensures pool.Valid() && Owned() && Numbered() && Posted() && Refusing()
      ensures recv == null && Ready(size) && 0 < size
    {
      HandOver();
      size := HEAD_LEN;
    }

    method StillMissing(stat: PackageStat) returns (size: int)
      requires recv != null && recv.Valid() && recv.head == 0
      requires stat == Verdict(recv.Readable()) && (stat.NeedHead? || stat.NeedBody?)
      requires PackLenFits(recv.packlen, recv.Readable()) && Due(consumed, delivered, recv.Readable())
      ensures Ready(size) && 0 < size
    {
      match stat {
        case NeedHead =>
          size := HEAD_LEN - recv.Available();
        case NeedBody =>
          size := recv.packlen - recv.Available();
      }
    }

    /** `close` in the read handler, which then asks for no more. */
    method Close()
      requires pool.Valid() && Owned() && Numbered() && Posted() && Refusing()
      requires recv != null && recv.Valid() && recv.head == 0
      requires Split(consumed) == Feed(delivered, recv.Readable(), Split(consumed).closed)
      modifies `open, `reading
      ensures pool.Valid() && Owned() && Numbered() && Posted() && Refusing() && Armed()
      ensures !open && !reading
    {
      open, reading := false, false;
    }

    method Check() returns (stat: PackageStat)
      requires pool.Valid() && Owned() && Numbered() && Posted() && Refusing()
      requires recv != null && recv.Valid() && recv.head == 0
      requires recv.packlen == 0 || PackLenFits(recv.packlen, recv.Readable())
      modifies recv`head, recv`packlen
      ensures pool.Valid() && Owned() && Numbered() && Posted() && Refusing() && recv.Valid() && recv.head == 0
      ensures recv.Readable() == old(recv.Readable())
      ensures stat == Verdict(recv.Readable())
      ensures !stat.Incorrect? ==> PackLenFits(recv.packlen, recv.Readable())
    {
      stat := PackageCheck(recv);
    }

    /** The server's read handler: the buffer moves into a task for the worker pool. */
    method HandOver()
      requires pool.Valid() && Owned() && Numbered() && Posted() && Refusing()
      requires recv != null && recv.Valid() && recv.head == 0
      modifies this`recv, this`inbox, this`delivered, this`waiting, recv`indicator
      ensures pool.Valid() && Owned() && Numbered() && Posted() && Refusing() && recv == null
      ensures delivered == old(delivered) + [old(recv.Readable())]
      ensures old(recv).indicator == ValidMessage
    {
      OneMore(inbox, recv);
      recv.indicator := ValidMessage;
      Post(recv);
      recv := null;
    }

    method Post(b: MsgBuffer)
      requires Numbered() && Posted() && b.Valid() && b.head == 0
      modifies this`inbox, this`waiting, this`delivered
      ensures Numbered() && Posted() && inbox == old(inbox) + [b] && delivered == old(delivered) + [b.Readable()]
    {
      FramePosted(handled, waiting, |delivered|);
      ghost var boxes, numbers, frames := inbox, waiting, delivered;
      inbox := inbox + [b];
      waiting := waiting + [|delivered|];
      delivered := delivered + [b.Readable()];
      forall i | 0 <= i < |boxes| ensures waiting[i] < |delivered| && Holds(inbox[i], delivered[waiting[i]]) {
        assert inbox[i] == boxes[i] && waiting[i] == numbers[i] && delivered[numbers[i]] == frames[numbers[i]];
      }
    }

    /** A worker takes some read task and runs it. */
    method HandleTask(k: nat, ghost frame: seq<byte>) returns (msg: Option<Message>, checked: bool)
      requires Valid() && k < |inbox| && frame == delivered[waiting[k]] && Decodable(frame)
      modifies this`inbox, this`waiting, this`handled, pool, inbox[k]
      ensures Valid()
      ensures handled == old(handled) + [old(waiting[k])] && msg == Outcome(frame)
      ensures checked <==> CheckValueMatches(frame)
      ensures |inbox| == old(|inbox|) - 1
      ensures pool.freeList == FreeAfter(old(pool.freeList), old(inbox[k]), checked)
      ensures pool.lent == LentAfter(old(pool.lent), old(inbox[k]), checked)
    {
      var b := TakeOut(k);
      msg, checked := RunTask(b, frame);
    }

    /** `handle_read_msg` on a worker: the buffer goes back to the pool if the check passed, and is
        dropped otherwise. */
    method RunTask(b: MsgBuffer, ghost frame: seq<byte>) returns (msg: Option<Message>, checked: bool)
      requires Valid() && b in pool.lent && b in repr && b !in inbox && b !in refusals && b != recv
      requires Holds(b, frame) && Decodable(frame)
      modifies pool, b
      ensures Valid() && msg == Outcome(frame) && (checked <==> CheckValueMatches(frame))
      ensures pool.freeList == FreeAfter(old(pool.freeList), b, checked)
      ensures pool.lent == LentAfter(old(pool.lent), b, checked)
    {
      msg, checked := HandleReadMsg(b);
      if checked {
        pool.Recycle(b);
      }
    }

    /** `handle_write_msg` without a response: a buffer marked invalid goes to the strand. */
    method Refuse()
      requires Valid()
      modifies this`refusals, this`repr, pool, pool.freeList
      ensures Valid() && |refusals| == old(|refusals|) + 1
      ensures pool.freeList == Rest(old(pool.freeList))
      ensures pool.lent == old(pool.lent) + {refusals[old(|refusals|)]}
      ensures fresh(repr - old(repr))
    {
      var data := BorrowInvalid();
      PostRefusal(data);
    }

    method PostRefusal(data: MsgBuffer)
      requires Valid()
      requires data in pool.lent && data in repr && data != recv && data !in inbox && data !in refusals
      requires data.indicator == InvalidMessage
      modifies this`refusals
      ensures Valid() && refusals == old(refusals) + [data]
    {
      OneMore(refusals, data);
      refusals := refusals + [data];
    }

    /** `use`, and the branch of `handle_write_msg` without a response. */
    method BorrowInvalid() returns (data: MsgBuffer)
      requires Valid()
      modifies this`repr, pool, pool.freeList
      ensures Valid() && data in repr && data != recv && data !in inbox && data !in refusals
      ensures data.indicator == InvalidMessage
      ensures pool.freeList == Rest(old(pool.freeList)) && pool.lent == old(pool.lent) + {data}
      ensures fresh(repr - old(repr))
    {
      data := BorrowSpare();
      MarkInvalid(data);
    }

    method MarkInvalid(data: MsgBuffer)
      requires Valid() && data in pool.lent && data in repr && data != recv && data !in inbox && data !in refusals
      requires data.Valid() && data.Cleared()
      modifies data
      ensures Valid() && data.indicator == InvalidMessage
    {
      FrameResponse(data, None);
    }

    /** `async_write` on the strand, for a buffer marked invalid: the buffer goes back to the pool and the
        socket is closed.  The handler of the read under way is still to run. */
    method CloseOnRefusal()
      requires Valid() && refusals != []
      modifies this`refusals, this`open, pool, refusals[0]
      ensures Valid() && !open
      ensures refusals == old(refusals[1..]) && pool.freeList == old(pool.freeList) + [old(refusals[0])]
    {
      var data := refusals[0];
      refusals := refusals[1..];
      open := false;
      pool.Recycle(data);
    }

    method TakeOut(k: nat) returns (b: MsgBuffer)
      requires Valid() && k < |inbox|
      modifies this`inbox, this`waiting, this`handled
      ensures Valid() && b in pool.lent && b in repr && b != recv && b !in refusals
      ensures b == old(inbox[k]) && inbox == Without(old(inbox), k) && b !in inbox
      ensures handled == old(handled) + [old(waiting[k])]
      ensures Holds(b, delivered[old(waiting[k])])
    {
      b := TakeTask(k);
    }

    method TakeTask(k: nat) returns (b: MsgBuffer)
      requires Owned() && Numbered() && Posted() && Refusing() && k < |inbox|
      modifies this`inbox, this`waiting, this`handled
      ensures Owned() && Numbered() && Posted() && Refusing()
      ensures b == old(inbox[k]) && inbox == Without(old(inbox), k) && b !in inbox
      ensures handled == old(handled) + [old(waiting[k])]
      ensures Holds(b, delivered[old(waiting[k])])
    {
      FrameTaken(handled, waiting, k, |delivered|);
      WithoutOne(inbox, k);
      b := inbox[k];
      assert Holds(b, delivered[waiting[k]]);
      ghost var boxes, numbers := inbox, waiting;
      inbox := Without(inbox, k);
      handled := handled + [waiting[k]];
      waiting := Without(waiting, k);
      forall i | 0 <= i < |inbox| ensures waiting[i] < |delivered| && Holds(inbox[i], delivered[waiting[i]]) {
        ghost var j := if i < k then i else i + 1;
        assert inbox[i] == boxes[j] && waiting[i] == numbers[j];
      }
    }
  }
}
