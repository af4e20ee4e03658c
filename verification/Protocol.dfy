/** Messages on the wire: layouts as plain byte sequences, and the methods that build and take
    apart messages in place. */
module Protocol {
  import opened Arithmetic
  import opened Bits
  import opened Sequences
  import opened Codec
  import opened MsgBuffer
  import opened Crc16
  import CrcTable
  import CrcDetection

  const MAGIC: seq<byte> := [0xF7, 0xBA, 0xA1, 0xC9]

  const HEAD_LEN: nat := 12

  const BIND_CMD: u32 := 1
  const ACT_CMD: u32 := 2
  const DELIVER_MSG_CMD: u32 := 3

  // Field order of the bodies.
  const BIND_BODY: seq<Kind> := [Str]
  const DELIVER_BODY: seq<Kind> :=
    [Str, Str, Str, U32, U8, Str, Str, U32, Str, Str, U32, Str, Str, Str, Str, U8, Str, Str, U32]

  // ---------------------------------------------------------------- layouts

  /** The checked part of a request: command and body. */
  function Payload(cmd: u32, body: seq<byte>): seq<byte> {
    BE32(cmd) + body
  }

  /** A request frame: magic, length of everything before the check value, command, body, check
      value of command and body. */
  function RequestFrame(cmd: u32, body: seq<byte>): seq<byte>
    requires HEAD_LEN + |body| < WORD
  {
    MAGIC + BE32(HEAD_LEN + |body|) + Payload(cmd, body) + BE16(CrcValue(Payload(cmd, body)))
  }

  /** How many bytes the check value of a response with a body of n bytes covers: the difference of
      two 32-bit words, taken as an `int`. */
  function CheckedBytes(n: nat): (c: nat)
    ensures c <= n
    ensures n < 0x8000_0000 ==> c == n
  {
    if n % WORD < 0x8000_0000 then n % WORD else 0
  }

  /** A response as `handle_write_msg` lays it out: the length, a 32-bit word, leaves out the magic, and
      the check value covers as many bytes from offset 8 as the body is long. */
  function ResponseFrame(cmd: u32, body: seq<byte>): seq<byte> {
    var payload := Payload(cmd, body);
    MAGIC + BE32((8 + |body|) % WORD) + payload + BE16(CrcValue(payload[..CheckedBytes(|body|)]))
  }

  // ---------------------------------------------------------------- building messages

  /** Filling a gap of eight bytes in two pieces. */
  lemma FillGap(r: seq<byte>, a: seq<byte>, b: seq<byte>, rest: seq<byte>)
    requires |a| == |b| == 4 && |r| >= 8 && r[8..] == rest
    ensures var r1 := r[..0] + a + r[0 + 4..];
      r1[..4] + b + r1[4 + 4..] == a + b + rest
  {
  }

  /** Filling a gap of four bytes. */
  lemma FillStart(r: seq<byte>, a: seq<byte>, rest: seq<byte>)
    requires |a| == 4 && |r| >= 4 && r[4..] == rest
    ensures r[..0] + a + r[0 + 4..] == a + rest
  {
  }

  /** Sealing a request: magic in front, check value of everything from offset 8 on. */
  method SealRequest(data: MsgBuffer, ghost length: seq<byte>, ghost payload: seq<byte>)
    requires data.Valid() && 4 <= data.head && |length| == 4
    requires data.Readable() == length + payload
    modifies data
    ensures data.Valid() && data.indicator == ValidMessage
    ensures data.Readable() == MAGIC + length + payload + BE16(CrcValue(payload))
  {
    data.Vomit(4);
    ghost var gap := data.Readable();
    assert gap[4..] == length + payload;
    data.Patch(0, MAGIC);
    FillStart(gap, MAGIC, length + payload);
    assert data.Readable() == MAGIC + length + payload;
    SealedPieces(length, payload, |payload|);
    assert payload[..|payload|] == payload;
    AppendCheck(data, data.Available() - 8);
  }

  /** The check value of count bytes from offset 8 goes behind the message. */
  method AppendCheck(data: MsgBuffer, count: nat)
    requires data.Valid() && 8 + count <= data.Available()
    modifies data
    ensures data.Valid() && data.indicator == ValidMessage
    ensures data.Readable() == old(data.Readable()) + BE16(CrcValue(old(data.Readable())[8..8 + count]))
  {
    SliceOfSlice(data.store, data.head, data.tail, 8, 8 + count);
    var crc := CrcTable.ComputeCrc(data.store[data.head + 8..data.head + (8 + count)]);
    data.Append(BE16(crc));
    data.indicator := ValidMessage;
  }

  /** The keepalive request. */
  method BuildKeepalive(data: MsgBuffer)
    requires data.Valid() && data.Cleared()
    modifies data
    ensures data.Valid() && data.indicator == ValidMessage
    ensures data.Readable() == RequestFrame(ACT_CMD, [])
  {
    data.Seek(4);
    data.Put(V32(HEAD_LEN));
    data.Put(V32(ACT_CMD));
    assert data.Readable() == BE32(HEAD_LEN) + Payload(ACT_CMD, []);
    SealRequest(data, BE32(HEAD_LEN), Payload(ACT_CMD, []));
  }

  /** `makeup`: leave a gap for the head, write the body, then go back and fill in the head.  The
      readable bytes are those of writing the head and then the body, whatever the body's size
      and whether or not the buffer had to grow. */
  method Makeup(data: MsgBuffer, cmd: u32, body: seq<Value>) returns (len: u32)
    requires data.Valid() && data.head == data.tail && data.tail + 8 <= |data.store|
    modifies data
    ensures data.Valid() && data.head == old(data.head)
    ensures len == (8 + |EncodeAll(body)|) % WORD
    ensures data.Readable() == EncodeAll([V32(len), V32(cmd)] + body)
    ensures data.store[..data.head] == old(data.store)[..data.head]
    ensures data.packlen == old(data.packlen) && data.indicator == old(data.indicator)
  {
    ghost var before := data.store[..data.head];
    data.Seek(8);
    data.PutAll(body);
    len := (data.Available() + 8) % WORD;
    assert data.store[..data.head - 8] == before;
    data.Vomit(8);
    FillHead(data, BE32(len), BE32(cmd), EncodeAll(body));
    HeadThenBody(len, cmd, body);
  }

  /** Two `reset` calls that fill the first eight readable bytes. */
  method FillHead(data: MsgBuffer, a: seq<byte>, b: seq<byte>, ghost rest: seq<byte>)
    requires data.Valid() && 8 <= data.Available() && |a| == |b| == 4
    requires data.Readable()[8..] == rest
    modifies data`store
    ensures data.Valid() && data.Readable() == a + b + rest
    ensures data.store[..data.head] == old(data.store)[..data.head]
  {
    FillGap(data.Readable(), a, b, rest);
    data.Patch(0, a);
    data.Patch(4, b);
  }

  lemma HeadThenBody(len: u32, cmd: u32, body: seq<Value>)
    ensures EncodeAll([V32(len), V32(cmd)] + body) == BE32(len) + BE32(cmd) + EncodeAll(body)
  {
    EncodeAllAppend([V32(len), V32(cmd)], body);
    EncodeAllAppend([V32(len)], [V32(cmd)]);
    assert [V32(len)] + [V32(cmd)] == [V32(len), V32(cmd)];
    EncodeOne(V32(len));
    EncodeOne(V32(cmd));
  }

  /** The keepalive response has only a head, with the length its handler put there. */
  method MakeupHeadOnly(data: MsgBuffer, len: u32, cmd: u32)
    requires data.Valid() && data.head == data.tail
    modifies data
    ensures data.Valid() && data.head == old(data.head)
    ensures data.Readable() == BE32(len) + BE32(cmd)
    ensures data.store[..data.head] == old(data.store)[..data.head]
  {
    data.Put(V32(len));
    data.Put(V32(cmd));
  }

  datatype Response = HeadOnly(cmd: u32) | WithBody(cmd: u32, fields: seq<Value>)

  function BodyOf(rsp: Response): seq<byte> {
    match rsp
    case HeadOnly(_) => []
    case WithBody(_, fields) => EncodeAll(fields)
  }

  lemma PayloadAfter(word: seq<byte>, cmd: u32, body: seq<byte>)
    ensures word + BE32(cmd) + body == word + Payload(cmd, body)
    ensures body == [] ==> word + BE32(cmd) == word + Payload(cmd, body)
  {
  }

  method MakeupWithBody(data: MsgBuffer, cmd: u32, body: seq<Value>)
    requires data.Valid() && data.head == data.tail && data.tail + 8 <= |data.store|
    modifies data
    ensures data.Valid() && data.head == old(data.head)
    ensures data.Readable() == BE32((8 + |EncodeAll(body)|) % WORD) + Payload(cmd, EncodeAll(body))
  {
    var len := Makeup(data, cmd, body);
    HeadThenBody(len, cmd, body);
    PayloadAfter(BE32(len), cmd, EncodeAll(body));
  }

  /** The response's head and body. */
  method MakeupResponse(data: MsgBuffer, rsp: Response)
    requires data.Valid() && data.head == data.tail && data.tail + 8 <= |data.store|
    modifies data
    ensures data.Valid() && data.head == old(data.head)
    ensures data.Readable() == BE32((8 + |BodyOf(rsp)|) % WORD) + Payload(rsp.cmd, BodyOf(rsp))
  {
    match rsp {
      case HeadOnly(cmd) =>
        MakeupHeadOnly(data, 8, cmd);
        PayloadAfter(BE32(8), cmd, []);
      case WithBody(cmd, fields) =>
        MakeupWithBody(data, cmd, fields);
    }
  }

  lemma SealedPieces(word: seq<byte>, rest: seq<byte>, span: nat)
    requires |word| == 4 && span <= |rest|
    ensures var sealed := MAGIC + word + rest;
      |sealed| == 8 + |rest| && sealed[8..8 + span] == rest[..span]
  {
  }

  /** Sealing a message: magic in front, length word, check value of as many bytes from offset 8
      as the length word says beyond the head. */
  method SealResponse(data: MsgBuffer, ghost rest: seq<byte>)
    requires data.Valid() && 4 <= data.head && 8 <= data.Available()
    requires data.Readable()[4..] == rest
    modifies data
    ensures data.Valid() && data.indicator == ValidMessage
    ensures data.Readable()
      == MAGIC + BE32((4 + |rest|) % WORD) + rest + BE16(CrcValue(rest[..CheckedBytes(|rest| - 4)]))
  {
    data.Vomit(4);
    var packlen: u32 := (data.Available() - 4) % WORD;
    FillHead(data, MAGIC, BE32(packlen), rest);
    var len := LengthArgument(packlen, |rest| - 4);
    SealedPieces(BE32(packlen), rest, len);
    AppendCheck(data, len);
  }

  /** The length word less eight, as the `int` argument of the check value's loop, which does nothing
      for a negative one. */
  method LengthArgument(packlen: u32, ghost n: nat) returns (len: nat)
    requires packlen == (8 + n) % WORD
    ensures len == CheckedBytes(n)
  {
    len := (packlen - 8) % WORD;
    if 0x8000_0000 <= len {
      len := 0;
    }
  }

  lemma ResponsePieces(cmd: u32, body: seq<byte>)
    ensures var rest := Payload(cmd, body);
      && |rest| == 4 + |body|
      && (BE32((8 + |body|) % WORD) + rest)[4..] == rest
      && ResponseFrame(cmd, body)
         == MAGIC + BE32((4 + |rest|) % WORD) + rest + BE16(CrcValue(rest[..CheckedBytes(|rest| - 4)]))
  {
  }

  /** `handle_write_msg`, on a buffer fresh from the pool: the response's frame, or a buffer marked
      invalid if there is no response. */
  method FrameResponse(data: MsgBuffer, rsp: Option<Response>)
    requires data.Valid() && data.Cleared()
    modifies data
    ensures data.Valid()
    ensures match rsp
      case None => data.indicator == InvalidMessage && data.Readable() == []
      case Some(r) => data.indicator == ValidMessage && data.Readable() == ResponseFrame(r.cmd, BodyOf(r))
  {
    match rsp {
      case None =>
        data.indicator := InvalidMessage;
      case Some(r) =>
        data.Seek(4);
        MakeupResponse(data, r);
        ResponsePieces(r.cmd, BodyOf(r));
        SealResponse(data, Payload(r.cmd, BodyOf(r)));
    }
  }

  // ---------------------------------------------------------------- taking frames apart

  /** The stored check value is that of the bytes between offset 8 and it. */
  predicate CheckValueMatches(frame: seq<byte>)
    requires 10 <= |frame|
  {
    Read16(frame[|frame| - 2..]) == CrcValue(frame[8..|frame| - 2])
  }

  lemma WithoutMagic(frame: seq<byte>, word: seq<byte>)
    requires 8 <= |frame| && |word| == 4
    ensures (frame[..4] + word + frame[4 + |word|..])[4..] == word + frame[8..]
  {
  }

  /** `parse_check`: compare the check values, and on success replace the length word and drop the
      magic. */
  method ParseCheck(data: MsgBuffer) returns (ok: bool)
    requires data.Valid() && data.head == 0 && 10 <= data.Available() < WORD
    modifies data
    ensures data.Valid()
    ensures ok <==> CheckValueMatches(old(data.Readable()))
    ensures !ok ==> data.Readable() == old(data.Readable())
    ensures ok ==> data.Readable() == BE32(|old(data.Readable())| - 6) + old(data.Readable())[8..]
  {
    ghost var frame := data.Readable();
    var n := data.Available();
    var stored := data.Fetch(n - 2, 2);
    var checked := data.Fetch(8, n - 8 - 2);
    assert stored.value == frame[n - 2..] && checked.value == frame[8..n - 2];
    var crc := CrcTable.ComputeCrc(checked.value);
    if Read16(stored.value) != crc {
      return false;
    }
    data.Patch(4, BE32(n - 6));
    WithoutMagic(frame, BE32(n - 6));
    data.Consume(4);
    return true;
  }

  /** `parse_check` accepts a frame exactly when the check value of bytes 8 to the end, stored
      value included, is zero. */
  lemma AcceptedIffResidueZero(frame: seq<byte>)
    requires 10 <= |frame|
    ensures CheckValueMatches(frame) <==> Crc(frame[8..]) == ZERO
  {
    var n := |frame|;
    assert frame[8..] == frame[8..n - 2] + [frame[n - 2], frame[n - 1]];
    CrcDetection.ResidueZero(frame[8..n - 2], frame[n - 2], frame[n - 1]);
  }

  /** Changing an accepted frame within sixteen bits in a row, anywhere from offset 8 on, makes it
      rejected. */
  lemma BurstRejected(frame: seq<byte>, other: seq<byte>, k: nat)
    requires 10 <= |frame| == |other| && frame[8..] != other[8..] && CrcDetection.WithinBurst(frame[8..], other[8..], k)
    requires CheckValueMatches(frame)
    ensures !CheckValueMatches(other)
  {
    AcceptedIffResidueZero(frame);
    AcceptedIffResidueZero(other);
    CrcDetection.BurstDetected(frame[8..], other[8..], k);
  }

  /** So does changing one or two adjacent bytes from offset 8 on. */
  lemma CorruptionRejected(frame: seq<byte>, other: seq<byte>, k: nat)
    requires 10 <= |frame| == |other| && 8 <= k <= |frame| - 2
    requires forall i :: 0 <= i < |frame| && i != k && i != k + 1 ==> frame[i] == other[i]
    requires frame != other && CheckValueMatches(frame)
    ensures !CheckValueMatches(other)
  {
    TailsDiffer(frame, other, k);
    CrcDetection.TwoBytesAreABurst(frame[8..], other[8..], k - 8);
    BurstRejected(frame, other, 8 * (k - 8));
  }

  lemma TailsDiffer(frame: seq<byte>, other: seq<byte>, k: nat)
    requires 10 <= |frame| == |other| && 8 <= k <= |frame| - 2 && frame != other
    requires forall i :: 0 <= i < |frame| && i != k && i != k + 1 ==> frame[i] == other[i]
    ensures frame[8..] != other[8..]
    ensures forall i :: 0 <= i < |frame| - 8 && i != k - 8 && i != k - 7 ==> frame[8..][i] == other[8..][i]
  {
    var d := FirstDifference(frame, other);
    assert frame[8..][d - 8] != other[8..][d - 8];
  }

  lemma {:induction false} FirstDifference(a: seq<byte>, b: seq<byte>) returns (d: nat)
    requires |a| == |b| && a != b
    ensures d < |a| && a[d] != b[d]
  {
    if a[0] != b[0] {
      d := 0;
    } else {
      assert a == [a[0]] + a[1..] && b == [b[0]] + b[1..];
      d := FirstDifference(a[1..], b[1..]);
      d := d + 1;
    }
  }

  /** A decoded message: its head, its fields, and the bytes that were not read. */
  datatype Message = Message(len: u32, cmd: u32, fields: seq<Value>, left: seq<byte>)

  function BodyKinds(cmd: u32): Option<seq<Kind>> {
    if cmd == BIND_CMD then Some(BIND_BODY)
    else if cmd == ACT_CMD then Some([])
    else if cmd == DELIVER_MSG_CMD then Some(DELIVER_BODY)
    else None
  }

  /** The body of a frame that passes the check can be read under its command's schema (the readers
      do not look). */
  predicate Decodable(frame: seq<byte>) {
    && HEAD_LEN + 2 <= |frame| < WORD
    && (CheckValueMatches(frame) ==>
          var kinds := BodyKinds(Read32(frame[8..12]));
          kinds.Some? ==> DecodeAll(kinds.value, frame[12..]).Some?)
  }

  /** What a frame says, if it passes the check and has a known command. */
  function Outcome(frame: seq<byte>): Option<Message>
    requires Decodable(frame)
  {
    var cmd := Read32(frame[8..12]);
    if !CheckValueMatches(frame) then None
    else
      match BodyKinds(cmd)
      case None => None
      case Some(kinds) =>
        var (fields, left) := DecodeAll(kinds, frame[12..]).value;
        Some(Message(|frame| - 6, cmd, fields, left))
  }

  /** `handle_read_msg`: check, read the head, then the body its command asks for.  The caller
      recycles the buffer if the check passed, whatever the command. */
  method HandleReadMsg(data: MsgBuffer) returns (msg: Option<Message>, checked: bool)
    requires data.Valid() && data.head == 0 && Decodable(data.Readable())
    modifies data
    ensures data.Valid()
    ensures checked <==> CheckValueMatches(old(data.Readable()))
    ensures msg == Outcome(old(data.Readable()))
  {
    ghost var frame := data.Readable();
    checked := ParseCheck(data);
    if !checked {
      return None, false;
    }
    var len := data.Get(U32);
    assert data.Readable() == frame[8..];
    var cmd := data.Get(U32);
    assert data.Readable() == frame[12..];
    Read32Inverse(|frame| - 6, frame[8..]);
    assert Read32(frame[8..]) == Read32(frame[8..12]);
    match BodyKinds(cmd.n32) {
      case None =>
        return None, true;
      case Some(kinds) =>
        var fields := data.GetAll(kinds);
        return Some(Message(len.n32, cmd.n32, fields, data.store[data.head..data.tail])), true;
    }
  }

  /** The pieces of a request frame. */
  lemma RequestPieces(cmd: u32, body: seq<byte>)
    requires HEAD_LEN + |body| < WORD
    ensures var frame := RequestFrame(cmd, body);
      && |frame| == 14 + |body|
      && frame[8..|frame| - 2] == Payload(cmd, body)
      && frame[8..12] == BE32(cmd) + []
      && frame[12..] == body + frame[|frame| - 2..]
      && frame[|frame| - 2..] == BE16(CrcValue(Payload(cmd, body))) + []
  {
  }

  /** A request whose strings contain no NUL: its frame passes the check, and decoding gives the
      command and the fields back, leaving exactly the two check bytes. */
  lemma RequestComesBack(cmd: u32, fields: seq<Value>)
    requires HEAD_LEN + 2 + |EncodeAll(fields)| < WORD
    requires BodyKinds(cmd) == Some(KindsOf(fields)) && AllClean(fields)
    ensures var frame := RequestFrame(cmd, EncodeAll(fields));
      && Decodable(frame)
      && Outcome(frame) == Some(Message(8 + |EncodeAll(fields)|, cmd, fields, frame[|frame| - 2..]))
  {
    var body := EncodeAll(fields);
    var frame := RequestFrame(cmd, body);
    RequestPieces(cmd, body);
    Read16Inverse(CrcValue(Payload(cmd, body)), []);
    Read32Inverse(cmd, []);
    CodecRoundTrip(fields, frame[|frame| - 2..]);
  }
}
