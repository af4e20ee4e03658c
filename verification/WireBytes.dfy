/** The wire protocol in bytes and numbers: what frames, requests and commands look like, without the
    names the other modules give to layouts and schemas. */
module WireBytes {
  import Arithmetic
  import opened Bits
  import opened Sequences
  import opened Codec
  import Crc16
  import CrcTable
  import CrcDetection
  import opened Protocol
  import opened Framing
  import opened Service

  // ---------------------------------------------------------------- integers

  /** A 32-bit number from its bytes, the highest first. */
  function Word(a: int, b: int, c: int, d: int): int {
    0x100_0000 * a + 0x1_0000 * b + 0x100 * c + d
  }

  lemma Digits(a: byte, b: byte, c: byte, d: byte)
    ensures var n := Word(a, b, c, d);
      0 <= n < 0x1_0000_0000 && n / 0x100_0000 == a && n / 0x1_0000 % 256 == b && n / 256 % 256 == c && n % 256 == d
  {
    var n := Word(a, b, c, d);
    Arithmetic.QuotientUnique(n, 256, Word(0, a, b, c), d);
    Arithmetic.QuotientUnique(n, 0x1_0000, Word(0, 0, a, b), Word(0, 0, c, d));
    Arithmetic.QuotientUnique(n, 0x100_0000, a, Word(0, b, c, d));
    Arithmetic.QuotientUnique(Word(0, a, b, c), 256, Word(0, 0, a, b), c);
    Arithmetic.QuotientUnique(Word(0, 0, a, b), 256, a, b);
  }

  /** Integers are big-endian, written and read. */
  lemma BigEndian(a: byte, b: byte, c: byte, d: byte)
    ensures 0 <= Word(a, b, c, d) < 0x1_0000_0000 && 0 <= Word(0, 0, c, d) < 0x1_0000
    ensures BE32(Word(a, b, c, d)) == [a, b, c, d] && BE16(Word(0, 0, c, d)) == [c, d]
  {
    Digits(a, b, c, d);
    Digits(0, 0, c, d);
  }

  lemma BigEndianRead(a: byte, b: byte, c: byte, d: byte, rest: seq<byte>)
    ensures Read32([a, b, c, d] + rest) == Word(a, b, c, d) && Read16([c, d] + rest) == Word(0, 0, c, d)
  {
  }

  lemma FourBytes(s: seq<byte>)
    requires 4 <= |s|
    ensures s[..4] == [s[0], s[1], s[2], s[3]]
    ensures Read32(s) == Word(s[0], s[1], s[2], s[3])
  {
  }

  // ---------------------------------------------------------------- frames

  /** A header is accepted just if it begins with the magic and announces 14 bytes to 2 MiB in all. */
  lemma HeaderAccepted(s: seq<byte>)
    requires 12 <= |s|
    ensures PackLen(s) == (Word(s[4], s[5], s[6], s[7]) + 2) % 0x1_0000_0000
    ensures HeaderOk(s) <==>
      && s[0] == 0xF7 && s[1] == 0xBA && s[2] == 0xA1 && s[3] == 0xC9
      && 14 <= PackLen(s) <= 2097152
  {
    FourBytes(s);
    FourBytes(s[4..8]);
  }

  /** A request is a frame just if it is no longer than 2 MiB. */
  lemma RequestLimit(cmd: u32, body: seq<byte>)
    requires 12 + |body| < 0x1_0000_0000
    ensures IsFrame(RequestFrame(cmd, body)) <==> 14 + |body| <= 2097152
  {
    WordBehindMagic(HEAD_LEN + |body|, Payload(cmd, body), BE16(Crc16.CrcValue(Payload(cmd, body))));
    FrameByHeader(RequestFrame(cmd, body), HEAD_LEN + |body|);
  }

  lemma FrameByHeader(f: seq<byte>, n: u32)
    requires 12 <= n && |f| == n + 2 && f[..4] == MAGIC && Read32(f[4..8]) == n
    ensures IsFrame(f) <==> n + 2 <= 2097152
  {
  }

  lemma NextZero(front: seq<byte>)
    requires Crc16.Crc(front) == Crc16.ZERO
    ensures Crc16.Crc(front + [0]) == Crc16.ZERO
  {
    FrontOf(front, 0);
    ZeroBits(8);
    Crc16.XorAlgebra(Crc16.ZERO, Crc16.ZERO, Crc16.ZERO);
    assert Crc16.HighByte(0) == Crc16.ZERO;
    Crc16.StepsInjective(Crc16.ZERO, 8);
  }

  /** After zeros, the check value of one more byte is its table entry. */
  lemma OneByteCheck(front: seq<byte>, b: byte)
    requires Crc16.Crc(front) == Crc16.ZERO
    ensures Crc16.CrcValue(front + [b]) == CrcTable.Table(b)
  {
    OneByteRegister(front, b);
    CrcTable.TableIsDivision(b);
    SameValue(front + [b], b);
  }

  lemma OneByteRegister(front: seq<byte>, b: byte)
    requires Crc16.Crc(front) == Crc16.ZERO
    ensures Crc16.Crc(front + [b]) == Crc16.Steps(Crc16.HighByte(b), 8)
  {
    FrontOf(front, b);
    Crc16.XorAlgebra(Crc16.HighByte(b), Crc16.ZERO, Crc16.ZERO);
  }

  lemma SameValue(data: seq<byte>, b: byte)
    requires Crc16.Crc(data) == Crc16.Steps(Crc16.HighByte(b), 8)
    ensures Crc16.CrcValue(data) == CrcTable.Ideal(b)
  {
    BitsOfNum(Crc16.Crc(data));
    CrcTable.SameBits(Crc16.CrcValue(data), CrcTable.Ideal(b));
  }

  lemma {:induction false} ZerosCheck(zeros: seq<byte>)
    requires forall i :: 0 <= i < |zeros| ==> zeros[i] == 0
    ensures Crc16.Crc(zeros) == Crc16.ZERO
  {
    if zeros != [] {
      ZerosCheck(zeros[..|zeros| - 1]);
      NextZero(zeros[..|zeros| - 1]);
      FrontAndLast(zeros);
    }
  }

  lemma KeepaliveCheck(payload: seq<byte>)
    requires payload == [0, 0, 0, 2]
    ensures Crc16.CrcValue(payload) == 0x2042
  {
    ZerosCheck(payload[..3]);
    OneByteCheck(payload[..3], 2);
    assert payload[..3] + [2] == payload;
    SecondEntry();
  }

  lemma SecondEntry()
    ensures CrcTable.Table(2) == 0x2042
  {
  }

  /** The keepalive request, byte for byte. */
  lemma KeepaliveBytes()
    ensures RequestFrame(ACT_CMD, [])
      == [0xF7, 0xBA, 0xA1, 0xC9, 0, 0, 0, 12, 0, 0, 0, 2, 0x20, 0x42]
  {
    KeepaliveWords();
    var payload := Payload(ACT_CMD, []);
    assert payload == [0, 0, 0, 2];
    KeepaliveCheck(payload);
    assert RequestFrame(ACT_CMD, []) == MAGIC + BE32(12) + payload + BE16(0x2042);
  }

  lemma KeepaliveWords()
    ensures BE32(12) == [0, 0, 0, 12] && BE32(2) == [0, 0, 0, 2] && BE16(0x2042) == [0x20, 0x42]
  {
    BigEndian(0, 0, 0, 12);
    BigEndian(0, 0, 0, 2);
    BigEndian(0, 0, 0x20, 0x42);
  }

  // ---------------------------------------------------------------- what each command carries

  /** A frame that passes the check: eight bytes of magic and length, the command, the rest. */
  predicate Checked(frame: seq<byte>, command: seq<byte>, rest: seq<byte>) {
    && |command| == 4 && 2 <= |rest| && |frame| == 12 + |rest| < 0x1_0000_0000
    && frame[8..12] == command && frame[12..] == rest
    && CheckValueMatches(frame)
  }

  lemma CommandWord(frame: seq<byte>, d: byte, rest: seq<byte>)
    requires Checked(frame, [0, 0, 0, d], rest)
    ensures Read32(frame[8..12]) == d
  {
    FourBytes(frame[8..12]);
  }

  lemma FieldsComeBack(frame: seq<byte>, d: byte, fields: seq<Value>, body: seq<byte>, check: seq<byte>)
    requires Checked(frame, [0, 0, 0, d], body + check) && |check| == 2
    requires EncodeAll(fields) == body && AllClean(fields) && BodyKinds(d) == Some(KindsOf(fields))
    ensures Decodable(frame) && Outcome(frame) == Some(Message(|frame| - 6, d, fields, check))
  {
    CommandWord(frame, d, body + check);
    CodecRoundTrip(fields, check);
  }

  /** A bind request carries one string, the uid. */
  lemma BindCarries(frame: seq<byte>, uid: seq<byte>, check: seq<byte>)
    requires Checked(frame, [0, 0, 0, 1], uid + [0] + check) && 0 !in uid && |check| == 2
    ensures Decodable(frame) && Outcome(frame) == Some(Message(|frame| - 6, 1, [VStr(uid)], check))
  {
    EncodeOne(VStr(uid));
    assert KindsOf([VStr(uid)]) == [Str];
    FieldsComeBack(frame, 1, [VStr(uid)], uid + [0], check);
  }

  /** A keepalive carries nothing; whatever follows its head is not read. */
  lemma KeepaliveCarriesNothing(frame: seq<byte>, rest: seq<byte>)
    requires Checked(frame, [0, 0, 0, 2], rest)
    ensures Decodable(frame) && Outcome(frame) == Some(Message(|frame| - 6, 2, [], rest))
  {
    CommandWord(frame, 2, rest);
  }

  /** The fields of a deliver request. */
  datatype Deliver = Deliver(
    agentId: seq<byte>, msgId: seq<byte>, tokenId: seq<byte>, svcType: u32,
    contentType: byte, timestamp: seq<byte>, from: seq<byte>, counts: u32,
    to: seq<byte>, hash: seq<byte>, contentLength: u32, contentText: seq<byte>,
    contentUrl: seq<byte>, remark: seq<byte>, fileName: seq<byte>, isReview: byte,
    sessionId: seq<byte>, kernelId: seq<byte>, textIsSync: u32)

  function Four(n: u32): seq<byte> {
    [n / 0x100_0000, n / 0x1_0000 % 0x100, n / 0x100 % 0x100, n % 0x100]
  }

  /** Its body: strings end with a NUL, numbers are one or four bytes. */
  function DeliverBytes(d: Deliver): seq<byte> {
    (d.agentId + [0] + (d.msgId + [0]) + (d.tokenId + [0]) + Four(d.svcType))
    + ([d.contentType] + (d.timestamp + [0]) + (d.from + [0]) + Four(d.counts))
    + (d.to + [0] + (d.hash + [0]) + Four(d.contentLength) + (d.contentText + [0]))
    + (d.contentUrl + [0] + (d.remark + [0]) + (d.fileName + [0]) + [d.isReview])
    + (d.sessionId + [0] + (d.kernelId + [0]) + Four(d.textIsSync))
  }

  function DeliverFields(d: Deliver): seq<Value> {
    [VStr(d.agentId), VStr(d.msgId), VStr(d.tokenId), V32(d.svcType)]
    + [V8(d.contentType), VStr(d.timestamp), VStr(d.from), V32(d.counts)]
    + [VStr(d.to), VStr(d.hash), V32(d.contentLength), VStr(d.contentText)]
    + [VStr(d.contentUrl), VStr(d.remark), VStr(d.fileName), V8(d.isReview)]
    + [VStr(d.sessionId), VStr(d.kernelId), V32(d.textIsSync)]
  }

  lemma EncodeThree(a: Value, b: Value, c: Value)
    ensures EncodeAll([a, b, c]) == Encode(a) + Encode(b) + Encode(c)
  {
    EncodeAllAppend([a, b], [c]);
    EncodeAllAppend([a], [b]);
    assert [a] + [b] == [a, b] && [a, b] + [c] == [a, b, c];
    EncodeOne(a);
    EncodeOne(b);
    EncodeOne(c);
  }

  lemma EncodeFour(a: Value, b: Value, c: Value, d: Value)
    ensures EncodeAll([a, b, c, d]) == Encode(a) + Encode(b) + Encode(c) + Encode(d)
  {
    EncodeThree(a, b, c);
    EncodeAllAppend([a, b, c], [d]);
    assert [a, b, c] + [d] == [a, b, c, d];
    EncodeOne(d);
  }

  lemma DeliverEncoding(d: Deliver)
    ensures EncodeAll(DeliverFields(d)) == DeliverBytes(d)
  {
    var a := [VStr(d.agentId), VStr(d.msgId), VStr(d.tokenId), V32(d.svcType)];
    var b := [V8(d.contentType), VStr(d.timestamp), VStr(d.from), V32(d.counts)];
    var c := [VStr(d.to), VStr(d.hash), V32(d.contentLength), VStr(d.contentText)];
    var e := [VStr(d.contentUrl), VStr(d.remark), VStr(d.fileName), V8(d.isReview)];
    var f := [VStr(d.sessionId), VStr(d.kernelId), V32(d.textIsSync)];
    EncodeFour(a[0], a[1], a[2], a[3]);
    EncodeFour(b[0], b[1], b[2], b[3]);
    EncodeFour(c[0], c[1], c[2], c[3]);
    EncodeFour(e[0], e[1], e[2], e[3]);
    EncodeThree(f[0], f[1], f[2]);
    EncodeAllAppend(a, b);
    EncodeAllAppend(a + b, c);
    EncodeAllAppend(a + b + c, e);
    EncodeAllAppend(a + b + c + e, f);
  }

  predicate NulFree(d: Deliver) {
    && 0 !in d.agentId && 0 !in d.msgId && 0 !in d.tokenId && 0 !in d.timestamp && 0 !in d.from
    && 0 !in d.to && 0 !in d.hash && 0 !in d.contentText && 0 !in d.contentUrl && 0 !in d.remark
    && 0 !in d.fileName && 0 !in d.sessionId && 0 !in d.kernelId
  }

  lemma DeliverKinds(d: Deliver)
    ensures BodyKinds(3) == Some(KindsOf(DeliverFields(d)))
  {
    assert KindsOf(DeliverFields(d)) == DELIVER_BODY;
  }

  /** A deliver request carries its nineteen fields, in this order. */
  lemma DeliverCarries(frame: seq<byte>, d: Deliver, check: seq<byte>)
    requires Checked(frame, [0, 0, 0, 3], DeliverBytes(d) + check) && NulFree(d) && |check| == 2
    ensures Decodable(frame) && Outcome(frame) == Some(Message(|frame| - 6, 3, DeliverFields(d), check))
  {
    DeliverEncoding(d);
    DeliverKinds(d);
    DeliverClean(d);
    FieldsComeBack(frame, 3, DeliverFields(d), DeliverBytes(d), check);
  }

  /** No other command carries a message. */
  lemma OthersCarryNothing(frame: seq<byte>)
    requires 14 <= |frame| < 0x1_0000_0000
    requires frame[8..12] != [0, 0, 0, 1] && frame[8..12] != [0, 0, 0, 2] && frame[8..12] != [0, 0, 0, 3]
    ensures Decodable(frame) && Outcome(frame) == None
  {
    FourBytes(frame[8..12]);
    assert frame[8..12] == frame[8..12][..4];
  }

  // ---------------------------------------------------------------- what a client may send

  /** The requests the service takes are binds, keepalives and delivers with NUL-free strings, of at most
      2 MiB. */
  lemma LegalRequests(uid: seq<byte>, d: Deliver)
    ensures Legal(Request(1, [VStr(uid)])) <==> 0 !in uid && 15 + |uid| <= 2097152
    ensures Legal(Request(2, []))
    ensures Legal(Request(3, DeliverFields(d))) <==> NulFree(d) && 14 + |DeliverBytes(d)| <= 2097152
    ensures forall r: Request :: Legal(r) ==> r.cmd == 1 || r.cmd == 2 || r.cmd == 3
  {
    EncodeOne(VStr(uid));
    assert KindsOf([VStr(uid)]) == [Str];
    assert VStr(uid) in [VStr(uid)];
    DeliverEncoding(d);
    DeliverKinds(d);
    DeliverClean(d);
  }

  lemma DeliverClean(d: Deliver)
    ensures AllClean(DeliverFields(d)) <==> NulFree(d)
  {
    var fields := DeliverFields(d);
    if AllClean(fields) {
      assert forall i :: 0 <= i < 19 ==> fields[i] in fields && Clean(fields[i]);
      assert Clean(fields[0]) && Clean(fields[1]) && Clean(fields[2]) && Clean(fields[5]) && Clean(fields[6]);
      assert Clean(fields[8]) && Clean(fields[9]) && Clean(fields[11]) && Clean(fields[12]) && Clean(fields[13]);
      assert Clean(fields[14]) && Clean(fields[16]) && Clean(fields[17]);
    }
  }
}
