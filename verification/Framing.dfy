/** What a connection's byte stream means: a pure split into frames by the length word. */
module Framing {
  import Arithmetic
  import opened Bits
  import Sequences
  import opened Codec
  import opened Protocol
  import Crc16

  const MAX_PACKAGE: nat := 2 * 1024 * 1024

  /** Size of the frame that starts with s; the sum is a 32-bit one. */
  function PackLen(s: seq<byte>): nat
    requires HEAD_LEN <= |s|
  {
    (Read32(s[4..8]) + 2) % Arithmetic.WORD
  }

  predicate HeaderOk(s: seq<byte>)
    requires HEAD_LEN <= |s|
  {
    s[..4] == MAGIC && HEAD_LEN + 2 <= PackLen(s) <= MAX_PACKAGE
  }

  /** Frames in order, the bytes after the last of them, and whether these are a bad header. */
  datatype Feed = Feed(frames: seq<seq<byte>>, pending: seq<byte>, closed: bool)

  /** The frames of a, then those of b. */
  function Join(a: Feed, b: Feed): Feed {
    Feed(a.frames + b.frames, b.pending, b.closed)
  }

  function Split(s: seq<byte>): Feed {
    if |s| < HEAD_LEN then Feed([], s, false)
    else if !HeaderOk(s) then Feed([], s[..HEAD_LEN], true)
    else if |s| < PackLen(s) then Feed([], s, false)
    else Join(Feed([s[..PackLen(s)]], [], false), Split(s[PackLen(s)..]))
  }

  /** Bytes still missing before the next decision can be taken. */
  function Missing(pending: seq<byte>): int {
    if |pending| < HEAD_LEN then HEAD_LEN - |pending| else PackLen(pending) - |pending|
  }

  /** A frame is as long as its own length word says, and within the limits. */
  predicate IsFrame(f: seq<byte>) {
    HEAD_LEN <= |f| && HeaderOk(f) && |f| == PackLen(f)
  }

  /** More bytes only change what the frame's header does not yet determine. */
  lemma HeaderStable(s: seq<byte>, more: seq<byte>)
    requires HEAD_LEN <= |s|
    ensures PackLen(s + more) == PackLen(s) && HeaderOk(s + more) == HeaderOk(s)
    ensures (s + more)[..HEAD_LEN] == s[..HEAD_LEN]
  {
    assert (s + more)[4..8] == s[4..8];
    assert (s + more)[..4] == s[..4];
  }

  lemma JoinLaws(a: Feed, b: Feed, c: Feed)
    ensures Join(Join(a, b), c) == Join(a, Join(b, c))
    ensures a.frames == [] ==> Join(a, b) == b
  {
    assert a.frames + b.frames + c.frames == a.frames + (b.frames + c.frames);
    assert [] + b.frames == b.frames;
  }

  /** One whole frame at the front. */
  lemma SplitWhole(s: seq<byte>, n: nat, more: seq<byte>)
    requires HEAD_LEN <= |s| && HeaderOk(s) && n == PackLen(s) <= |s|
    ensures Split(s + more) == Join(Feed([s[..n]], [], false), Split(s[n..] + more))
  {
    HeaderStable(s, more);
    assert (s + more)[n..] == s[n..] + more;
    assert (s + more)[..n] == s[..n];
  }

  /** Splitting can be resumed from the pending bytes; after a bad header it says no more. */
  lemma {:induction false} SplitAppend(s: seq<byte>, more: seq<byte>)
    ensures var a := Split(s);
      Split(s + more) == if a.closed then a else Join(a, Split(a.pending + more))
    decreases |s|
  {
    var a := Split(s);
    if HEAD_LEN <= |s| && HeaderOk(s) && PackLen(s) <= |s| {
      var n := PackLen(s);
      var rest := Split(s[n..]);
      SplitAppend(s[n..], more);
      SplitWhole(s, n, more);
      if !rest.closed {
        JoinLaws(Feed([s[..n]], [], false), rest, Split(rest.pending + more));
      }
    } else if !a.closed {
      JoinLaws(a, Split(a.pending + more), a);
    } else {
      HeaderStable(s, more);
    }
  }

  /** The bytes a split accounts for. */
  function Bytes(a: Feed): seq<byte> {
    Sequences.Flatten(a.frames) + a.pending
  }

  lemma JoinBytes(frame: seq<byte>, b: Feed)
    ensures Bytes(Join(Feed([frame], [], false), b)) == frame + Bytes(b)
  {
    Sequences.FlattenConcat([frame], b.frames);
    Sequences.FlattenOne(frame);
  }

  /** Nothing is lost or invented: the frames and the pending bytes, put together, are the stream,
      or the start of it if a bad header stopped the split. */
  lemma {:induction false} SplitConserves(s: seq<byte>)
    ensures Bytes(Split(s)) <= s
    ensures !Split(s).closed ==> Bytes(Split(s)) == s
  {
    if HEAD_LEN <= |s| && HeaderOk(s) && PackLen(s) <= |s| {
      var n := PackLen(s);
      SplitConserves(s[n..]);
      JoinBytes(s[..n], Split(s[n..]));
      assert s == s[..n] + s[n..];
    } else {
      var a := Split(s);
      assert Bytes(a) == a.pending;
    }
  }

  /** Every frame is within the limits, and what is pending is short of a decision. */
  lemma {:induction false} SplitShape(s: seq<byte>)
    ensures forall f :: f in Split(s).frames ==> IsFrame(f)
    ensures !Split(s).closed ==>
      var pending := Split(s).pending;
      && 0 < Missing(pending) <= MAX_PACKAGE
      && (HEAD_LEN <= |pending| ==> HeaderOk(pending))
    ensures Split(s).closed ==> |Split(s).pending| == HEAD_LEN && !HeaderOk(Split(s).pending)
  {
    if HEAD_LEN <= |s| {
      var n := PackLen(s);
      HeaderStable(s[..HEAD_LEN], s[HEAD_LEN..]);
      assert s[..HEAD_LEN] + s[HEAD_LEN..] == s;
      if HeaderOk(s) && n <= |s| {
        SplitShape(s[n..]);
        HeaderStable(s[..n], s[n..]);
        assert s[..n] + s[n..] == s;
      }
    }
  }

  lemma SplitOfFrame(f: seq<byte>)
    requires IsFrame(f)
    ensures Split(f) == Feed([f], [], false)
  {
    SplitWhole(f, |f|, []);
    assert f + [] == f;
    assert f[..|f|] == f;
    assert f[|f|..] + [] == [];
    assert [f] + [] == [f];
  }

  /** A stream made of frames is split into exactly these. */
  lemma {:induction false} SplitOfFrames(frames: seq<seq<byte>>)
    requires forall f :: f in frames ==> IsFrame(f)
    ensures Split(Sequences.Flatten(frames)) == Feed(frames, [], false)
  {
    if frames != [] {
      var front, last := frames[..|frames| - 1], frames[|frames| - 1];
      SplitOfFrames(front);
      SplitAppend(Sequences.Flatten(front), last);
      assert [] + last == last;
      SplitOfFrame(last);
      assert frames == front + [last];
    }
  }

  /** What has been split off stays split off. */
  lemma SplitGrows(s: seq<byte>, more: seq<byte>)
    ensures Split(s).frames <= Split(s + more).frames
    ensures Split(s).closed ==> Split(s + more) == Split(s)
  {
    SplitAppend(s, more);
  }

  // ---------------------------------------------------------------- one read

  datatype PackageStat = NeedHead | NeedBody | Whole | Incorrect

  /** What the bytes received since the last frame call for. */
  function Verdict(s: seq<byte>): PackageStat {
    if |s| < HEAD_LEN then NeedHead
    else if !HeaderOk(s) then Incorrect
    else if |s| < PackLen(s) then NeedBody
    else Whole
  }

  /** A read of at most the missing bytes never goes past a frame: it completes one exactly, ends at
      a bad header, or leaves bytes missing, fewer by what it brought unless the header has just
      become known. */
  lemma ReadStep(pending: seq<byte>, data: seq<byte>)
    requires HEAD_LEN <= |pending| ==> HeaderOk(pending)
    requires 1 <= |data| <= Missing(pending)
    ensures var s := pending + data;
      match Verdict(s)
      case Whole => IsFrame(s) && Split(s) == Feed([s], [], false)
      case Incorrect => |s| == HEAD_LEN && Split(s) == Feed([], s, true)
      case _ =>
        && Split(s) == Feed([], s, false)
        && 0 < Missing(s)
        && (|data| < Missing(pending) ==> Missing(s) == Missing(pending) - |data|)
  {
    var s := pending + data;
    if HEAD_LEN <= |pending| {
      HeaderStable(pending, data);
      if Verdict(s).Whole? {
        SplitOfFrame(s);
      }
    } else {
      assert s[..|s|] == s;
    }
  }

  // ---------------------------------------------------------------- requests and responses

  lemma RequestHeader(cmd: u32, body: seq<byte>)
    requires HEAD_LEN + 2 + |body| <= MAX_PACKAGE
    ensures var frame := RequestFrame(cmd, body);
      |frame| == HEAD_LEN + 2 + |body| && frame[..4] == MAGIC && Read32(frame[4..8]) == HEAD_LEN + |body|
  {
    WordBehindMagic(HEAD_LEN + |body|, Payload(cmd, body), BE16(Crc16.CrcValue(Payload(cmd, body))));
  }

  lemma WordBehindMagic(n: u32, payload: seq<byte>, check: seq<byte>)
    ensures var frame := MAGIC + BE32(n) + payload + check;
      |frame| == 8 + |payload| + |check| && frame[..4] == MAGIC && Read32(frame[4..8]) == n
  {
    var frame := MAGIC + BE32(n) + payload + check;
    assert frame[4..8] == BE32(n) + [];
    Read32Inverse(n, []);
  }

  /** A request of legal size is a frame. */
  lemma RequestIsFrame(cmd: u32, body: seq<byte>)
    requires HEAD_LEN + 2 + |body| <= MAX_PACKAGE
    ensures IsFrame(RequestFrame(cmd, body))
  {
    RequestHeader(cmd, body);
  }

  lemma ResponseHeader(cmd: u32, body: seq<byte>)
    requires 10 + |body| <= MAX_PACKAGE
    ensures var response := ResponseFrame(cmd, body);
      |response| == 14 + |body| && response[..4] == MAGIC && Read32(response[4..8]) == 8 + |body|
  {
    var payload := Payload(cmd, body);
    WordBehindMagic((8 + |body|) % Arithmetic.WORD, payload, BE16(Crc16.CrcValue(payload[..CheckedBytes(|body|)])));
  }

  /** A length word that is too small by less than a header. */
  lemma SplitShort(s: seq<byte>, n: nat)
    requires HEAD_LEN <= |s| && s[..4] == MAGIC && n == PackLen(s) <= |s| < n + HEAD_LEN && n <= MAX_PACKAGE
    ensures Split(s) == if n < HEAD_LEN + 2 then Feed([], s[..HEAD_LEN], true) else Feed([s[..n]], s[n..], false)
  {
    if HEAD_LEN + 2 <= n {
      SplitWhole(s, n, []);
      assert s + [] == s && s[n..] + [] == s[n..];
      assert [s[..n]] + [] == [s[..n]];
    }
  }

  /** A response of this program is no frame to its own receiver: with a body of less than four
      bytes the header is refused, otherwise the frame is cut four bytes short. */
  lemma ResponseIsNotAFrame(cmd: u32, body: seq<byte>)
    requires 10 + |body| <= MAX_PACKAGE
    ensures var response := ResponseFrame(cmd, body);
      Split(response) == if |body| < 4 then Feed([], response[..HEAD_LEN], true)
                         else Feed([response[..|response| - 4]], response[|response| - 4..], false)
  {
    ResponseHeader(cmd, body);
    SplitShort(ResponseFrame(cmd, body), 10 + |body|);
  }

  /** A response cut four bytes short passes the check just if the word four bytes before the end of its
      body happens to be the check value of the payload without its last four bytes. */
  lemma CutResponseChecked(cmd: u32, body: seq<byte>)
    requires 4 <= |body| && 10 + |body| <= MAX_PACKAGE
    ensures var response := ResponseFrame(cmd, body);
      && 10 <= |response| - 4
      && (CheckValueMatches(response[..|response| - 4])
          <==> Read16(body[|body| - 4..]) == Crc16.CrcValue(Payload(cmd, body)[..|body|]))
  {
    var n, payload := |body|, Payload(cmd, body);
    CutPieces(BE32((8 + n) % Arithmetic.WORD), cmd, body, BE16(Crc16.CrcValue(payload[..CheckedBytes(n)])));
  }

  lemma CutPieces(word: seq<byte>, cmd: u32, body: seq<byte>, check: seq<byte>)
    requires |word| == 4 && 4 <= |body| && |check| == 2
    ensures var response, n := MAGIC + word + Payload(cmd, body) + check, |body|;
      var cut := response[..|response| - 4];
      && |cut| == 10 + n
      && cut[8..|cut| - 2] == Payload(cmd, body)[..n]
      && Read16(cut[|cut| - 2..]) == Read16(body[n - 4..])
  {
    var front := MAGIC + word;
    var response, n := front + Payload(cmd, body) + check, |body|;
    assert response[8..8 + n] == Payload(cmd, body)[..n];
    assert response[8 + n..10 + n] == body[n - 4..n - 2];
  }
}
