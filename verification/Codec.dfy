/** The wire format of single fields and of field lists: big-endian integers and NUL-terminated
    strings. */
module Codec {
  import opened Bits
  import opened Sequences

  type u16 = n: int | 0 <= n < 0x1_0000

  type u32 = n: int | 0 <= n < 0x1_0000_0000

  function BE16(v: u16): seq<byte> {
    [v / 256, v % 256]
  }

  function BE32(v: u32): seq<byte> {
    [v / 0x100_0000, v / 0x1_0000 % 256, v / 256 % 256, v % 256]
  }

  function Read16(s: seq<byte>): u16
    requires 2 <= |s|
  {
    256 * (s[0] as int) + (s[1] as int)
  }

  function Read32(s: seq<byte>): u32
    requires 4 <= |s|
  {
    0x100_0000 * (s[0] as int) + 0x1_0000 * (s[1] as int) + 256 * (s[2] as int) + (s[3] as int)
  }

  lemma Read16Inverse(v: u16, rest: seq<byte>)
    ensures Read16(BE16(v) + rest) == v
  {
  }

  lemma Read32Inverse(v: u32, rest: seq<byte>)
    ensures Read32(BE32(v) + rest) == v
  {
    assert (BE32(v) + rest)[..4] == BE32(v);
    FourDigits(v);
  }

  lemma FourDigits(v: u32)
    ensures v == 0x100_0000 * (v / 0x100_0000) + 0x1_0000 * (v / 0x1_0000 % 256) + 256 * (v / 256 % 256) + v % 256
  {
    var a := v / 256;
    var b := a / 256;
    assert v / 0x1_0000 == b;
    assert v / 0x100_0000 == b / 256;
  }

  datatype Kind = U8 | U16 | U32 | Str

  datatype Value =
    | V8(n8: byte)
    | V16(n16: u16)
    | V32(n32: u32)
    | VStr(text: seq<byte>)

  function KindOf(v: Value): Kind {
    match v
    case V8(_) => U8
    case V16(_) => U16
    case V32(_) => U32
    case VStr(_) => Str
  }

  function Encode(v: Value): seq<byte> {
    match v
    case V8(n) => [n]
    case V16(n) => BE16(n)
    case V32(n) => BE32(n)
    case VStr(s) => s + [0]
  }

  function Parts(vs: seq<Value>): (parts: seq<seq<byte>>)
    ensures |parts| == |vs|
    ensures forall i :: 0 <= i < |vs| ==> parts[i] == Encode(vs[i])
  {
    seq(|vs|, i requires 0 <= i < |vs| => Encode(vs[i]))
  }

  function EncodeAll(vs: seq<Value>): seq<byte> {
    Flatten(Parts(vs))
  }

  function KindsOf(vs: seq<Value>): (kinds: seq<Kind>)
    ensures |kinds| == |vs|
    ensures forall i :: 0 <= i < |vs| ==> kinds[i] == KindOf(vs[i])
  {
    seq(|vs|, i requires 0 <= i < |vs| => KindOf(vs[i]))
  }

  /** The only values that do not survive the wire are strings with a NUL in them. */
  predicate Clean(v: Value) {
    v.VStr? ==> 0 !in v.text
  }

  predicate AllClean(vs: seq<Value>) {
    forall v :: v in vs ==> Clean(v)
  }

  /** Length of the string at the front of s, if it is terminated. */
  function StrLen(s: seq<byte>): (n: nat)
    requires 0 in s
    ensures n < |s| && s[n] == 0 && 0 !in s[..n]
  {
    if s[0] == 0 then 0 else 1 + StrLen(s[1..])
  }

  /** Reading one field: its value and the number of bytes it took, if the input holds one. */
  function Decode(kind: Kind, s: seq<byte>): Option<(Value, nat)> {
    match kind
    case U8 => if |s| < 1 then None else Some((V8(s[0]), 1))
    case U16 => if |s| < 2 then None else Some((V16(Read16(s)), 2))
    case U32 => if |s| < 4 then None else Some((V32(Read32(s)), 4))
    case Str => if 0 !in s then None else Some((VStr(s[..StrLen(s)]), StrLen(s) + 1))
  }

  /** Reading a list of fields: the values and what is left. */
  function DecodeAll(kinds: seq<Kind>, s: seq<byte>): (r: Option<(seq<Value>, seq<byte>)>)
    ensures r.Some? ==> |r.value.0| == |kinds| && |r.value.1| <= |s|
  {
    if kinds == [] then Some(([], s))
    else
      match Decode(kinds[0], s)
      case None => None
      case Some((v, n)) =>
        (match DecodeAll(kinds[1..], s[n..])
         case None => None
         case Some((vs, rest)) => Some(([v] + vs, rest)))
  }

  lemma {:induction false} StrLenMinimal(s: seq<byte>, k: nat)
    requires k < |s| && s[k] == 0
    ensures 0 in s && StrLen(s) <= k
  {
    if s[0] != 0 {
      assert s[1..][k - 1] == 0;
      StrLenMinimal(s[1..], k - 1);
    }
  }

  lemma StrLenOfText(text: seq<byte>, rest: seq<byte>)
    ensures var s := text + [0] + rest;
      0 in s && StrLen(s) <= |text| && (StrLen(s) == |text| <==> 0 !in text)
  {
    var s := text + [0] + rest;
    StrLenMinimal(s, |text|);
    var n := StrLen(s);
    if n < |text| {
      assert text[n] == 0;
    } else {
      assert s[..n] == text;
    }
  }

  /** A field comes back exactly when it is not a string with a NUL in it. */
  lemma FieldRoundTrip(v: Value, rest: seq<byte>)
    ensures Decode(KindOf(v), Encode(v) + rest) == Some((v, |Encode(v)|)) <==> Clean(v)
    ensures Decode(KindOf(v), Encode(v) + rest).Some?
    ensures Decode(KindOf(v), Encode(v) + rest).value.0 == v <==> Clean(v)
  {
    match v
    case V8(_) =>
    case V16(n) => Read16Inverse(n, rest);
    case V32(n) => Read32Inverse(n, rest);
    case VStr(text) =>
      var s := text + [0] + rest;
      StrLenOfText(text, rest);
      if StrLen(s) == |text| {
        assert s[..|text|] == text;
      } else {
        assert |s[..StrLen(s)]| < |text|;
      }
  }

  lemma EncodeAllAppend(vs: seq<Value>, ws: seq<Value>)
    ensures EncodeAll(vs + ws) == EncodeAll(vs) + EncodeAll(ws)
  {
    assert Parts(vs + ws) == Parts(vs) + Parts(ws);
    FlattenConcat(Parts(vs), Parts(ws));
  }

  lemma EncodeOne(v: Value)
    ensures EncodeAll([v]) == Encode(v)
  {
    assert Parts([v]) == [Encode(v)];
    FlattenOne(Encode(v));
  }

  lemma EncodeAllNext(vs: seq<Value>, i: nat)
    requires i < |vs|
    ensures EncodeAll(vs[..i + 1]) == EncodeAll(vs[..i]) + Encode(vs[i])
  {
    assert vs[..i + 1] == vs[..i] + [vs[i]];
    EncodeAllAppend(vs[..i], [vs[i]]);
    EncodeOne(vs[i]);
  }

  lemma EncodeAllStep(before: seq<byte>, vs: seq<Value>, i: nat)
    requires i < |vs|
    ensures before + EncodeAll(vs[..i]) + Encode(vs[i]) == before + EncodeAll(vs[..i + 1])
    ensures |EncodeAll(vs[..i + 1])| == |EncodeAll(vs[..i])| + |Encode(vs[i])|
  {
    EncodeAllNext(vs, i);
    assert before + EncodeAll(vs[..i]) + Encode(vs[i]) == before + (EncodeAll(vs[..i]) + Encode(vs[i]));
  }

  lemma EncodeAllFront(vs: seq<Value>)
    requires vs != []
    ensures EncodeAll(vs) == Encode(vs[0]) + EncodeAll(vs[1..])
  {
    EncodeOne(vs[0]);
    EncodeAllAppend([vs[0]], vs[1..]);
    assert vs == [vs[0]] + vs[1..];
  }

  /** Once the first field is read, the rest decides. */
  lemma DecodeCons(kinds: seq<Kind>, s: seq<byte>, vs: seq<Value>, rest: seq<byte>)
    requires kinds != [] && vs != [] && Decode(kinds[0], s).Some?
    ensures var (v, n) := Decode(kinds[0], s).value;
      DecodeAll(kinds, s) == Some((vs, rest)) <==> v == vs[0] && DecodeAll(kinds[1..], s[n..]) == Some((vs[1..], rest))
  {
    var (v, n) := Decode(kinds[0], s).value;
    var inner := DecodeAll(kinds[1..], s[n..]);
    if inner.Some? {
      assert ([v] + inner.value.0)[1..] == inner.value.0;
      assert vs == [vs[0]] + vs[1..];
    }
  }

  /** One step of reading the list from position i. */
  lemma DecodeNext(kinds: seq<Kind>, i: nat, s: seq<byte>)
    requires i < |kinds| && DecodeAll(kinds[i..], s).Some?
    ensures Decode(kinds[i], s).Some?
    ensures var (v, n) := Decode(kinds[i], s).value;
      && DecodeAll(kinds[i + 1..], s[n..]).Some?
      && DecodeAll(kinds[i..], s).value.0 == [v] + DecodeAll(kinds[i + 1..], s[n..]).value.0
      && DecodeAll(kinds[i..], s).value.1 == DecodeAll(kinds[i + 1..], s[n..]).value.1
  {
    assert kinds[i..][1..] == kinds[i + 1..];
  }

  /** Reading under the schema that was written returns the values and leaves what followed them,
      exactly when no string contains a NUL. */
  lemma {:induction false} CodecRoundTrip(vs: seq<Value>, rest: seq<byte>)
    ensures RoundTripExact(vs, rest)
  {
    if vs == [] {
      assert EncodeAll(vs) + rest == rest;
    } else {
      CodecRoundTrip(vs[1..], rest);
      OneMoreField(vs, rest);
    }
  }

  predicate RoundTripExact(vs: seq<Value>, rest: seq<byte>) {
    DecodeAll(KindsOf(vs), EncodeAll(vs) + rest) == Some((vs, rest)) <==> AllClean(vs)
  }

  lemma OneMoreField(vs: seq<Value>, rest: seq<byte>)
    requires vs != [] && RoundTripExact(vs[1..], rest)
    ensures RoundTripExact(vs, rest)
  {
    var v, more := vs[0], vs[1..];
    var s, tail := EncodeAll(vs) + rest, EncodeAll(more) + rest;
    EncodeAllFront(vs);
    assert s == Encode(v) + tail;
    assert KindsOf(vs)[1..] == KindsOf(more);
    FieldRoundTrip(v, tail);
    DecodeCons(KindsOf(vs), s, vs, rest);
    assert s[|Encode(v)|..] == tail;
    assert vs == [v] + more;
    assert AllClean(vs) <==> Clean(v) && AllClean(more);
  }
}
