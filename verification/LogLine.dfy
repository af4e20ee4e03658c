/** A log line: arguments encoded behind type tags in a buffer that starts on the stack and moves to the
    heap when it grows, and printed from there.  Object sizes are those of a 64-bit platform. */
module LogLine {
  import Arithmetic
  import opened Bits
  import Codec
  import opened Sequences

  type u64 = n: int | 0 <= n < 0x1_0000_0000_0000_0000

  type i32 = n: int | -0x8000_0000 <= n < 0x8000_0000

  type i64 = n: int | -0x8000_0000_0000_0000 <= n < 0x8000_0000_0000_0000

  const STACK_SIZE: nat := 224

  const FIRST_HEAP_SIZE: nat := 512

  const HEADER_SIZE: nat := 37

  // ---------------------------------------------------------------- what is logged

  /** An argument of `<<`.  A literal is kept by its address, a floating-point number by its bits; a
      string may be a null pointer. */
  datatype Arg =
    | Char(c: byte)
    | U32(n32: Codec.u32)
    | U64(n64: u64)
    | I32(s32: i32)
    | I64(s64: i64)
    | Double(bits: u64)
    | Literal(address: u64)
    | Cstr(text: seq<byte>)
    | NullCstr

  datatype Header = Header(time: u64, thread: u64, file: u64, func: u64, line: Codec.u32, level: byte)

  /** One thing given to the output stream.  `Text` is the literal at an address. */
  datatype Piece =
    | Byte(b: byte)
    | Decimal(n: int)
    | Real(bits: u64)
    | Text(address: u64)
    | Time(t: u64)
    | Thread(id: u64)
    | Fixed(s: string)
    | Endl
    | Flush

  function FlatMap<A, B>(f: A -> seq<B>, s: seq<A>): seq<B> {
    if s == [] then [] else FlatMap(f, s[..|s| - 1]) + f(s[|s| - 1])
  }

  predicate FrontFirst<A, B(==)>(f: A -> seq<B>, s: seq<A>)
    requires s != []
  {
    FlatMap(f, s) == f(s[0]) + FlatMap(f, s[1..])
  }

  lemma {:induction false} FlatMapFront<A, B>(f: A -> seq<B>, s: seq<A>)
    requires s != []
    ensures FrontFirst(f, s)
  {
    var n := |s| - 1;
    if n == 0 {
      assert s[..0] == [] && s[1..] == [];
    } else {
      FlatMapFront(f, s[..n]);
      FrontStaysFirst(f, s[..n], s[n]);
      FrontAndLast(s);
    }
  }

  lemma FrontStaysFirst<A, B>(f: A -> seq<B>, s: seq<A>, x: A)
    requires s != [] && FrontFirst(f, s)
    ensures FrontFirst(f, s + [x])
  {
    FlatMapSnoc(f, s, x);
    FlatMapSnoc(f, s[1..], x);
    assert (s + [x])[1..] == s[1..] + [x];
    assert f(s[0]) + FlatMap(f, s[1..]) + f(x) == f(s[0]) + (FlatMap(f, s[1..]) + f(x));
  }

  lemma FlatMapSnoc<A, B>(f: A -> seq<B>, s: seq<A>, x: A)
    ensures FlatMap(f, s + [x]) == FlatMap(f, s) + f(x)
  {
    assert (s + [x])[..|s|] == s;
  }

  function Bytes(s: seq<byte>): (out: seq<Piece>)
    ensures |out| == |s| && forall i :: 0 <= i < |s| ==> out[i] == Byte(s[i])
  {
    seq(|s|, i requires 0 <= i < |s| => Byte(s[i]))
  }

  /** What an argument should look like in the output. */
  function Rendering(arg: Arg): seq<Piece> {
    match arg
    case Char(c) => [Byte(c)]
    case U32(n) => [Decimal(n)]
    case U64(n) => [Decimal(n)]
    case I32(n) => [Decimal(n)]
    case I64(n) => [Decimal(n)]
    case Double(bits) => [Real(bits)]
    case Literal(a) => [Text(a)]
    case Cstr(text) => Bytes(text)
    case NullCstr => []
  }

  function LevelName(level: byte): string {
    if level == 0 then "DEBUG"
    else if level == 1 then "INFO"
    else if level == 2 then "WARN"
    else if level == 3 then "ERROR"
    else if level == 4 then "CRIT"
    else "XXXX"
  }

  function Heading(h: Header): seq<Piece> {
    [Time(h.time), Fixed("["), Fixed(LevelName(h.level)), Fixed("]"), Fixed("["), Thread(h.thread), Fixed("]"),
     Fixed("["), Text(h.file), Fixed(":"), Text(h.func), Fixed(":"), Decimal(h.line), Fixed("] ")]
  }

  function Ending(h: Header): seq<Piece> {
    [Endl] + if 4 <= h.level then [Flush] else []
  }

  /** The line as it should be printed. */
  function Line(h: Header, args: seq<Arg>): seq<Piece> {
    Heading(h) + FlatMap(Rendering, args) + Ending(h)
  }

  /** Every line begins with the time, the level's name, the thread and the place, and ends with the end of
      the line; a line of level 4 or above flushes the stream. */
  lemma LineLayout(h: Header, args: seq<Arg>)
    ensures exists name: string ::
      && Line(h, args)
         == [Time(h.time), Fixed("["), Fixed(name), Fixed("]"), Fixed("["), Thread(h.thread), Fixed("]"), Fixed("["),
             Text(h.file), Fixed(":"), Text(h.func), Fixed(":"), Decimal(h.line), Fixed("] ")]
            + FlatMap(Rendering, args) + (if h.level < 4 then [Endl] else [Endl, Flush])
      && (h.level == 0 ==> name == "DEBUG") && (h.level == 1 ==> name == "INFO")
      && (h.level == 2 ==> name == "WARN") && (h.level == 3 ==> name == "ERROR")
      && (h.level == 4 ==> name == "CRIT") && (h.level > 4 ==> name == "XXXX")
  {
    var name := LevelName(h.level);
    assert Heading(h)
      == [Time(h.time), Fixed("["), Fixed(name), Fixed("]"), Fixed("["), Thread(h.thread), Fixed("]"), Fixed("["),
          Text(h.file), Fixed(":"), Text(h.func), Fixed(":"), Decimal(h.line), Fixed("] ")];
    assert Ending(h) == if h.level < 4 then [Endl] else [Endl, Flush];
  }

  // ---------------------------------------------------------------- in memory

  /** The low n bytes of a number, lowest first. */
  function Little(v: nat, n: nat): (s: seq<byte>)
    ensures |s| == n
  {
    if n == 0 then [] else [v % 256] + Little(v / 256, n - 1)
  }

  function FromLittle(s: seq<byte>): nat {
    if s == [] then 0 else s[0] + 256 * FromLittle(s[1..])
  }

  function Pow256(n: nat): nat {
    if n == 0 then 1 else 256 * Pow256(n - 1)
  }

  lemma {:induction false} LittleInverse(v: nat, n: nat)
    requires v < Pow256(n)
    ensures FromLittle(Little(v, n)) == v
  {
    if n != 0 {
      LittleInverse(v / 256, n - 1);
      assert Little(v, n)[1..] == Little(v / 256, n - 1);
    }
  }

  lemma {:induction false} FromLittleBound(s: seq<byte>)
    ensures FromLittle(s) < Pow256(|s|)
  {
    if s != [] {
      FromLittleBound(s[1..]);
    }
  }

  lemma Pow256Values()
    ensures Pow256(1) == 0x100 && Pow256(4) == Arithmetic.WORD && Pow256(8) == 0x1_0000_0000_0000_0000
  {
    assert Pow256(2) == 0x1_0000 && Pow256(3) == 0x100_0000;
    assert Pow256(5) == 256 * Pow256(4) && Pow256(6) == 256 * Pow256(5) && Pow256(7) == 256 * Pow256(6);
  }

  /** Position in the list of supported types. */
  function TypeId(arg: Arg): byte
    requires !arg.NullCstr?
  {
    match arg
    case Char(_) => 0
    case U32(_) => 1
    case U64(_) => 2
    case I32(_) => 3
    case I64(_) => 4
    case Double(_) => 5
    case Literal(_) => 6
    case Cstr(_) => 7
  }

  /** Sizes of the fixed-size types. */
  function SizeOf(id: byte): nat {
    if id == 0 then 1 else if id == 1 || id == 3 then 4 else 8
  }

  /** A fixed-size argument as the unsigned number its bytes stand for. */
  function Number(arg: Arg): nat
    requires !arg.NullCstr? && !arg.Cstr?
  {
    match arg
    case Char(c) => c
    case U32(n) => n
    case U64(n) => n
    case I32(n) => n % Arithmetic.WORD
    case I64(n) => n % 0x1_0000_0000_0000_0000
    case Double(bits) => bits
    case Literal(a) => a
  }

  /** The object representation of a fixed-size argument. */
  function Raw(arg: Arg): (raw: seq<byte>)
    requires !arg.NullCstr? && !arg.Cstr?
    ensures |raw| == SizeOf(TypeId(arg))
  {
    Little(Number(arg), SizeOf(TypeId(arg)))
  }

  /** How an argument is stored.  Null and empty strings leave no trace. */
  function Stored(arg: Arg): seq<byte> {
    match arg
    case NullCstr => []
    case Cstr(text) => if text == [] then [] else [7] + text + [0]
    case _ => [TypeId(arg)] + Raw(arg)
  }

  function HeaderBytes(h: Header): (s: seq<byte>)
    ensures |s| == HEADER_SIZE
  {
    Little(h.time, 8) + Little(h.thread, 8) + Little(h.file, 8) + Little(h.func, 8) + Little(h.line, 4) + [h.level]
  }

  // ---------------------------------------------------------------- printing what is stored

  function Signed32(n: nat): int {
    if n < 0x8000_0000 then n else n - Arithmetic.WORD
  }

  function Signed64(n: nat): int {
    if n < 0x8000_0000_0000_0000 then n else n - 0x1_0000_0000_0000_0000
  }

  predicate Fits(id: byte, n: nat) {
    if id == 0 then n < 0x100 else if id == 1 || id == 3 then n < Arithmetic.WORD else n < 0x1_0000_0000_0000_0000
  }

  /** A fixed-size value, as it is printed. */
  function Shown(id: byte, n: nat): Piece
    requires id < 7 && Fits(id, n)
  {
    if id == 0 then Byte(n)
    else if id == 3 then Decimal(Signed32(n))
    else if id == 4 then Decimal(Signed64(n))
    else if id == 5 then Real(n)
    else if id == 6 then Text(n)
    else Decimal(n)
  }

  lemma FitsPow(id: byte, n: nat)
    ensures Fits(id, n) <==> n < Pow256(SizeOf(id))
  {
    Pow256Values();
  }

  function Loaded(id: byte, raw: seq<byte>): (n: nat)
    requires |raw| == SizeOf(id)
    ensures Fits(id, n)
  {
    FromLittleBound(raw);
    FitsPow(id, FromLittle(raw));
    FromLittle(raw)
  }

  /** Printing the argument at the front: the pieces and how many bytes it takes.  None if it runs past
      the end. */
  function ShowOne(s: seq<byte>): (r: Option<(seq<Piece>, nat)>)
    requires s != [] && s[0] <= 7
    ensures r.Some? ==> 0 < r.value.1 <= |s|
  {
    var id, rest := s[0], s[1..];
    if id == 7 then
      if 0 in rest then Some((Bytes(rest[..Codec.StrLen(rest)]), Codec.StrLen(rest) + 2)) else None
    else if |rest| < SizeOf(id) then None
    else Some(([Shown(id, Loaded(id, rest[..SizeOf(id)]))], 1 + SizeOf(id)))
  }

  /** Printing everything stored; an unknown type id ends it. */
  function Show(s: seq<byte>): Option<seq<Piece>> {
    if s == [] || s[0] > 7 then Some([])
    else
      match ShowOne(s)
      case None => None
      case Some((pieces, n)) =>
        (match Show(s[n..])
         case None => None
         case Some(more) => Some(pieces + more))
  }

  // ---------------------------------------------------------------- the round trip

  predicate NulFree(arg: Arg) {
    arg.Cstr? ==> 0 !in arg.text
  }

  predicate AllNulFree(args: seq<Arg>) {
    forall i :: 0 <= i < |args| ==> NulFree(args[i])
  }

  lemma NumberShown(arg: Arg)
    requires !arg.NullCstr? && !arg.Cstr?
    ensures Fits(TypeId(arg), Number(arg)) && [Shown(TypeId(arg), Number(arg))] == Rendering(arg)
  {
  }

  lemma RawShown(arg: Arg)
    requires !arg.NullCstr? && !arg.Cstr?
    ensures [Shown(TypeId(arg), Loaded(TypeId(arg), Raw(arg)))] == Rendering(arg)
  {
    NumberShown(arg);
    FitsPow(TypeId(arg), Number(arg));
    LittleInverse(Number(arg), SizeOf(TypeId(arg)));
  }

  /** An argument that is stored at all is printed as it should be, and its bytes are all used up,
      exactly when it is not a string with a NUL in it. */
  lemma ArgRoundTrip(arg: Arg, rest: seq<byte>)
    requires Stored(arg) != []
    ensures var s := Stored(arg) + rest;
      s[0] <= 7 && (ShowOne(s) == Some((Rendering(arg), |Stored(arg)|)) <==> NulFree(arg))
  {
    if arg.Cstr? {
      CstrRoundTrip(arg, rest);
    } else {
      FixedRoundTrip(arg, rest);
    }
  }

  lemma CstrRoundTrip(arg: Arg, rest: seq<byte>)
    requires arg.Cstr? && arg.text != []
    ensures var s := Stored(arg) + rest;
      s[0] == 7 && (ShowOne(s) == Some((Rendering(arg), |Stored(arg)|)) <==> 0 !in arg.text)
  {
    var s := Stored(arg) + rest;
    assert s[1..] == arg.text + [0] + rest;
    Codec.StrLenOfText(arg.text, rest);
    if Codec.StrLen(s[1..]) == |arg.text| {
      assert s[1..][..|arg.text|] == arg.text;
    }
  }

  lemma FixedRoundTrip(arg: Arg, rest: seq<byte>)
    requires !arg.NullCstr? && !arg.Cstr?
    ensures var s := Stored(arg) + rest;
      s[0] < 7 && ShowOne(s) == Some((Rendering(arg), |Stored(arg)|))
  {
    var s := Stored(arg) + rest;
    RawShown(arg);
    assert s[1..][..SizeOf(TypeId(arg))] == Raw(arg);
  }

  function Prepend(pieces: seq<Piece>, more: Option<seq<Piece>>): Option<seq<Piece>> {
    match more
    case None => None
    case Some(ps) => Some(pieces + ps)
  }

  lemma ShowStep(arg: Arg, rest: seq<byte>)
    requires NulFree(arg)
    ensures Show(Stored(arg) + rest) == Prepend(Rendering(arg), Show(rest))
  {
    if Stored(arg) == [] {
      assert Stored(arg) + rest == rest;
      PrependNothing(Rendering(arg), Show(rest));
    } else {
      ArgRoundTrip(arg, rest);
      assert (Stored(arg) + rest)[|Stored(arg)|..] == rest;
    }
  }

  lemma ShowFront(arg: Arg, stored: seq<byte>, rest: seq<byte>)
    requires NulFree(arg)
    ensures Show(Stored(arg) + stored + rest) == Prepend(Rendering(arg), Show(stored + rest))
  {
    ShowStep(arg, stored + rest);
    assert Stored(arg) + stored + rest == Stored(arg) + (stored + rest);
  }

  /** Whatever was logged, if no string has a NUL in it, printing what is stored gives the renderings
      of the arguments, in order, and goes on with what follows. */
  lemma {:induction false} ShowClean(args: seq<Arg>, rest: seq<byte>)
    requires AllNulFree(args)
    ensures Show(FlatMap(Stored, args) + rest) == Prepend(FlatMap(Rendering, args), Show(rest))
  {
    if args == [] {
      assert FlatMap(Stored, args) + rest == rest;
      PrependNothing([], Show(rest));
    } else {
      FlatMapFront(Stored, args);
      FlatMapFront(Rendering, args);
      ShowClean(args[1..], rest);
      ShowFront(args[0], FlatMap(Stored, args[1..]), rest);
      PrependTwice(Rendering(args[0]), FlatMap(Rendering, args[1..]), Show(rest));
    }
  }

  lemma PrependNothing(nothing: seq<Piece>, more: Option<seq<Piece>>)
    requires nothing == []
    ensures Prepend(nothing, more) == more
  {
    if more.Some? {
      assert nothing + more.value == more.value;
    }
  }

  lemma PrependTwice(a: seq<Piece>, b: seq<Piece>, more: Option<seq<Piece>>)
    ensures Prepend(a, Prepend(b, more)) == Prepend(a + b, more)
  {
    if more.Some? {
      assert a + (b + more.value) == a + b + more.value;
    }
  }

  lemma LineRoundTrip(args: seq<Arg>)
    requires AllNulFree(args)
    ensures Show(FlatMap(Stored, args)) == Some(FlatMap(Rendering, args))
  {
    ShowClean(args, []);
    assert FlatMap(Stored, args) + [] == FlatMap(Stored, args);
    assert FlatMap(Rendering, args) + [] == FlatMap(Rendering, args);
  }

  /** Printing gives fewer pieces than there are bytes. */
  lemma {:induction false} ShowShrinks(s: seq<byte>)
    requires s != []
    ensures Show(s).Some? ==> |Show(s).value| < |s|
  {
    if s[0] <= 7 && ShowOne(s).Some? && s[ShowOne(s).value.1..] != [] {
      ShowShrinks(s[ShowOne(s).value.1..]);
    }
  }

  /** A string at the end of a line is printed as it should be exactly when it has no NUL in it. */
  lemma LastStringExact(args: seq<Arg>, text: seq<byte>)
    requires AllNulFree(args)
    ensures Show(FlatMap(Stored, args + [Cstr(text)])) == Some(FlatMap(Rendering, args + [Cstr(text)])) <==> 0 !in text
  {
    FlatMapSnoc(Stored, args, Cstr(text));
    FlatMapSnoc(Rendering, args, Cstr(text));
    ShowClean(args, Stored(Cstr(text)));
    StringAlone(text);
    if Show(Stored(Cstr(text))).Some? {
      var before, got := FlatMap(Rendering, args), Show(Stored(Cstr(text))).value;
      assert (before + got)[|before|..] == got;
      assert (before + Bytes(text))[|before|..] == Bytes(text);
    }
  }

  lemma StringAlone(text: seq<byte>)
    ensures Show(Stored(Cstr(text))) == Some(Bytes(text)) <==> 0 !in text
  {
    var s := Stored(Cstr(text));
    if 0 !in text {
      ShowStep(Cstr(text), []);
      assert s + [] == s;
      assert Bytes(text) + [] == Bytes(text);
    } else {
      assert s[1..] == text + [0] + [];
      Codec.StrLenOfText(text, []);
      var n := Codec.StrLen(s[1..]);
      ShowShrinks(s[n + 2..]);
    }
  }

  /** In the middle of a line a NUL can go unnoticed: the bytes after it may by chance print what is
      missing. */
  lemma NulUnnoticed()
    ensures var args := [Cstr([0]), Char(7), Cstr([120])];
      !AllNulFree(args) && Show(FlatMap(Stored, args)) == Some(FlatMap(Rendering, args))
  {
    var args := [Cstr([0]), Char(7), Cstr([120])];
    assert !NulFree(args[0]);
    var seen := [Char(0), Cstr([7, 120])];
    UnnoticedBytes();
    FlatMapThree(Stored, args[0], args[1], args[2]);
    FlatMapThree(Rendering, args[0], args[1], args[2]);
    FlatMapTwo(Stored, seen[0], seen[1]);
    FlatMapTwo(Rendering, seen[0], seen[1]);
    LineRoundTrip(seen);
    EmptyStringSkipped(FlatMap(Stored, seen));
  }

  lemma UnnoticedBytes()
    ensures Stored(Cstr([0])) + Stored(Char(7)) + Stored(Cstr([120]))
         == [7, 0] + (Stored(Char(0)) + Stored(Cstr([7, 120])))
    ensures Rendering(Cstr([0])) + Rendering(Char(7)) + Rendering(Cstr([120]))
         == Rendering(Char(0)) + Rendering(Cstr([7, 120]))
  {
    assert Little(0, 1) == [0] && Little(7, 1) == [7];
  }

  lemma EmptyStringSkipped(rest: seq<byte>)
    ensures Show([7, 0] + rest) == Show(rest)
  {
    var s := [7, 0] + rest;
    Codec.StrLenMinimal(s[1..], 0);
    assert s[1..][..0] == [];
    assert Bytes([]) == [];
    assert ShowOne(s) == Some(([], 2));
    assert s[2..] == rest;
    PrependNothing([], Show(rest));
  }

  lemma FlatMapTwo<A, B>(f: A -> seq<B>, a: A, b: A)
    ensures FlatMap(f, [a, b]) == f(a) + f(b)
  {
    FlatMapSnoc(f, [], a);
    FlatMapSnoc(f, [a], b);
    assert [] + [a] == [a] && [a] + [b] == [a, b];
  }

  lemma FlatMapThree<A, B>(f: A -> seq<B>, a: A, b: A, c: A)
    ensures FlatMap(f, [a, b, c]) == f(a) + f(b) + f(c)
  {
    FlatMapTwo(f, a, b);
    FlatMapSnoc(f, [a, b], c);
    assert [a, b] + [c] == [a, b, c];
  }

  /** Where the parts of the heading are. */
  lemma HeaderPieces(h: Header, rest: seq<byte>)
    ensures var s := HeaderBytes(h) + rest;
      && Loaded(2, s[0..8]) == h.time && Loaded(2, s[8..16]) == h.thread
      && Loaded(2, s[16..24]) == h.file && Loaded(2, s[24..32]) == h.func
      && Loaded(1, s[32..36]) == h.line && s[36] == h.level && s[HEADER_SIZE..] == rest
  {
    var s := HeaderBytes(h) + rest;
    Pow256Values();
    assert s[0..8] == Little(h.time, 8);
    assert s[8..16] == Little(h.thread, 8);
    assert s[16..24] == Little(h.file, 8);
    assert s[24..32] == Little(h.func, 8);
    assert s[32..36] == Little(h.line, 4);
    LittleInverse(h.time, 8);
    LittleInverse(h.thread, 8);
    LittleInverse(h.file, 8);
    LittleInverse(h.func, 8);
    LittleInverse(h.line, 4);
  }
}
