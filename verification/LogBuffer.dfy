/** The buffer of a log line: arguments are written in place, on the stack as long as they fit and on
    the heap after that, and printed by walking over what was written. */
module LogBuffer {
  import opened Bits
  import opened Sequences
  import Codec
  import opened LogLine

  class NanoLogLine {
    const stack: array<byte>
    var heap: array?<byte>
    var used: nat
    var size: nat

    /** What has been logged. */
    ghost const header: Header
    ghost var args: seq<Arg>

    ghost predicate Fits()
      reads `heap, `used, `size
    {
      && stack.Length == STACK_SIZE && stack != heap
      && used <= size
      && size == (if heap == null then STACK_SIZE else heap.Length)
    }

    /** The bytes written so far. */
    ghost function Content(): seq<byte>
      reads `heap, `used, `size, stack, heap
      requires Fits()
    {
      if heap == null then stack[..used] else heap[..used]
    }

    ghost predicate Valid()
      reads this, stack, heap
    {
      Fits() && Content() == HeaderBytes(header) + FlatMap(Stored, args)
    }

    constructor (time: u64, thread: u64, file: u64, func: u64, line: Codec.u32, level: byte)
      ensures Valid() && fresh(stack) && heap == null && args == []
      ensures header == Header(time, thread, file, func, line, level)
    {
      stack := new byte[STACK_SIZE];
      heap, used, size := null, 0, STACK_SIZE;
      header := Header(time, thread, file, func, line, level);
      args := [];
      new;
      assert [] + Little(time, 8) == Little(time, 8);
      Write(Little(time, 8));
      Write(Little(thread, 8));
      WritePlace(file, func, line, level);
      assert HeaderBytes(header) + [] == HeaderBytes(header);
    }

    /** The rest of the fixed part: where the line was logged, and its level. */
    method WritePlace(file: u64, func: u64, line: Codec.u32, level: byte)
      requires Fits() && used + 21 <= size
      modifies `used, stack, heap
      ensures Fits()
      ensures Content() == old(Content()) + Little(file, 8) + Little(func, 8) + Little(line, 4) + [level]
    {
      Write(Little(file, 8));
      Write(Little(func, 8));
      Write(Little(line, 4));
      Write([level]);
    }

    /** `encode` without a tag: store an object at the end.  It does not look whether there is room. */
    method Write(raw: seq<byte>)
      requires Fits() && used + |raw| <= size
      modifies `used, stack, heap
      ensures Fits() && used == old(used) + |raw| && Content() == old(Content()) + raw
    {
      if heap == null {
        forall i | 0 <= i < |raw| {
          stack[used + i] := raw[i];
        }
      } else {
        forall i | 0 <= i < |raw| {
          heap[used + i] := raw[i];
        }
      }
      used := used + |raw|;
    }

    /** Makes room for more bytes and keeps what is there.  The first buffer on the heap has at least 512
        bytes, later ones at least twice what there was. */
    method ResizeIfNeeded(additional: nat)
      requires Fits()
      modifies `heap, `size
      ensures Fits() && used + additional <= size && Content() == old(Content())
      ensures heap == old(heap) || fresh(heap)
      ensures size == if old(used) + additional <= old(size) then old(size)
                      else if old(heap) == null then Max(FIRST_HEAP_SIZE, used + additional)
                      else Max(2 * old(size), used + additional)
    {
      var required := used + additional;
      if required <= size {
        return;
      }
      if heap == null {
        size := Max(FIRST_HEAP_SIZE, required);
        heap := new byte[size];
        forall i | 0 <= i < used {
          heap[i] := stack[i];
        }
      } else {
        size := Max(2 * size, required);
        var bigger := new byte[size];
        forall i | 0 <= i < used {
          bigger[i] := heap[i];
        }
        heap := bigger;
      }
    }

    /** `<<`. */
    method Put(arg: Arg)
      requires Valid()
      modifies this, stack, heap
      ensures Valid() && args == old(args) + [arg]
      ensures heap == old(heap) || fresh(heap)
    {
      PutBehind(arg, HeaderBytes(header));
    }

    /** The same, whatever the arguments stand behind. */
    method PutBehind(arg: Arg, ghost front: seq<byte>)
      requires Fits() && Content() == front + FlatMap(Stored, args)
      modifies this, stack, heap
      ensures Fits() && args == old(args) + [arg] && Content() == front + FlatMap(Stored, args)
      ensures heap == old(heap) || fresh(heap)
    {
      OneMore(front, args, arg);
      Encode(arg);
      args := args + [arg];
    }

    /** The overload of `encode` for the argument's type. */
    method Encode(arg: Arg)
      requires Fits()
      modifies `heap, `size, `used, stack, heap
      ensures Fits() && Content() == old(Content()) + Stored(arg)
      ensures heap == old(heap) || fresh(heap)
    {
      if arg.Cstr? {
        EncodeCstr(arg.text);
      } else if !arg.NullCstr? {
        EncodeTagged(arg);
      }
    }

    /** `encode` of an object with its tag. */
    method EncodeTagged(arg: Arg)
      requires Fits() && !arg.NullCstr? && !arg.Cstr?
      modifies `heap, `size, `used, stack, heap
      ensures Fits() && Content() == old(Content()) + Stored(arg)
      ensures heap == old(heap) || fresh(heap)
    {
      ResizeIfNeeded(|Raw(arg)| + 1);
      Write([TypeId(arg)]);
      Write(Raw(arg));
    }

    /** `stringify`: the heading from the fixed part at the front, then the arguments.  What is stored must
        not make it run past the end; it does not if no string has a NUL in it. */
    method Stringify() returns (out: seq<Piece>)
      requires Valid() && Show(FlatMap(Stored, args)).Some?
      ensures out == Heading(header) + Show(FlatMap(Stored, args)).value + Ending(header)
      ensures AllNulFree(args) ==> out == Line(header, args)
    {
      var b := if heap == null then stack else heap;
      var h := ReadHeader(b);
      assert b[HEADER_SIZE..used] == FlatMap(Stored, args) by {
        assert b[..used][HEADER_SIZE..] == b[HEADER_SIZE..used];
      }
      out := Print(b, HEADER_SIZE, used, Heading(h));
      out := out + Ending(h);
      if AllNulFree(args) {
        LineRoundTrip(args);
      }
    }

    method ReadHeader(b: array<byte>) returns (h: Header)
      requires Valid() && b == (if heap == null then stack else heap)
      ensures h == header
    {
      HeaderPieces(header, FlatMap(Stored, args));
      assert forall i, j :: 0 <= i <= j <= used ==> b[..used][i..j] == b[i..j];
      h := Header(Loaded(2, b[0..8]), Loaded(2, b[8..16]), Loaded(2, b[16..24]), Loaded(2, b[24..32]),
                  Loaded(1, b[32..36]), b[36]);
    }

    /** `encode_c_string`. */
    method EncodeCstr(text: seq<byte>)
      requires Fits()
      modifies `heap, `size, `used, stack, heap
      ensures Fits() && Content() == old(Content()) + Stored(Cstr(text))
      ensures heap == old(heap) || fresh(heap)
    {
      if |text| == 0 {
        return;
      }
      ResizeIfNeeded(1 + |text| + 1);
      Write([7]);
      Write(text + [0]);
    }
  }

  /** Prints the string at a position; next is behind its NUL. */
  method PrintCstr(b: array<byte>, start: nat, end: nat) returns (next: nat, out: seq<Piece>)
    requires start <= end <= b.Length && 0 in b[start..end]
    ensures var n := Codec.StrLen(b[start..end]); next == start + n + 1 && out == Bytes(b[start..end][..n])
  {
    next, out := start, [];
    ghost var s := b[start..end];
    while b[next] != 0
      invariant start <= next <= start + Codec.StrLen(s)
      invariant out == Bytes(s[..next - start])
      decreases start + Codec.StrLen(s) - next
    {
      assert s[next - start] == b[next];
      assert s[..next + 1 - start] == s[..next - start] + [b[next]];
      out := out + [Byte(b[next])];
      next := next + 1;
    }
    Codec.StrLenMinimal(s, next - start);
    next := next + 1;
  }

  /** `decode`: prints the argument at a position. */
  method PrintOne(b: array<byte>, start: nat, end: nat) returns (next: nat, pieces: seq<Piece>)
    requires start < end <= b.Length && b[start] <= 7 && ShowOne(b[start..end]).Some?
    ensures start < next <= end && ShowOne(b[start..end]) == Some((pieces, next - start))
  {
    var id, at := b[start], start + 1;
    ghost var s := b[start..end];
    assert s[1..] == b[at..end];
    if id == 7 {
      next, pieces := PrintCstr(b, at, end);
    } else {
      assert s[1..][..SizeOf(id)] == b[at..at + SizeOf(id)];
      next, pieces := at + SizeOf(id), [Shown(id, Loaded(id, b[at..at + SizeOf(id)]))];
    }
  }

  lemma ShowBegins(s: seq<byte>)
    requires s != [] && s[0] <= 7 && Show(s).Some?
    ensures ShowOne(s).Some?
  {
  }

  lemma ShowGoesOn(s: seq<byte>, pieces: seq<Piece>, n: nat, rest: seq<byte>, before: seq<Piece>)
    requires s != [] && s[0] <= 7 && Show(s).Some? && ShowOne(s) == Some((pieces, n)) && rest == s[n..]
    ensures Show(rest).Some? && before + pieces + Show(rest).value == before + Show(s).value
  {
    AppendTwice(before, pieces, Show(rest).value);
  }

  lemma AppendTwice<T>(a: seq<T>, b: seq<T>, c: seq<T>)
    ensures a + b + c == a + (b + c)
  {
  }

  /** The recursive `stringify`: prints what is stored between two positions, behind what was printed
      before. */
  method Print(b: array<byte>, start: nat, end: nat, before: seq<Piece>) returns (out: seq<Piece>)
    requires start <= end <= b.Length && Show(b[start..end]).Some?
    ensures out == before + Show(b[start..end]).value
    decreases end - start
  {
    if start == end || b[start] > 7 {
      return before;
    }
    ShowBegins(b[start..end]);
    var next, pieces := PrintOne(b, start, end);
    ShowGoesOn(b[start..end], pieces, next - start, b[next..end], before);
    out := Print(b, next, end, before + pieces);
  }

  lemma OneMore(front: seq<byte>, args: seq<Arg>, arg: Arg)
    ensures front + FlatMap(Stored, args) + Stored(arg) == front + FlatMap(Stored, args + [arg])
  {
    FlatMapSnoc(Stored, args, arg);
    assert front + FlatMap(Stored, args) + Stored(arg) == front + (FlatMap(Stored, args) + Stored(arg));
  }

  function Max(a: nat, b: nat): nat {
    if a < b then b else a
  }
}
