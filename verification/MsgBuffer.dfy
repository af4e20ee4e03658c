/** The message buffer: a byte vector with a read cursor `head` and a write cursor `tail`. */
module MsgBuffer {
  import opened Bits
  import opened Sequences
  import opened Codec

  datatype Indicator = NoneYet | ValidMessage | InvalidMessage

  const DEFAULT_SIZE: nat := 1024

  function ZeroBytes(n: nat): (z: seq<byte>)
    ensures |z| == n
  {
    seq(n, _ => 0)
  }

  class MsgBuffer {
    var store: seq<byte>
    var packlen: nat
    var head: nat
    var tail: nat
    var indicator: Indicator

    ghost predicate Valid()
      reads this
    {
      head <= tail <= |store|
    }

    /** The state every pooled buffer is in when it is handed out. */
    ghost predicate Cleared()
      reads this
    {
      head == tail == packlen == 0 && indicator == NoneYet && store == ZeroBytes(DEFAULT_SIZE)
    }

    function Readable(): seq<byte>
      reads this
      requires Valid()
    {
      store[head..tail]
    }

    function Available(): nat
      reads this
      requires Valid()
    {
      tail - head
    }

    constructor ()
      ensures Valid() && Cleared()
    {
      packlen, head, tail, indicator := 0, 0, 0, NoneYet;
      store := ZeroBytes(DEFAULT_SIZE);
    }

    method Clear()
      modifies this
      ensures Valid() && Cleared()
    {
      packlen, head, tail, indicator := 0, 0, 0, NoneYet;
      store := ZeroBytes(DEFAULT_SIZE);
    }

    // ------------------------------------------------------------ cursors

    method Commit(n: nat)
      requires Valid() && tail + n <= |store|
      modifies `tail
      ensures Valid() && tail == old(tail) + n
      ensures Readable() == old(Readable()) + store[old(tail)..old(tail) + n]
    {
      tail := tail + n;
    }

    method Consume(n: nat)
      requires Valid() && n <= Available()
      modifies `head
      ensures Valid() && head == old(head) + n
      ensures Readable() == old(Readable())[n..]
    {
      head := head + n;
    }

    /** Moves the read cursor back, unless there is not that much before it. */
    method Vomit(n: nat)
      requires Valid()
      modifies `head
      ensures Valid() && head == if n > old(head) then old(head) else old(head) - n
      ensures n <= old(head) ==> Readable() == store[head..head + n] + old(Readable())
    {
      if n > head {
        return;
      }
      head := head - n;
    }

    /** Leaves a gap of n bytes to be filled in later. */
    method Seek(n: nat)
      requires Valid() && tail + n <= |store|
      modifies `head, `tail
      ensures Valid() && head == old(head) + n && tail == old(tail) + n
      ensures Readable() == store[old(head) + n..old(tail) + n]
      ensures old(Readable()) == [] ==> Readable() == []
    {
      head := head + n;
      tail := tail + n;
    }

    // ------------------------------------------------------------ growing and appending

    /** Makes room for n more bytes without touching what is there. */
    method Adjust(n: nat)
      requires Valid()
      modifies `store
      ensures Valid() && n <= |store| - tail
      ensures |store| == if n <= |old(store)| - tail then |old(store)|
                         else if n <= |old(store)| then 2 * |old(store)| else |old(store)| + n
      ensures store[..|old(store)|] == old(store)
      ensures Readable() == old(Readable())
    {
      if |store| - tail >= n {
        return;
      }
      var length := if |store| * 2 >= |store| + n then |store| * 2 else |store| + n;
      store := store + ZeroBytes(length - |store|);
    }

    /** Copies data over the bytes starting at position at. */
    method Overwrite(at: nat, data: seq<byte>)
      requires Valid() && at + |data| <= |store|
      modifies `store
      ensures Valid() && store == old(store)[..at] + data + old(store)[at + |data|..]
    {
      store := store[..at] + data + store[at + |data|..];
    }

    /** The `reset` family: overwrite bytes at an offset from the read cursor. */
    method Patch(offset: nat, data: seq<byte>)
      requires Valid() && head + offset + |data| <= |store|
      modifies `store
      ensures Valid() && store == old(store)[..head + offset] + data + old(store)[head + offset + |data|..]
      ensures offset + |data| <= Available() ==>
        Readable() == old(Readable())[..offset] + data + old(Readable())[offset + |data|..]
    {
      Overwrite(head + offset, data);
    }

    method Append(data: seq<byte>)
      requires Valid()
      modifies `store, `tail
      ensures Valid() && tail == old(tail) + |data|
      ensures Readable() == old(Readable()) + data
      ensures store[..old(tail)] == old(store)[..old(tail)]
    {
      if |data| == 0 {
        return;
      }
      Adjust(|data|);
      Overwrite(tail, data);
      Commit(|data|);
    }

    /** The socket writes into the room behind the write cursor; then the bytes are committed. */
    method Receive(data: seq<byte>)
      requires Valid() && tail + |data| <= |store|
      modifies `store, `tail
      ensures Valid() && tail == old(tail) + |data| && |store| == |old(store)|
      ensures Readable() == old(Readable()) + data
    {
      Overwrite(tail, data);
      Commit(|data|);
    }

    /** The typed `<<` operators. */
    method Put(v: Value)
      requires Valid()
      modifies `store, `tail
      ensures Valid() && tail == old(tail) + |Encode(v)|
      ensures Readable() == old(Readable()) + Encode(v)
      ensures store[..old(tail)] == old(store)[..old(tail)]
    {
      match v {
        case V8(n) => Append([n]);
        case V16(n) => Append(BE16(n));
        case V32(n) => Append(BE32(n));
        case VStr(s) => Append(s + [0]);
      }
    }

    /** Writing a body field by field. */
    method PutAll(vs: seq<Value>)
      requires Valid()
      modifies `store, `tail
      ensures Valid() && tail == old(tail) + |EncodeAll(vs)|
      ensures Readable() == old(Readable()) + EncodeAll(vs)
      ensures store[..old(tail)] == old(store)[..old(tail)]
    {
      var i := 0;
      while i < |vs|
        invariant 0 <= i <= |vs| && Valid()
        invariant tail == old(tail) + |EncodeAll(vs[..i])|
        invariant Readable() == old(Readable()) + EncodeAll(vs[..i])
        invariant store[..old(tail)] == old(store)[..old(tail)]
      {
        EncodeAllStep(old(Readable()), vs, i);
        Put(vs[i]);
        i := i + 1;
      }
      assert vs[..i] == vs;
    }

    // ------------------------------------------------------------ reading

    /** `fetch`: the handler sees the bytes at an offset from the read cursor, unless its guard is against
        it.  The guard forgets the cursor, so what it lets through need not lie within the vector. */
    method Fetch(offset: nat, count: nat) returns (seen: Option<seq<byte>>)
      requires Valid()
      requires offset > tail || offset + count > |store| || head + offset + count <= |store|
      ensures seen.None? <==> offset > tail || offset + count > |store|
      ensures offset + count <= Available() ==> seen == Some(Readable()[offset..offset + count])
      ensures seen.Some? ==> seen.value == store[head + offset..head + offset + count]
    {
      if offset > tail || offset + count > |store| {
        return None;
      }
      if offset + count <= Available() {
        SliceOfSlice(store, head, tail, offset, offset + count);
      }
      return Some(store[head + offset..head + offset + count]);
    }

    method Peek32() returns (v: u32)
      requires Valid() && 4 <= Available()
      ensures v == Read32(Readable())
    {
      v := Read32(store[head..head + 4]);
    }

    /** `strlen` at the read cursor. */
    method Terminator() returns (n: nat)
      requires Valid() && 0 in Readable()
      ensures n == StrLen(Readable())
    {
      n := 0;
      while store[head + n] != 0
        invariant n <= StrLen(Readable())
        decreases StrLen(Readable()) - n
      {
        assert Readable()[StrLen(Readable())] == 0;
        n := n + 1;
      }
      StrLenMinimal(Readable(), n);
    }

    /** The typed `>>` operators, into fresh variables. */
    method Get(kind: Kind) returns (v: Value)
      requires Valid() && Decode(kind, Readable()).Some?
      modifies `head
      ensures Valid()
      ensures var (want, n) := Decode(kind, old(Readable())).value;
        v == want && head == old(head) + n && Readable() == old(Readable())[n..]
    {
      match kind {
        case U8 =>
          v := V8(store[head]);
          Consume(1);
        case U16 =>
          v := V16(Read16(store[head..head + 2]));
          Consume(2);
        case U32 =>
          v := V32(Read32(store[head..head + 4]));
          Consume(4);
        case Str =>
          var length := Terminator();
          v := VStr(store[head..head + length]);
          Consume(length + 1);
      }
    }

    /** Reading a body field by field. */
    method GetAll(kinds: seq<Kind>) returns (vs: seq<Value>)
      requires Valid() && DecodeAll(kinds, Readable()).Some?
      modifies `head
      ensures Valid()
      ensures DecodeAll(kinds, old(Readable())) == Some((vs, Readable()))
    {
      vs := [];
      var i := 0;
      ghost var all := DecodeAll(kinds, Readable()).value;
      assert kinds[0..] == kinds;
      while i < |kinds|
        invariant 0 <= i <= |kinds| && Valid()
        invariant DecodeAll(kinds[i..], Readable()).Some?
        invariant all.0 == vs + DecodeAll(kinds[i..], Readable()).value.0
        invariant all.1 == DecodeAll(kinds[i..], Readable()).value.1
      {
        DecodeNext(kinds, i, Readable());
        var v := Get(kinds[i]);
        vs := vs + [v];
        i := i + 1;
      }
      assert kinds[i..] == [] && vs + [] == vs;
    }
  }
}
