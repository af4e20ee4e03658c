/** The pool of message buffers of a connection. */
module ObjectPool {
  import opened MsgBuffer

  class ObjectPool {
    var freeList: seq<MsgBuffer>

    /** The buffers in borrowers' hands. */
    ghost var lent: set<MsgBuffer>

    /** No buffer is in the list twice, none that is lent is in the list, and every buffer in the
        list is in the cleared state. */
    ghost predicate Valid()
      reads this, freeList
    {
      && (forall i, j :: 0 <= i < j < |freeList| ==> freeList[i] != freeList[j])
      && (forall b :: b in freeList ==> b !in lent && b.Valid() && b.Cleared())
    }

    constructor (size: nat)
      ensures Valid() && lent == {} && |freeList| == size
      ensures forall b :: b in freeList ==> fresh(b)
    {
      freeList := [];
      lent := {};
      new;
      for i := 0 to size
        invariant Valid() && lent == {} && |freeList| == i
        invariant forall b :: b in freeList ==> fresh(b)
      {
        var b := new MsgBuffer();
        freeList := freeList + [b];
      }
    }

    /** `use`: the buffer handed out is cleared and in nobody else's hands. */
    method Use() returns (b: MsgBuffer)
      requires Valid()
      modifies this
      ensures Valid() && b.Valid() && b.Cleared()
      ensures b !in old(lent) && lent == old(lent) + {b}
      ensures if old(freeList) == [] then fresh(b) && freeList == []
              else b == old(freeList)[0] && freeList == old(freeList)[1..]
    {
      if |freeList| > 0 {
        b := freeList[0];
        freeList := freeList[1..];
      } else {
        b := new MsgBuffer();
      }
      lent := lent + {b};
    }

    /** `recycle`: the borrower clears the buffer and gives it back, once. */
    method Recycle(b: MsgBuffer)
      requires Valid() && b in lent
      modifies this, b
      ensures Valid() && lent == old(lent) - {b} && freeList == old(freeList) + [b]
    {
      b.Clear();
      freeList := freeList + [b];
      lent := lent - {b};
    }
  }
}
