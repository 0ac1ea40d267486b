/** doctest's small-buffer string: up to 23 characters live in the object, longer ones in a block
  on the heap. */
module SmallString {

  type Byte = b: int | 0 <= b < 256

  const LEN: nat := 24
  const LAST: nat := 23
  const TWO32: nat := 0x1_0000_0000

  type Block = array<Byte>

  /** The blocks that are allocated now; `delete[]` of any other block would be an error. */
  class Heap {
    ghost var live: set<Block>

    constructor ()
      ensures live == {}
    {
      live := {};
    }

    method New(n: nat) returns (block: Block)
      modifies this
      ensures fresh(block) && block.Length == n && live == old(live) + {block}
    {
      block := new Byte[n](_ => 0);
      live := live + {block};
    }

    method Delete(block: Block)
      requires block in live
      modifies this
      ensures live == old(live) - {block}
    {
      live := live - {block};
    }
  }

  /** `memcpy` of some bytes to an offset of a block. */
  method MemCpy(dst: Block, at: nat, bytes: seq<Byte>)
    requires at + |bytes| <= dst.Length
    modifies dst
    ensures forall k :: 0 <= k < dst.Length ==>
      dst[k] == if at <= k < at + |bytes| then bytes[k - at] else old(dst[k])
  {
    for i := 0 to |bytes|
      invariant forall k :: 0 <= k < dst.Length ==>
        dst[k] == if at <= k < at + i then bytes[k - at] else old(dst[k])
    {
      dst[at + i] := bytes[i];
    }
  }

  /** `memcpy` behind the first bytes of a block. */
  method CopyTail(dst: Block, ghost head: seq<Byte>, at: nat, tail: seq<Byte>)
    requires at == |head| && at + |tail| <= dst.Length && dst[..at] == head
    modifies dst
    ensures dst[..at + |tail|] == head + tail
  {
    assert forall k :: 0 <= k < at ==> dst[k] == head[k];
    MemCpy(dst, at, tail);
  }

  /** `memcpy` of some bytes into an empty block. */
  method CopyHead(dst: Block, head: seq<Byte>)
    requires |head| <= dst.Length
    modifies dst
    ensures dst[..|head|] == head
  {
    MemCpy(dst, 0, head);
  }

  /** What `size()` computes from the last byte of a string on the stack. */
  function StackSize(lastByte: Byte): int {
    LAST - lastByte % 32
  }

  class String {
    /** The 24 bytes of the object, and the view that shares storage with the first 16 of them: which
      of the two means anything depends on the last byte. */
    const buf: Block
    var ptr: array?<Byte>
    var viewSize: nat
    var capacity: nat

    predicate IsOnStack()
      reads this, buf
      requires buf.Length == LEN
    {
      buf[LAST] / 128 % 2 == 0
    }

    /** The representation invariant: on the stack exactly up to 23 characters, with the last byte
      telling how many are free; otherwise a block with room for the terminator. */
    ghost predicate Valid()
      reads this, buf
    {
      && buf.Length == LEN
      && if IsOnStack() then 0 <= StackSize(buf[LAST]) && buf[LAST] == LAST - StackSize(buf[LAST])
         else ptr != null && ptr != buf && LAST < viewSize < capacity == ptr.Length && capacity < TWO32
    }

    /** The characters of the string and the byte behind them. */
    ghost function CStr(): (s: seq<Byte>)
      requires Valid()
      reads this, buf, Owned()
      ensures |s| > 0
    {
      if IsOnStack() then buf[..StackSize(buf[LAST]) + 1] else ptr[..viewSize + 1]
    }

    /** The characters of the string. */
    ghost function Contents(): seq<Byte>
      requires Valid()
      reads this, buf, Owned()
    {
      CStr()[..|CStr()| - 1]
    }

    ghost predicate Terminated()
      requires Valid()
      reads this, buf, Owned()
    {
      CStr()[|CStr()| - 1] == 0
    }

    /** The heap block the string is responsible for. */
    ghost function Owned(): set<Block>
      requires Valid()
      reads this, buf
    {
      if IsOnStack() then {} else {ptr}
    }

    /** Two strings that share nothing. */
    ghost predicate Apart(other: String)
      requires Valid() && other.Valid()
      reads this, buf, other, other.buf
    {
      && this != other && buf != other.buf
      && buf !in other.Owned() && other.buf !in Owned() && Owned() !! other.Owned()
    }

    constructor Default()
      ensures Valid() && CStr() == [0] && fresh(buf) && Owned() == {}
    {
      buf := new Byte[LEN];
      ptr := null;
      new;
      buf[0] := 0;
      buf[LAST] := LAST;
    }

    /** From a C array of which the first `size` bytes are the characters; one byte more is copied. */
    constructor FromChars(chars: seq<Byte>, size: nat, heap: Heap)
      requires size < |chars| && size + 1 < TWO32
      modifies heap
      ensures Valid() && Contents() == chars[..size]
      ensures Terminated() <==> chars[size] == 0 || size == LAST
      ensures fresh(buf) && fresh(Owned()) && heap.live == old(heap.live) + Owned()
    {
      buf := new Byte[LEN];
      ptr := null;
      new;
      if size <= LAST {
        InitOnStack(chars, size);
      } else {
        InitOnHeap(chars[..size + 1], heap);
      }
    }

    method InitOnStack(chars: seq<Byte>, size: nat)
      requires buf.Length == LEN && size < |chars| && size <= LAST
      modifies this, buf
      ensures Valid() && Owned() == {} && Contents() == chars[..size]
      ensures Terminated() <==> chars[size] == 0 || size == LAST
    {
      StoreBytes(0, chars[..size + 1]);
      buf[LAST] := LAST - size;
      assert Contents() == buf[..size] == chars[..size];
      assert CStr()[size] == buf[size];
    }

    /** Moves into a new block of just the right size; `chars` includes the byte behind the characters. */
    method InitOnHeap(chars: seq<Byte>, heap: Heap)
      requires buf.Length == LEN && LAST + 1 < |chars| < TWO32
      modifies this, buf, heap
      ensures Valid() && CStr() == chars && Contents() == chars[..|chars| - 1]
      ensures fresh(Owned()) && heap.live == old(heap.live) + Owned()
    {
      buf[LAST] := 128;
      var block := heap.New(|chars|);
      StoreView(block, |chars| - 1, |chars|);
      MemCpy(ptr, 0, chars);
      assert CStr() == ptr[..|chars|] == chars;
    }

    /** Writing the view overwrites the bytes it shares storage with. */
    method StoreView(block: Block, size: nat, capacity: nat)
      requires buf.Length == LEN
      modifies this, buf
      ensures ptr == block && viewSize == size && this.capacity == capacity
      ensures forall k :: 16 <= k < LEN ==> buf[k] == old(buf[k])
    {
      ptr, viewSize, this.capacity := block, size, capacity;
      for i := 0 to 16
        modifies buf
        invariant forall k :: 16 <= k < LEN ==> buf[k] == old(buf[k])
      {
        buf[i] := *;
      }
    }

    /** Writing the bytes of a string on the stack overwrites the view. */
    method StoreBytes(at: nat, bytes: seq<Byte>)
      requires buf.Length == LEN && at + |bytes| <= LEN
      modifies this, buf
      ensures forall k :: 0 <= k < LEN ==>
        buf[k] == if at <= k < at + |bytes| then bytes[k - at] else old(buf[k])
    {
      MemCpy(buf, at, bytes);
      ptr, viewSize, capacity := null, *, *;
    }

    /** `copy`: takes over the characters of another string, into a block of its own if it has one.
      Whatever this string owned must have been given back. */
    method Copy(other: String, heap: Heap)
      requires buf.Length == LEN && other.Valid() && this != other && buf != other.buf && buf !in other.Owned()
      modifies this, buf, heap
      ensures Valid() && Apart(other) && CStr() == old(other.CStr())
      ensures other.Valid() && other.CStr() == old(other.CStr()) && other.Owned() == old(other.Owned())
      ensures fresh(Owned()) && heap.live == old(heap.live) + Owned()
    {
      if other.IsOnStack() {
        StoreBytes(0, other.buf[..]);
      } else {
        InitOnHeap(other.ptr[..other.viewSize + 1], heap);
      }
    }

    method Size() returns (size: nat)
      requires Valid()
      ensures size == |Contents()|
    {
      if IsOnStack() {
        size := LAST - buf[LAST] % 32;
      } else {
        size := viewSize;
      }
    }

    method Get(i: nat) returns (c: Byte)
      requires Valid() && i < |CStr()|
      ensures c == CStr()[i]
    {
      if IsOnStack() {
        c := buf[i];
      } else {
        c := ptr[i];
      }
    }

    /** Writing through `operator[]`. */
    method Set(i: nat, c: Byte)
      requires Valid() && i < |Contents()|
      modifies buf, Owned()
      ensures Valid() && CStr() == old(CStr())[i := c] && Owned() == old(Owned())
    {
      if IsOnStack() {
        buf[i] := c;
      } else {
        ptr[i] := c;
      }
    }

    /** The destructor gives back what the string owns. */
    method Destroy(heap: Heap)
      requires Valid() && Owned() <= heap.live
      modifies heap
      ensures heap.live == old(heap.live) - Owned()
    {
      if !IsOnStack() {
        heap.Delete(ptr);
      }
    }

    method Assign(other: String, heap: Heap)
      requires Valid() && Owned() <= heap.live && (this == other || (other.Valid() && Apart(other)))
      modifies this, buf, heap
      ensures Valid() && CStr() == old(other.CStr()) && fresh(Owned() - old(Owned()))
      ensures heap.live == old(heap.live) - old(Owned()) + Owned()
      ensures other != this ==>
        other.Valid() && Apart(other) && other.CStr() == old(other.CStr()) && other.Owned() == old(other.Owned())
    {
      if this != other {
        Destroy(heap);
        Copy(other, heap);
      }
    }

    /** Takes over bytes and view of another string and leaves it empty. */
    method Take(other: String)
      requires buf.Length == LEN && other.Valid() && this != other && buf != other.buf && buf !in other.Owned()
      modifies this, buf, other, other.buf
      ensures Valid() && CStr() == old(other.CStr()) && Owned() == old(other.Owned())
      ensures other.Valid() && other.CStr() == [0] && other.Owned() == {}
    {
      MemCpy(buf, 0, other.buf[..]);
      ptr, viewSize, capacity := other.ptr, other.viewSize, other.capacity;
      other.buf[0] := 0;
      other.buf[LAST] := LAST;
    }

    constructor Move(other: String)
      requires other.Valid()
      modifies other, other.buf
      ensures Valid() && CStr() == old(other.CStr()) && Owned() == old(other.Owned()) && fresh(buf)
      ensures other.Valid() && other.CStr() == [0] && other.Owned() == {}
    {
      buf := new Byte[LEN];
      ptr := null;
      new;
      Take(other);
    }

    constructor FromCopy(other: String, heap: Heap)
      requires other.Valid()
      modifies heap
      ensures Valid() && Apart(other) && CStr() == old(other.CStr()) && fresh(buf) && fresh(Owned())
      ensures Contents() == old(other.Contents())
      ensures other.Valid() && other.CStr() == old(other.CStr()) && other.Owned() == old(other.Owned())
      ensures heap.live == old(heap.live) + Owned()
    {
      buf := new Byte[LEN];
      ptr := null;
      new;
      Copy(other, heap);
    }

    method MoveAssign(other: String, heap: Heap)
      requires Valid() && Owned() <= heap.live && (this == other || (other.Valid() && Apart(other)))
      modifies this, buf, other, other.buf, heap
      ensures Valid() && CStr() == old(other.CStr()) && Owned() == old(other.Owned())
      ensures other != this ==>
        && other.Valid() && other.CStr() == [0] && other.Owned() == {}
        && heap.live == old(heap.live) - old(Owned())
      ensures other == this ==> heap.live == old(heap.live)
    {
      if this != other {
        Destroy(heap);
        Take(other);
      }
    }

    /** `operator+=` for another string. */
    method Append(other: String, heap: Heap)
      requires Valid() && other.Valid() && Apart(other) && Owned() <= heap.live
      requires |Contents()| + |other.Contents()| + 1 < TWO32
      modifies this, buf, Owned(), heap
      ensures Valid() && Contents() == old(Contents()) + old(other.Contents())
      ensures old(other.Terminated()) ==> Terminated()
      ensures other.Valid() && other.CStr() == old(other.CStr()) && other.Owned() == old(other.Owned())
      ensures fresh(Owned() - old(Owned())) && heap.live == old(heap.live) - old(Owned()) + Owned()
    {
      var tail :=
        if other.IsOnStack() then other.buf[..StackSize(other.buf[LAST]) + 1] else other.ptr[..other.viewSize + 1];
      if IsOnStack() {
        AppendOnStack(tail, heap);
      } else {
        AppendOnHeap(tail, heap);
      }
    }

    /** `tail` holds the characters to append and the byte behind them. */
    method AppendOnStack(tail: seq<Byte>, heap: Heap)
      requires Valid() && IsOnStack() && |tail| > 0 && |Contents()| + |tail| < TWO32
      modifies this, buf, heap
      ensures Valid() && Contents() == old(Contents()) + tail[..|tail| - 1]
      ensures tail[|tail| - 1] == 0 ==> Terminated()
      ensures fresh(Owned()) && heap.live == old(heap.live) + Owned()
    {
      var size := Size();
      var total := (size + (|tail| - 1)) % TWO32;
      ghost var head := Contents();
      assert buf[..size] == head;
      if total < LEN {
        FillStack(head, size, tail);
      } else {
        Spill(head, size, total, tail, heap);
      }
    }

    /** Moves from the stack to a new block of just the right size and appends there. */
    method Spill(ghost head: seq<Byte>, size: nat, total: nat, tail: seq<Byte>, heap: Heap)
      requires buf.Length == LEN && size == |head| < LEN && buf[..size] == head
      requires |tail| > 0 && LAST < total == size + |tail| - 1 && total + 1 < TWO32
      modifies this, buf, heap
      ensures Valid() && CStr() == head + tail
      ensures fresh(Owned()) && heap.live == old(heap.live) + Owned()
    {
      var temp := heap.New(total + 1);
      CopyHead(temp, buf[..size]);
      buf[LAST] := 128;
      StoreView(temp, total, total + 1);
      CopyTail(temp, head, size, tail);
      assert CStr() == ptr[..total + 1];
    }

    method FillStack(ghost head: seq<Byte>, size: nat, tail: seq<Byte>)
      requires buf.Length == LEN && |tail| > 0 && size == |head| && size + |tail| <= LEN && buf[..size] == head
      modifies this, buf
      ensures Valid() && Owned() == {} && Contents() == head + tail[..|tail| - 1]
      ensures tail[|tail| - 1] == 0 ==> Terminated()
    {
      var total := size + |tail| - 1;
      ghost var bytes := head + tail;
      assert forall k :: 0 <= k < size ==> buf[k] == head[k];
      StoreBytes(size, tail);
      assert forall k :: 0 <= k <= total ==> buf[k] == bytes[k];
      buf[LAST] := LAST - total;
      assert CStr() == buf[..total + 1];
      assert Contents() == bytes[..total] == head + tail[..|tail| - 1];
      assert total < LAST ==> CStr()[total] == bytes[total];
    }

    method AppendOnHeap(tail: seq<Byte>, heap: Heap)
      requires Valid() && !IsOnStack() && |tail| > 0 && Owned() <= heap.live && |Contents()| + |tail| < TWO32
      modifies this, Owned(), heap
      ensures Valid() && CStr() == old(Contents()) + tail
      ensures fresh(Owned() - old(Owned())) && heap.live == old(heap.live) - old(Owned()) + Owned()
      ensures buf[LAST] == old(buf[LAST])
      ensures var total := |old(Contents())| + |tail| - 1;
        if total < old(capacity) then ptr == old(ptr) && capacity == old(capacity)
        else
          && fresh(ptr)
          && capacity == if old(capacity) * 2 % TWO32 > total then old(capacity) * 2 % TWO32 else total + 1
    {
      var size := viewSize;
      var total := (size + (|tail| - 1)) % TWO32;
      ghost var head := Contents();
      assert ptr[..size] == head;
      if capacity > total {
        viewSize := total;
        CopyTail(ptr, head, size, tail);
      } else {
        capacity := capacity * 2 % TWO32;
        if capacity <= total {
          capacity := total + 1;
        }
        Grow(head, size, total, tail, heap);
      }
      assert CStr() == ptr[..total + 1];
    }

    /** Moves to a new block of `capacity` bytes and appends there. */
    method Grow(ghost head: seq<Byte>, size: nat, total: nat, tail: seq<Byte>, heap: Heap)
      requires ptr != null && ptr in heap.live && size == |head| <= ptr.Length && ptr[..size] == head
      requires |tail| > 0 && total == size + |tail| - 1 < capacity
      modifies this`ptr, this`viewSize, heap
      ensures ptr != null && fresh(ptr) && ptr.Length == capacity
      ensures ptr[..total + 1] == head + tail && viewSize == total
      ensures heap.live == old(heap.live) - {old(ptr)} + {ptr}
    {
      var temp := heap.New(capacity);
      CopyHead(temp, ptr[..size]);
      heap.Delete(ptr);
      viewSize := total;
      ptr := temp;
      CopyTail(temp, head, size, tail);
    }

    /** `operator+`: a copy, appended to. */
    method Plus(other: String, heap: Heap) returns (r: String)
      requires Valid() && other.Valid()
      requires |Contents()| + |other.Contents()| + 1 < TWO32
      modifies heap
      ensures r.Valid() && r.Contents() == Contents() + other.Contents()
      ensures other.Terminated() ==> r.Terminated()
      ensures fresh(r) && fresh(r.buf) && fresh(r.Owned()) && heap.live == old(heap.live) + r.Owned()
    {
      hide Contents;
      r := new String.FromCopy(this, heap);
      assert other.Valid() && r.Apart(other);
      assert other.CStr() == old(other.CStr()) && other.Contents() == old(other.Contents());
      r.Append(other, heap);
    }
  }

  // ----- several strings on one heap, used in any order -----

  /** Who owns what: no block is shared or doubles as the bytes of a string, every owned block is
    live, and every live block has an owner. */
  ghost predicate Exclusive(strings: seq<String>, owned: seq<set<Block>>, live: set<Block>) {
    && |owned| == |strings|
    && (forall i, j :: 0 <= i < j < |strings| ==> strings[i] != strings[j] && strings[i].buf != strings[j].buf)
    && (forall i, j :: 0 <= i < j < |strings| ==> owned[i] !! owned[j])
    && (forall i, j :: 0 <= i < |strings| && 0 <= j < |strings| ==> strings[i].buf !in owned[j])
    && (forall i :: 0 <= i < |strings| ==> owned[i] <= live)
    && (forall b :: b in live ==> exists i :: 0 <= i < |strings| && b in owned[i])
  }

  /** String i exchanged what it owned for blocks it owned before or that are new. */
  lemma ExchangeKeepsExclusive(strings: seq<String>, owned: seq<set<Block>>, live: set<Block>, i: nat, mine: set<Block>)
    requires Exclusive(strings, owned, live) && i < |strings|
    requires forall b :: b in mine - owned[i] ==> b !in live && forall k :: 0 <= k < |strings| ==> strings[k].buf != b
    ensures Exclusive(strings, owned[i := mine], live - owned[i] + mine)
  {
    var owned' := owned[i := mine];
    forall b | b in live - owned[i] + mine
      ensures exists k :: 0 <= k < |strings| && b in owned'[k]
    {
      if b in mine {
        assert b in owned'[i];
      } else {
        var k :| 0 <= k < |strings| && b in owned[k];
        assert b in owned'[k];
      }
    }
  }

  /** String i took over what string j owned. */
  lemma MoveKeepsExclusive(strings: seq<String>, owned: seq<set<Block>>, live: set<Block>, i: nat, j: nat)
    requires Exclusive(strings, owned, live) && i < |strings| && j < |strings| && i != j
    ensures Exclusive(strings, owned[i := owned[j]][j := {}], live - owned[i])
  {
    var owned' := owned[i := owned[j]][j := {}];
    assert forall k :: 0 <= k < |strings| ==> owned'[k] == if k == i then owned[j] else if k == j then {} else owned[k];
    forall b | b in live - owned[i]
      ensures exists k :: 0 <= k < |strings| && b in owned'[k]
    {
      var k :| 0 <= k < |strings| && b in owned[k];
      assert b in owned'[if k == j then i else k];
    }
  }

  ghost predicate AllValid(strings: seq<String>)
    reads strings, set s | s in strings :: s.buf
  {
    forall i :: 0 <= i < |strings| ==> strings[i].Valid()
  }

  ghost function OwnedBy(strings: seq<String>): (owned: seq<set<Block>>)
    requires AllValid(strings)
    reads strings, set s | s in strings :: s.buf
    ensures |owned| == |strings| && forall i :: 0 <= i < |strings| ==> owned[i] == strings[i].Owned()
  {
    seq(|strings|, i requires 0 <= i < |strings| && AllValid(strings)
                     reads strings, set s | s in strings :: s.buf => strings[i].Owned())
  }

  /** No block is shared, none is leaked, and none that is used was given back. */
  ghost predicate Sound(strings: seq<String>, heap: Heap)
    reads heap, strings, set s | s in strings :: s.buf
  {
    AllValid(strings) && Exclusive(strings, OwnedBy(strings), heap.live)
  }

  lemma SoundMeansApart(strings: seq<String>, heap: Heap, i: nat)
    requires Sound(strings, heap) && i < |strings|
    ensures strings[i].Owned() <= heap.live
    ensures forall k :: 0 <= k < |strings| && k != i ==> strings[k].Apart(strings[i]) && strings[i].Apart(strings[k])
  {
  }

  method AppendAmong(strings: seq<String>, heap: Heap, i: nat, j: nat)
    requires Sound(strings, heap) && i < |strings| && j < |strings| && i != j
    requires |strings[i].Contents()| + |strings[j].Contents()| + 1 < TWO32
    modifies strings[i], strings[i].buf, strings[i].Owned(), heap
    ensures Sound(strings, heap)
    ensures strings[i].Contents() == old(strings[i].Contents()) + old(strings[j].Contents())
    ensures forall k :: 0 <= k < |strings| && k != i ==> strings[k].CStr() == old(strings[k].CStr())
  {
    hide Exclusive;
    ghost var owned, live := OwnedBy(strings), heap.live;
    SoundMeansApart(strings, heap, i);
    strings[i].Append(strings[j], heap);
    forall k | 0 <= k < |strings| && k != i
      ensures strings[k].Valid() && strings[k].CStr() == old(strings[k].CStr()) && strings[k].Owned() == owned[k]
    {
    }
    ExchangeKeepsExclusive(strings, owned, live, i, strings[i].Owned());
    assert OwnedBy(strings) == owned[i := strings[i].Owned()];
  }

  method AssignAmong(strings: seq<String>, heap: Heap, i: nat, j: nat)
    requires Sound(strings, heap) && i < |strings| && j < |strings|
    modifies strings[i], strings[i].buf, heap
    ensures Sound(strings, heap)
    ensures strings[i].CStr() == old(strings[j].CStr())
    ensures forall k :: 0 <= k < |strings| && k != i ==> strings[k].CStr() == old(strings[k].CStr())
  {
    hide Exclusive;
    ghost var owned, live := OwnedBy(strings), heap.live;
    SoundMeansApart(strings, heap, i);
    strings[i].Assign(strings[j], heap);
    forall k | 0 <= k < |strings| && k != i
      ensures strings[k].Valid() && strings[k].CStr() == old(strings[k].CStr()) && strings[k].Owned() == owned[k]
    {
    }
    ExchangeKeepsExclusive(strings, owned, live, i, strings[i].Owned());
    assert OwnedBy(strings) == owned[i := strings[i].Owned()];
  }

  method MoveAmong(strings: seq<String>, heap: Heap, i: nat, j: nat)
    requires Sound(strings, heap) && i < |strings| && j < |strings|
    modifies strings[i], strings[i].buf, strings[j], strings[j].buf, heap
    ensures Sound(strings, heap)
    ensures strings[i].CStr() == old(strings[j].CStr()) && (i != j ==> strings[j].CStr() == [0])
    ensures forall k :: 0 <= k < |strings| && k != i && k != j ==> strings[k].CStr() == old(strings[k].CStr())
  {
    hide Exclusive;
    ghost var owned, live := OwnedBy(strings), heap.live;
    SoundMeansApart(strings, heap, i);
    SoundMeansApart(strings, heap, j);
    strings[i].MoveAssign(strings[j], heap);
    forall k | 0 <= k < |strings| && k != i && k != j
      ensures strings[k].Valid() && strings[k].CStr() == old(strings[k].CStr()) && strings[k].Owned() == owned[k]
    {
    }
    if i != j {
      MoveKeepsExclusive(strings, owned, live, i, j);
      assert OwnedBy(strings) == owned[i := owned[j]][j := {}];
    } else {
      assert OwnedBy(strings) == owned;
    }
  }
}
