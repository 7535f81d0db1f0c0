/**
 doctest's `String`: 24 bytes that hold short strings themselves and longer ones by a pointer, size and
 capacity laid over the first sixteen of them. Writing either view of that storage leaves the other
 one with arbitrary contents. The last byte is the length that is left, the terminator of a string of
 23, or the mark of the heap form.
 */
module DocString {
  import opened Characters

  const LEN: nat := 24
  const LAST: nat := 23
  const VIEW: nat := 16
  const ON_HEAP: Byte := 128

  // ------------------------------------------------------------------------ memory

  /** The storage that may be touched: blocks allocated and not yet released, and the bytes of the strings
      in being. */
  class Memory {
    ghost var blocks: set<array<Byte>>
    ghost var buffers: set<array<Byte>>

    constructor ()
      ensures blocks == {} && buffers == {}
    {
      blocks, buffers := {}, {};
    }

    ghost predicate Usable(block: array<Byte>)
      reads this
    {
      block in blocks || block in buffers
    }

    /** `new char[n]`: what the block holds is arbitrary. */
    method New(n: nat) returns (block: array<Byte>)
      modifies this
      ensures fresh(block) && block.Length == n
      ensures blocks == old(blocks) + {block} && buffers == old(buffers)
    {
      block := new Byte[n];
      blocks := blocks + {block};
    }

    /** `delete[]`: only of a block that was allocated and not yet released. */
    method Delete(block: array<Byte>)
      requires block in blocks
      modifies this
      ensures blocks == old(blocks) - {block} && buffers == old(buffers)
    {
      blocks := blocks - {block};
    }

    /** The bytes of a string begin and end with it. */
    method Begin() returns (buffer: array<Byte>)
      modifies this
      ensures fresh(buffer) && buffer.Length == LEN
      ensures blocks == old(blocks) && buffers == old(buffers) + {buffer}
    {
      buffer := new Byte[LEN];
      buffers := buffers + {buffer};
    }

    method End(buffer: array<Byte>)
      modifies this
      ensures blocks == old(blocks) && buffers == old(buffers) - {buffer}
    {
      buffers := buffers - {buffer};
    }
  }

  /** Write bytes to a place in a block. */
  method CopyBytes(m: Memory, block: array<Byte>, at: nat, source: seq<Byte>)
    requires at + |source| <= block.Length && m.Usable(block)
    modifies block
    ensures block[..at] == old(block[..at])
    ensures block[at..at + |source|] == source
    ensures block[at + |source|..] == old(block[at + |source|..])
  {
    var i := 0;
    while i < |source|
      invariant i <= |source|
      invariant forall k :: 0 <= k < at ==> block[k] == old(block[k])
      invariant forall k :: 0 <= k < i ==> block[at + k] == source[k]
      invariant forall k :: at + i <= k < block.Length ==> block[k] == old(block[k])
    {
      block[at + i] := source[i];
      i := i + 1;
    }
  }

  /** Two ranges of n bytes share a byte. */
  predicate Overlap(a: array<Byte>, i: nat, b: array<Byte>, j: nat, n: nat) { a == b && i < j + n && j < i + n }

  /** `memcpy`, which is undefined if its ranges overlap: the bytes written are then arbitrary. */
  method Memcpy(m: Memory, target: array<Byte>, i: nat, source: array<Byte>, j: nat, n: nat) returns (defined: bool)
    requires i + n <= target.Length && j + n <= source.Length && m.Usable(target) && m.Usable(source)
    modifies target
    ensures defined <==> !Overlap(target, i, source, j, n)
    ensures target[..i] == old(target[..i]) && target[i + n..] == old(target[i + n..])
    ensures defined ==> target[i..i + n] == old(source[j..j + n])
  {
    defined := !Overlap(target, i, source, j, n);
    var bytes := source[j..j + n];
    if !defined {
      bytes := *;
      if |bytes| != n { bytes := source[j..j + n]; }
    }
    CopyBytes(m, target, i, bytes);
  }

  /** A block that is large enough stays; one that is not is doubled, or replaced by one that is just large
      enough. */
  function NewCapacity(old': nat, size: nat): (c: nat)
    ensures c > size && c >= old'
    ensures size < old' ==> c == old'
    ensures size >= old' ==> c == 2 * old' || (c == size + 1 && c > 2 * old')
  {
    if size < old' then old' else if 2 * old' > size then 2 * old' else size + 1
  }

  class String {
    const buf: array<Byte>
    // the view
    var ptr: array?<Byte>
    var size: nat
    var capacity: nat

    predicate IsOnStack()
      requires buf.Length == LEN
      reads buf
    {
      buf[LAST] / 128 % 2 == 0
    }

    /** What is true of every string: up to 23 characters in place, more than that on the heap in a block
        with room to spare, and a NUL after the last character either way. */
    ghost predicate Valid()
      reads this, buf, ptr
    {
      && buf.Length == LEN
      && if IsOnStack() then buf[LAST] <= LAST && buf[LAST - buf[LAST]] == 0
         else
           && buf[LAST] == ON_HEAP && ptr != null && ptr != buf
           && LAST < size < capacity == ptr.Length && ptr[size] == 0
    }

    /** The characters. */
    ghost function Contents(): seq<Byte>
      requires Valid()
      reads this, buf, ptr
    {
      if IsOnStack() then buf[..LAST - buf[LAST]] else ptr[..size]
    }

    /** The block a string holds, if it is in the heap form. */
    ghost function Blocks(): set<array<Byte>>
      requires buf.Length == LEN
      reads this, buf
    {
      if !IsOnStack() && ptr != null then {ptr} else {}
    }

    /** The storage a string owns. */
    ghost function Owned(): set<object>
      requires buf.Length == LEN
      reads this, buf
    {
      {this, buf} + Blocks()
    }

    /** That storage may be touched. */
    ghost predicate Live(m: Memory)
      requires buf.Length == LEN
      reads this, buf, m
    {
      buf in m.buffers && Blocks() <= m.blocks
    }

    method Size() returns (n: nat)
      requires Valid()
      ensures n == |Contents()|
    {
      if IsOnStack() {
        return LAST - buf[LAST] % 32;
      }
      return size;
    }

    /** `c_str()`: where the characters and the NUL after them are. */
    method CStr() returns (chars: array<Byte>)
      requires buf.Length == LEN && (IsOnStack() || ptr != null)
      ensures chars == if IsOnStack() then buf else ptr
      ensures Valid() ==> var n := |Contents()|; n < chars.Length && chars[..n + 1] == Contents() + [0]
    {
      if IsOnStack() {
        return buf;
      }
      return ptr;
    }

    /** Writing bytes through `buf` spoils the view. */
    method SpoilView()
      modifies this
      ensures unchanged(buf)
    {
      ptr, size, capacity := *, *, *;
    }

    /** Writing the view spoils the bytes it lies over. */
    method SetView(p: array<Byte>, s: nat, c: nat)
      requires buf.Length == LEN
      modifies this, buf
      ensures ptr == p && size == s && capacity == c
      ensures buf[LAST] == old(buf[LAST])
    {
      ptr, size, capacity := p, s, c;
      for i := 0 to VIEW
        invariant buf[LAST] == old(buf[LAST])
        invariant ptr == p && size == s && capacity == c
      {
        buf[i] := *;
      }
    }

    /** All 24 bytes of another string, under both views. */
    method CopyStorage(m: Memory, other: String)
      requires buf.Length == LEN && other.buf.Length == LEN && buf != other.buf
      requires buf in m.buffers && other.buf in m.buffers
      modifies this, buf
      ensures buf[..] == other.buf[..]
      ensures ptr == other.ptr && size == other.size && capacity == other.capacity
    {
      var _ := Memcpy(m, buf, 0, other.buf, 0, LEN);
      ptr, size, capacity := other.ptr, other.size, other.capacity;
      assert buf[..] == buf[0..0 + LEN];
      assert other.buf[..] == other.buf[0..0 + LEN];
    }

    method SetLast(n: Byte)
      requires buf.Length == LEN
      modifies buf
      ensures buf[LAST] == n
      ensures forall i :: 0 <= i < LAST ==> buf[i] == old(buf[i])
    {
      buf[LAST] := n;
    }

    /** Room for n characters and their terminator, in place if they fit. */
    method Allocate(m: Memory, n: nat) returns (block: array<Byte>)
      requires buf.Length == LEN
      modifies this, buf, m
      ensures n < block.Length && block[n] == 0
      ensures n <= LAST ==> block == buf && buf[LAST] == LAST - n && m.blocks == old(m.blocks)
      ensures n > LAST ==> fresh(block) && buf[LAST] == ON_HEAP && m.blocks == old(m.blocks) + {block}
      ensures n > LAST ==> ptr == block && size == n && capacity == block.Length == n + 1
      ensures m.buffers == old(m.buffers)
    {
      if n <= LAST {
        buf[n] := 0;
        SpoilView();
        SetLast(LAST - n);
        return buf;
      }
      SetLast(ON_HEAP);
      block := m.New(n + 1);
      SetView(block, n, n + 1);
      block[n] := 0;
    }

    /** Take over the given characters. */
    method Fill(m: Memory, source: seq<Byte>)
      requires buf.Length == LEN && buf in m.buffers
      modifies this, buf, m
      ensures Valid() && Contents() == source
      ensures IsOnStack() <==> |source| <= LAST
      ensures !IsOnStack() ==> capacity == |source| + 1
      ensures fresh(Owned() - {this, buf})
      ensures m.blocks == old(m.blocks) + Blocks() && m.buffers == old(m.buffers)
    {
      var block := Allocate(m, |source|);
      CopyBytes(m, block, 0, source);
      assert block[..|source|] == block[0..0 + |source|];
      assert block[|source|] == block[0 + |source|..][0];
      if block == buf {
        assert buf[LAST] == buf[0 + |source|..][LAST - |source|];
        SpoilView();
      }
    }

    /** `String()`. */
    constructor (m: Memory)
      modifies m
      ensures Valid() && Contents() == [] && IsOnStack() && fresh(Owned())
      ensures m.blocks == old(m.blocks) && m.buffers == old(m.buffers) + {buf}
    {
      var buffer := m.Begin();
      buf := buffer;
      ptr, size, capacity := null, 0, 0;
      new;
      buf[0] := 0;
      SetLast(LAST);
    }

    /** `~String()`. */
    method Destroy(m: Memory)
      requires Valid() && Live(m)
      modifies m
      ensures m.blocks == old(m.blocks) - Blocks() && m.buffers == old(m.buffers) - {buf}
    {
      if !IsOnStack() {
        m.Delete(ptr);
      }
      m.End(buf);
    }

    /** `String(const char*, size)`. */
    constructor FromChars(m: Memory, source: seq<Byte>)
      modifies m
      ensures Valid() && Contents() == source && fresh(Owned())
      ensures m.blocks == old(m.blocks) + Blocks() && m.buffers == old(m.buffers) + {buf}
    {
      var buffer := m.Begin();
      buf := buffer;
      ptr, size, capacity := null, 0, 0;
      new;
      Fill(m, source);
    }

    /** `copy`, into a string that holds no block. */
    method CopyFrom(m: Memory, other: String)
      requires buf.Length == LEN && buf in m.buffers && other.Valid() && other.Live(m) && {this, buf} !! other.Owned()
      modifies this, buf, m
      ensures Valid() && Contents() == old(other.Contents())
      ensures other.Valid() && other.Contents() == old(other.Contents())
      ensures fresh(Owned() - {this, buf})
      ensures m.blocks == old(m.blocks) + Blocks() && m.buffers == old(m.buffers)
    {
      if other.IsOnStack() {
        CopyStorage(m, other);
        assert buf[LAST] == buf[..][LAST] == other.buf[..][LAST];
        assert forall i :: 0 <= i < LEN ==> buf[i] == buf[..][i] == other.buf[..][i];
      } else {
        CopyBlock(m, other);
      }
    }

    method CopyBlock(m: Memory, other: String)
      requires buf.Length == LEN && buf in m.buffers && other.Valid() && other.Live(m) && {this, buf} !! other.Owned()
      requires !other.IsOnStack()
      modifies this, buf, m
      ensures Valid() && Contents() == old(other.Contents())
      ensures fresh(Owned() - {this, buf})
      ensures m.blocks == old(m.blocks) + Blocks() && m.buffers == old(m.buffers)
    {
      var n := other.size;
      var block := Allocate(m, n);
      var _ := Memcpy(m, block, 0, other.ptr, 0, n);
      assert block[..n] == block[0..0 + n];
      assert other.ptr[..n] == other.ptr[0..0 + n];
      assert block[n] == block[0 + n..][0];
    }

    /** The copy constructor. */
    constructor Copy(m: Memory, other: String)
      requires other.Valid() && other.Live(m)
      modifies m
      ensures Valid() && Contents() == other.Contents() && fresh(Owned())
      ensures other.Valid() && other.Contents() == old(other.Contents())
      ensures m.blocks == old(m.blocks) + Blocks() && m.buffers == old(m.buffers) + {buf}
    {
      var buffer := m.Begin();
      buf := buffer;
      ptr, size, capacity := null, 0, 0;
      new;
      CopyFrom(m, other);
    }

    /** Release the block, if there is one. */
    method Release(m: Memory)
      requires Valid() && Live(m)
      modifies m
      ensures m.blocks == old(m.blocks) - Blocks() && m.buffers == old(m.buffers)
    {
      if !IsOnStack() {
        m.Delete(ptr);
      }
    }

    /** Copy assignment; assigning a string to itself does nothing. */
    method Assign(m: Memory, other: String)
      requires Valid() && other.Valid() && (this != other ==> Owned() !! other.Owned())
      requires Live(m) && other.Live(m)
      modifies this, buf, m
      ensures Valid() && Contents() == old(other.Contents())
      ensures other.Valid() && other.Contents() == old(other.Contents())
      ensures fresh(Owned() - old(Owned())) && (this != other ==> Owned() !! other.Owned())
      ensures m.blocks == old(m.blocks - Blocks()) + Blocks() && m.buffers == old(m.buffers)
    {
      if this != other {
        Release(m);
        CopyFrom(m, other);
      }
    }

    /** The move constructor. */
    constructor Move(m: Memory, other: String)
      requires other.Valid() && other.Live(m)
      modifies m, other, other.buf
      ensures Valid() && Contents() == old(other.Contents())
      ensures other.Valid() && other.Contents() == []
      ensures fresh(Owned() - old(other.Blocks())) && other.Owned() <= old(other.Owned()) && Owned() !! other.Owned()
      ensures Blocks() == old(other.Blocks()) && other.Blocks() == {}
      ensures m.blocks == old(m.blocks) && m.buffers == old(m.buffers) + {buf}
    {
      var buffer := m.Begin();
      buf := buffer;
      ptr, size, capacity := null, 0, 0;
      new;
      CopyStorage(m, other);
      StorageCopied(other);
      other.Clear();
    }

    /** Move assignment; moving a string to itself does nothing. */
    method MoveAssign(m: Memory, other: String)
      requires Valid() && other.Valid() && (this != other ==> Owned() !! other.Owned())
      requires Live(m) && other.Live(m)
      modifies this, buf, other, other.buf, m
      ensures Valid() && Contents() == old(other.Contents())
      ensures other.Valid() && (this != other ==> other.Contents() == [])
      ensures this == other ==> unchanged(this, m)
      ensures Owned() <= old(Owned() + other.Owned()) && other.Owned() <= old(other.Owned())
      ensures Blocks() == old(other.Blocks())
      ensures this != other ==> other.Blocks() == {} && m.blocks == old(m.blocks - Blocks())
      ensures this != other ==> Owned() !! other.Owned()
      ensures m.buffers == old(m.buffers)
    {
      if this != other {
        Release(m);
        CopyStorage(m, other);
        StorageCopied(other);
        other.Clear();
      }
    }

    lemma StorageCopied(other: String)
      requires other.Valid() && buf.Length == LEN && buf[..] == other.buf[..]
      requires other.IsOnStack() || buf != other.ptr
      requires ptr == other.ptr && size == other.size && capacity == other.capacity
      ensures Valid() && Contents() == other.Contents() && (IsOnStack() <==> other.IsOnStack())
    {}

    /** Give up the storage and be empty. */
    method Clear()
      requires buf.Length == LEN
      modifies this, buf
      ensures Valid() && Contents() == [] && IsOnStack()
    {
      buf[0] := 0;
      SpoilView();
      SetLast(LAST);
    }

    /** `operator+=` of another string. Appending a string to itself, and only that, makes the last `memcpy`
        read what it writes. */
    method Append(m: Memory, other: String) returns (defined: bool)
      requires Valid() && other.Valid() && (this != other ==> Owned() !! other.Owned())
      requires Live(m) && other.Live(m)
      modifies Owned(), m
      ensures defined <==> this != other
      ensures defined ==> Valid() && Contents() == old(Contents()) + old(other.Contents())
      ensures defined ==> other.Valid() && other.Contents() == old(other.Contents())
      ensures defined ==> fresh(Owned() - old(Owned())) && Owned() !! other.Owned()
      ensures defined ==> m.blocks == old(m.blocks - Blocks()) + Blocks() && m.buffers == old(m.buffers)
      ensures defined ==> (IsOnStack() <==> old(IsOnStack()) && |Contents()| <= LAST)
      ensures defined && !IsOnStack() ==>
        capacity == if old(IsOnStack()) then |Contents()| + 1 else NewCapacity(old(capacity), |Contents()|)
    {
      var oldSize := Size();
      var otherSize := other.Size();
      var total := oldSize + otherSize;
      hide Contents;
      if IsOnStack() && total < LEN {
        defined := AppendInPlace(m, other, oldSize, otherSize);
      } else {
        defined := AppendOnHeap(m, other, oldSize, otherSize);
      }
      if defined {
        Untouched(other);
      }
    }

    /** Append to the current stack space. */
    method AppendInPlace(m: Memory, other: String, oldSize: nat, otherSize: nat) returns (defined: bool)
      requires Valid() && IsOnStack() && oldSize == |Contents()| && oldSize + otherSize < LEN
      requires other.Valid() && otherSize == |other.Contents()| && (this != other ==> Owned() !! other.Owned())
      requires Live(m) && other.Live(m)
      modifies this, buf
      ensures defined <==> this != other
      ensures defined ==> Valid() && IsOnStack() && Contents() == old(Contents()) + old(other.Contents())
    {
      defined := other.CopyAfter(m, buf, oldSize, otherSize);
      SpoilView();
      SetLast(LAST - (oldSize + otherSize));
    }

    /** Append in a heap block, the present one or a new one. */
    method AppendOnHeap(m: Memory, other: String, oldSize: nat, otherSize: nat) returns (defined: bool)
      requires Valid() && oldSize == |Contents()| && (IsOnStack() ==> oldSize + otherSize >= LEN)
      requires other.Valid() && otherSize == |other.Contents()| && (this != other ==> Owned() !! other.Owned())
      requires Live(m) && other.Live(m)
      modifies Owned(), m
      ensures defined <==> this != other
      ensures defined ==> Valid() && Contents() == old(Contents()) + old(other.Contents())
      ensures fresh(Blocks() - old(Blocks())) && !IsOnStack()
      ensures m.blocks == old(m.blocks - Blocks()) + Blocks() && m.buffers == old(m.buffers)
      ensures var n := oldSize + otherSize;
        capacity == if old(IsOnStack()) then n + 1 else NewCapacity(old(capacity), n)
    {
      MakeRoom(m, oldSize, oldSize + otherSize);
      defined := Transfer(m, other, oldSize, otherSize, old(Contents()));
    }

    /** Have the characters in a block that has room for the total. */
    method MakeRoom(m: Memory, oldSize: nat, total: nat)
      requires Valid() && Live(m) && oldSize == |Contents()| <= total && (IsOnStack() ==> total >= LEN)
      modifies this, buf, m
      ensures Roomy(oldSize, total, old(Contents())) && fresh(Blocks() - old(Blocks()))
      ensures m.blocks == old(m.blocks - Blocks()) + Blocks() && m.buffers == old(m.buffers)
      ensures capacity == if old(IsOnStack()) then total + 1 else NewCapacity(old(capacity), total)
    {
      if IsOnStack() {
        MoveToHeap(m, oldSize, total);
      } else if capacity > total {
        SetView(ptr, total, capacity);
      } else {
        Grow(m, oldSize, total);
      }
    }

    /** Allocate a block, taking the characters out of the storage before the view is written over it. */
    method MoveToHeap(m: Memory, oldSize: nat, total: nat)
      requires Valid() && Live(m) && IsOnStack() && oldSize == |Contents()| && total >= LEN
      modifies this, buf, m
      ensures Roomy(oldSize, total, old(Contents())) && fresh(ptr)
      ensures m.blocks == old(m.blocks) + {ptr} && m.buffers == old(m.buffers) && capacity == total + 1
    {
      var temp := m.New(total + 1);
      var _ := Memcpy(m, temp, 0, buf, 0, oldSize);
      assert temp[..oldSize] == temp[0..0 + oldSize] && buf[..oldSize] == buf[0..0 + oldSize];
      SetLast(ON_HEAP);
      SetView(temp, total, total + 1);
    }

    /** Resize: twice the capacity, or as much as is needed. */
    method Grow(m: Memory, oldSize: nat, total: nat)
      requires Valid() && Live(m) && !IsOnStack() && oldSize == |Contents()| && total >= capacity
      modifies this, buf, m
      ensures Roomy(oldSize, total, old(Contents())) && fresh(ptr)
      ensures m.blocks == old(m.blocks - Blocks()) + {ptr} && m.buffers == old(m.buffers)
      ensures capacity == NewCapacity(old(capacity), total)
    {
      var room := capacity * 2;
      if room <= total {
        room := total + 1;
      }
      var temp := m.New(room);
      var _ := Memcpy(m, temp, 0, ptr, 0, oldSize);
      assert temp[..oldSize] == temp[0..0 + oldSize] && ptr[..oldSize] == ptr[0..0 + oldSize];
      m.Delete(ptr);
      SetView(temp, total, room);
    }

    /** In the heap form with room for the total, the characters in place. */
    ghost predicate Roomy(oldSize: nat, total: nat, chars: seq<Byte>)
      reads this, buf, ptr
    {
      && buf.Length == LEN && buf[LAST] == ON_HEAP && ptr != null && ptr != buf
      && LAST < total == size < capacity == ptr.Length
      && oldSize <= total && |chars| == oldSize && ptr[..oldSize] == chars
    }

    /** Transfer the rest of the data. */
    method Transfer(m: Memory, other: String, oldSize: nat, otherSize: nat, ghost chars: seq<Byte>)
      returns (defined: bool)
      requires Roomy(oldSize, oldSize + otherSize, chars) && Live(m)
      requires if this == other then otherSize == oldSize
               else other.Valid() && other.Live(m) && otherSize == |other.Contents()| && Owned() !! other.Owned()
      modifies ptr
      ensures defined <==> this != other
      ensures defined ==> Valid() && Contents() == chars + old(other.Contents())
    {
      defined := other.CopyAfter(m, ptr, oldSize, otherSize);
    }

    /** Copy this string's characters and the NUL after them behind the first characters of a block. */
    method CopyAfter(m: Memory, block: array<Byte>, at: nat, n: nat) returns (defined: bool)
      requires buf.Length == LEN && Live(m) && m.Usable(block) && at + n < block.Length
      requires IsOnStack() || ptr != null
      requires if block == (if IsOnStack() then buf else ptr) then n == at
               else Valid() && block !in Owned() && n == |Contents()|
      modifies block
      ensures defined <==> block != old(if IsOnStack() then buf else ptr)
      ensures block[..at] == old(block[..at])
      ensures defined ==> block[..at + n] == old(block[..at] + Contents()) && block[at + n] == 0
    {
      var chars := CStr();
      ghost var added := chars[..n + 1];
      assert added == chars[0..0 + (n + 1)];
      defined := Memcpy(m, block, at, chars, 0, n + 1);
      if defined {
        Joined(block[..], old(block[..at]), added);
      }
    }
  }

  /** Characters followed by more characters and their NUL. */
  lemma Joined(block: seq<Byte>, front: seq<Byte>, source: seq<Byte>)
    requires source != [] && source[|source| - 1] == 0 && |front| + |source| <= |block|
    requires block[..|front|] == front && block[|front|..|front| + |source|] == source
    ensures var n := |front| + |source| - 1; block[..n] == front + source[..|source| - 1] && block[n] == 0
  {}

  // ------------------------------------------------------------- any number of strings

  datatype Op =
    | Make(chars: seq<Byte>)
    | CopyOf(source: nat)
    | MoveOf(source: nat)
    | AssignTo(target: nat, source: nat)
    | MoveTo(target: nat, source: nat)
    | AppendTo(target: nat, source: nat)

  /** The operands exist. */
  predicate Applies(op: Op, n: nat) {
    match op
    case Make(_) => true
    case CopyOf(j) => j < n
    case MoveOf(j) => j < n
    case AssignTo(i, j) => i < n && j < n
    case MoveTo(i, j) => i < n && j < n
    case AppendTo(i, j) => i < n && j < n
  }

  predicate IsSelfAppend(op: Op) { op.AppendTo? && op.target == op.source }

  /** What an operation does to plain sequences of characters. */
  function Effect(vs: seq<seq<Byte>>, op: Op): seq<seq<Byte>>
    requires Applies(op, |vs|)
  {
    match op
    case Make(chars) => vs + [chars]
    case CopyOf(j) => vs + [vs[j]]
    case MoveOf(j) => vs[j := []] + [vs[j]]
    case AssignTo(i, j) => vs[i := vs[j]]
    case MoveTo(i, j) => if i == j then vs else vs[j := []][i := vs[j]]
    case AppendTo(i, j) => vs[i := vs[i] + vs[j]]
  }

  // ---------------------------------------------------------- who holds which block

  type Holding = seq<set<array<Byte>>>

  ghost function Union(hs: Holding): set<array<Byte>> { set i, b | 0 <= i < |hs| && b in hs[i] :: b }

  ghost predicate Disjoint(hs: Holding) { forall i, j :: 0 <= i < j < |hs| ==> hs[i] !! hs[j] }

  /** Holder i gives up its blocks for others. */
  lemma UnionUpdate(hs: Holding, i: nat, h: set<array<Byte>>)
    requires i < |hs| && Disjoint(hs)
    ensures Union(hs[i := h]) == Union(hs) - hs[i] + h
  {
    var after := hs[i := h];
    forall b | b in Union(hs) - hs[i] + h ensures b in Union(after) {
      if b in h {
        assert b in after[i];
      } else {
        var k :| 0 <= k < |hs| && b in hs[k];
        assert b in after[k];
      }
    }
    forall b | b in Union(after) ensures b in Union(hs) - hs[i] + h {
      var k :| 0 <= k < |after| && b in after[k];
      assert k != i ==> b in hs[k] && (if k < i then hs[k] !! hs[i] else hs[i] !! hs[k]);
    }
  }

  lemma UnionAppend(hs: Holding, h: set<array<Byte>>)
    ensures Union(hs + [h]) == Union(hs) + h
  {
    var after := hs + [h];
    assert after[|hs|] == h && forall k :: 0 <= k < |hs| ==> after[k] == hs[k];
  }

  /** Holder j hands its blocks to holder i, which gives up its own. */
  lemma UnionHandOver(hs: Holding, i: nat, j: nat)
    requires i < |hs| && j < |hs| && i != j && Disjoint(hs)
    ensures Union(hs[j := {}][i := hs[j]]) == Union(hs) - hs[i]
  {
    UnionUpdate(hs, j, {});
    var mid := hs[j := {}];
    UnionUpdate(mid, i, hs[j]);
    assert if i < j then hs[i] !! hs[j] else hs[j] !! hs[i];
    assert hs[j] <= Union(hs);
  }

  lemma UnionHolds(hs: Holding, i: nat)
    requires i < |hs|
    ensures hs[i] <= Union(hs)
  {}

  // ------------------------------------------------------------------ many strings

  /** Strings that are valid and share no storage. */
  ghost predicate Separate(strings: seq<String>)
    reads strings, set s | s in strings :: s.buf, set s | s in strings && s.ptr != null :: s.ptr
  {
    && (forall i :: 0 <= i < |strings| ==> strings[i].Valid())
    && (forall i, j :: 0 <= i < j < |strings| ==> strings[i].Owned() !! strings[j].Owned())
  }

  predicate Sized(strings: seq<String>) { forall i :: 0 <= i < |strings| ==> strings[i].buf.Length == LEN }

  ghost function BlocksOf(strings: seq<String>): (hs: Holding)
    requires Sized(strings)
    reads strings, set s | s in strings :: s.buf
    ensures |hs| == |strings| && forall i :: 0 <= i < |hs| ==> hs[i] == strings[i].Blocks()
  {
    var n := |strings| - 1;
    if n < 0 then [] else BlocksOf(strings[..n]) + [strings[n].Blocks()]
  }

  ghost function BuffersOf(strings: seq<String>): set<array<Byte>> { set s | s in strings :: s.buf }

  /** The strings hold these characters. */
  ghost predicate Spell(strings: seq<String>, vs: seq<seq<Byte>>)
    reads strings, set s | s in strings :: s.buf, set s | s in strings && s.ptr != null :: s.ptr
  {
    && Separate(strings) && |strings| == |vs|
    && forall i :: 0 <= i < |strings| ==> strings[i].Contents() == vs[i]
  }

  /** The strings hold these characters, and between them every block that is allocated. */
  ghost predicate Holds(m: Memory, strings: seq<String>, vs: seq<seq<Byte>>)
    reads m, strings, set s | s in strings :: s.buf, set s | s in strings && s.ptr != null :: s.ptr
  {
    && Spell(strings, vs)
    && m.blocks == Union(BlocksOf(strings)) && m.buffers == BuffersOf(strings)
  }

  lemma HoldsLive(m: Memory, strings: seq<String>, vs: seq<seq<Byte>>, i: nat)
    requires Holds(m, strings, vs) && i < |strings|
    ensures strings[i].Live(m)
  {
    UnionHolds(BlocksOf(strings), i);
  }

  lemma BlocksDisjoint(strings: seq<String>)
    requires Separate(strings)
    ensures Disjoint(BlocksOf(strings))
  {
    var hs := BlocksOf(strings);
    forall i, j | 0 <= i < j < |hs| ensures hs[i] !! hs[j] {
      assert strings[i].Owned() !! strings[j].Owned();
    }
  }

  /** A string whose storage has not been touched is what it was. */
  twostate lemma Untouched(s: String)
    requires old(s.Valid()) && unchanged(s, s.buf) && forall b :: b in old(s.Blocks()) ==> unchanged(b)
    ensures s.Valid() && s.Contents() == old(s.Contents())
    ensures s.Blocks() == old(s.Blocks()) && s.Owned() == old(s.Owned())
  {
    assert old(!s.IsOnStack()) ==> s.ptr in old(s.Blocks());
  }

  /** Adding one string whose storage is new. */
  method AddNew(m: Memory, strings: seq<String>, s: String, ghost vs: seq<seq<Byte>>) returns (after: seq<String>)
    requires Separate(strings) && |strings| == |vs| && s.Valid()
    requires forall i :: 0 <= i < |strings| ==> strings[i].Owned() !! s.Owned() && strings[i].Contents() == vs[i]
    requires m.blocks == Union(BlocksOf(strings)) + s.Blocks() && m.buffers == BuffersOf(strings) + {s.buf}
    ensures after == strings + [s] && Holds(m, after, vs + [s.Contents()])
  {
    after := strings + [s];
    UnionAppend(BlocksOf(strings), s.Blocks());
    assert BlocksOf(after) == BlocksOf(strings) + [s.Blocks()];
  }

  /** String i has given up what it held for something else, and the others hold what they held. */
  lemma Replaced(m: Memory, strings: seq<String>, vs: seq<seq<Byte>>, hs: Holding, i: nat)
    requires Separate(strings) && Disjoint(hs) && i < |strings| == |vs| == |hs|
    requires forall k :: 0 <= k < |strings| ==> strings[k].Contents() == vs[k]
    requires forall k :: 0 <= k < |strings| && k != i ==> strings[k].Blocks() == hs[k]
    requires m.blocks == Union(hs) - hs[i] + strings[i].Blocks() && m.buffers == BuffersOf(strings)
    ensures Holds(m, strings, vs)
  {
    UnionUpdate(hs, i, strings[i].Blocks());
    assert BlocksOf(strings) == hs[i := strings[i].Blocks()];
  }

  /** String i has given up what it held for what string j held. */
  lemma HandedOver(m: Memory, strings: seq<String>, vs: seq<seq<Byte>>, hs: Holding, i: nat, j: nat)
    requires Separate(strings) && Disjoint(hs) && |strings| == |vs| == |hs|
    requires i < |strings| && j < |strings| && i != j
    requires forall k :: 0 <= k < |strings| ==> strings[k].Contents() == vs[k]
    requires forall k :: 0 <= k < |strings| && k != i && k != j ==> strings[k].Blocks() == hs[k]
    requires strings[i].Blocks() == hs[j] && strings[j].Blocks() == {}
    requires m.blocks == Union(hs) - hs[i] && m.buffers == BuffersOf(strings)
    ensures Holds(m, strings, vs)
  {
    UnionHandOver(hs, i, j);
    assert BlocksOf(strings) == hs[j := {}][i := hs[j]];
  }

  /** String j holds nothing any more. */
  lemma Emptied(strings: seq<String>, hs: Holding, j: nat)
    requires Sized(strings) && Disjoint(hs) && j < |strings| == |hs|
    requires forall k :: 0 <= k < |strings| && k != j ==> strings[k].Blocks() == hs[k]
    requires strings[j].Blocks() == {}
    ensures Union(BlocksOf(strings)) + hs[j] == Union(hs)
  {
    UnionUpdate(hs, j, {});
    UnionHolds(hs, j);
    assert BlocksOf(strings) == hs[j := {}];
  }

  method PerformAppend(m: Memory, strings: seq<String>, i: nat, j: nat, ghost vs: seq<seq<Byte>>)
    returns (defined: bool)
    requires Holds(m, strings, vs) && i < |strings| && j < |strings|
    modifies strings[i].Owned(), m
    ensures defined <==> i != j
    ensures defined ==> Holds(m, strings, vs[i := vs[i] + vs[j]])
    ensures defined ==> forall k :: 0 <= k < |strings| && k != i ==> strings[k].Owned() == old(strings[k].Owned())
    ensures defined ==> fresh(strings[i].Owned() - old(strings[i].Owned()))
  {
    hide Union, Disjoint, BuffersOf, BlocksOf, String.Contents, String.Valid, String.IsOnStack;
    HoldsSize(m, strings, vs);
    assert i != j ==> strings[i].Owned() !! strings[j].Owned();
    HoldsLive(m, strings, vs, i);
    HoldsLive(m, strings, vs, j);
    BlocksDisjoint(strings);
    ghost var hs := BlocksOf(strings);
    defined := strings[i].Append(m, strings[j]);
    if defined {
      forall k | 0 <= k < |strings| && k != i
        ensures strings[k].Valid() && strings[k].Contents() == vs[k] && strings[k].Blocks() == hs[k]
        ensures strings[k].Owned() == old(strings[k].Owned()) && strings[i].Owned() !! strings[k].Owned()
      {
        assert old(strings[i].Owned()) !! old(strings[k].Owned());
        Untouched(strings[k]);
      }
      Replaced(m, strings, vs[i := vs[i] + vs[j]], hs, i);
    }
  }

  method PerformAssign(m: Memory, strings: seq<String>, i: nat, j: nat, ghost vs: seq<seq<Byte>>)
    requires Holds(m, strings, vs) && i < |strings| && j < |strings|
    modifies strings[i].Owned(), m
    ensures Holds(m, strings, vs[i := vs[j]])
    ensures forall k :: 0 <= k < |strings| && k != i ==> strings[k].Owned() == old(strings[k].Owned())
    ensures fresh(strings[i].Owned() - old(strings[i].Owned()))
  {
    hide Union, Disjoint, BuffersOf, BlocksOf, String.Contents, String.Valid, String.IsOnStack;
    HoldsSize(m, strings, vs);
    assert i != j ==> strings[i].Owned() !! strings[j].Owned();
    HoldsLive(m, strings, vs, i);
    HoldsLive(m, strings, vs, j);
    BlocksDisjoint(strings);
    ghost var hs := BlocksOf(strings);
    strings[i].Assign(m, strings[j]);
    forall k | 0 <= k < |strings| && k != i
      ensures strings[k].Valid() && strings[k].Contents() == vs[k] && strings[k].Blocks() == hs[k]
      ensures strings[k].Owned() == old(strings[k].Owned()) && strings[i].Owned() !! strings[k].Owned()
    {
      assert old(strings[i].Owned()) !! old(strings[k].Owned());
      Untouched(strings[k]);
    }
    Replaced(m, strings, vs[i := vs[j]], hs, i);
  }

  method PerformMove(m: Memory, strings: seq<String>, i: nat, j: nat, ghost vs: seq<seq<Byte>>)
    requires Holds(m, strings, vs) && i < |strings| && j < |strings| && i != j
    modifies strings[i].Owned(), strings[j].Owned(), m
    ensures Holds(m, strings, vs[j := []][i := vs[j]])
    ensures forall k :: 0 <= k < |strings| && k != i ==> strings[k].Owned() <= old(strings[k].Owned())
    ensures strings[i].Owned() <= old(strings[i].Owned() + strings[j].Owned())
  {
    hide Union, Disjoint, BuffersOf, BlocksOf, String.Contents, String.Valid, String.IsOnStack;
    HoldsSize(m, strings, vs);
    assert strings[i].Owned() !! strings[j].Owned();
    HoldsLive(m, strings, vs, i);
    HoldsLive(m, strings, vs, j);
    BlocksDisjoint(strings);
    ghost var hs := BlocksOf(strings);
    strings[i].MoveAssign(m, strings[j]);
    forall k | 0 <= k < |strings| && k != i && k != j
      ensures strings[k].Valid() && strings[k].Contents() == vs[k] && strings[k].Blocks() == hs[k]
      ensures strings[k].Owned() == old(strings[k].Owned())
      ensures strings[i].Owned() !! strings[k].Owned() && strings[j].Owned() !! strings[k].Owned()
    {
      assert old(strings[i].Owned()) !! old(strings[k].Owned()) && old(strings[j].Owned()) !! old(strings[k].Owned());
      Untouched(strings[k]);
    }
    HandedOver(m, strings, vs[j := []][i := vs[j]], hs, i, j);
  }

  method PerformMoveOf(m: Memory, strings: seq<String>, j: nat, ghost vs: seq<seq<Byte>>)
    returns (after: seq<String>)
    requires Holds(m, strings, vs) && j < |strings|
    modifies strings[j].Owned(), m
    ensures Holds(m, after, vs[j := []] + [vs[j]])
    ensures |after| == |strings| + 1
    ensures forall k :: 0 <= k < |strings| ==> after[k] == strings[k] && after[k].Owned() <= old(strings[k].Owned())
    ensures fresh(after[|strings|].Owned() - old(strings[j].Owned()))
  {
    hide Union, Disjoint, BuffersOf, BlocksOf, String.Contents, String.Valid, String.IsOnStack;
    HoldsSize(m, strings, vs);
    HoldsLive(m, strings, vs, j);
    BlocksDisjoint(strings);
    ghost var hs := BlocksOf(strings);
    var s := new String.Move(m, strings[j]);
    forall k | 0 <= k < |strings| && k != j
      ensures strings[k].Valid() && strings[k].Contents() == vs[k] && strings[k].Blocks() == hs[k]
      ensures strings[k].Owned() == old(strings[k].Owned())
      ensures strings[k].Owned() !! strings[j].Owned() && strings[k].Owned() !! s.Owned()
    {
      assert old(strings[j].Owned()) !! old(strings[k].Owned());
      Untouched(strings[k]);
    }
    Emptied(strings, hs, j);
    after := AddNew(m, strings, s, vs[j := []]);
  }

  method PerformMake(m: Memory, strings: seq<String>, chars: seq<Byte>, ghost vs: seq<seq<Byte>>)
    returns (after: seq<String>)
    requires Holds(m, strings, vs)
    modifies m
    ensures Holds(m, after, vs + [chars]) && |after| == |strings| + 1
    ensures forall k :: 0 <= k < |strings| ==> after[k] == strings[k]
    ensures fresh(after[|strings|].Owned())
  {
    hide Union;
    var s := new String.FromChars(m, chars);
    after := AddNew(m, strings, s, vs);
  }

  method PerformCopyOf(m: Memory, strings: seq<String>, j: nat, ghost vs: seq<seq<Byte>>)
    returns (after: seq<String>)
    requires Holds(m, strings, vs) && j < |strings|
    modifies m
    ensures Holds(m, after, vs + [vs[j]]) && |after| == |strings| + 1
    ensures forall k :: 0 <= k < |strings| ==> after[k] == strings[k]
    ensures fresh(after[|strings|].Owned())
  {
    hide Union;
    HoldsLive(m, strings, vs, j);
    var s := new String.Copy(m, strings[j]);
    after := AddNew(m, strings, s, vs);
  }

  /** All that the strings own. */
  ghost function Storage(strings: seq<String>): set<object>
    requires Separate(strings)
    reads strings, set s | s in strings :: s.buf, set s | s in strings && s.ptr != null :: s.ptr
  {
    set s, o | s in strings && o in s.Owned() :: o
  }

  // ---------------------------------------------------------------------- programs

  /** Every operation finds its operands. */
  predicate Runs(program: seq<Op>, n: nat) {
    program == [] || (Applies(program[0], n) && Runs(program[1..], n + Created(program[0])))
  }

  function Created(op: Op): nat { if op.Make? || op.CopyOf? || op.MoveOf? then 1 else 0 }

  function Outcome(vs: seq<seq<Byte>>, program: seq<Op>): seq<seq<Byte>>
    requires Runs(program, |vs|)
    decreases |program|
  {
    if program == [] then vs else Outcome(Effect(vs, program[0]), program[1..])
  }

  lemma ProgramStep(program: seq<Op>, i: nat, vs: seq<seq<Byte>>)
    requires i < |program| && Runs(program[i..], |vs|)
    ensures Applies(program[i], |vs|)
    ensures var vs' := Effect(vs, program[i]);
      Runs(program[i + 1..], |vs'|) && Outcome(vs, program[i..]) == Outcome(vs', program[i + 1..])
  {}

  lemma ProgramEnd(program: seq<Op>, vs: seq<seq<Byte>>)
    requires program == []
    ensures Runs(program, |vs|) && Outcome(vs, program) == vs
  {}

  /** Any sequence of constructions, copies, moves, assignments and appends, as long as no string is
      appended to itself, leaves the strings holding what plain sequences would, and between them every
      block that is allocated. */
  method Run(m: Memory, program: seq<Op>) returns (defined: bool, strings: seq<String>)
    requires Runs(program, 0) && m.blocks == {} && m.buffers == {}
    modifies m
    ensures defined <==> forall i :: 0 <= i < |program| ==> !IsSelfAppend(program[i])
    ensures defined ==> Holds(m, strings, Outcome([], program)) && fresh(Storage(strings))
  {
    hide Runs, Outcome, Effect, Applies, Holds, Storage, Separate;
    strings, defined := [], true;
    ghost var vs: seq<seq<Byte>> := [];
    ghost var mine: set<object> := {};
    var i := 0;
    assert program[0..] == program;
    NoStrings(m);
    while i < |program|
      invariant i <= |program| && defined && Separate(strings) && Holds(m, strings, vs)
      invariant Runs(program[i..], |vs|) && Outcome(vs, program[i..]) == Outcome([], program)
      invariant fresh(mine) && Storage(strings) <= mine
      invariant forall k :: 0 <= k < i ==> !IsSelfAppend(program[k])
    {
      ProgramStep(program, i, vs);
      ghost var vs' := Effect(vs, program[i]);
      HoldsSize(m, strings, vs);
      defined, strings, mine := Perform(m, strings, program[i], vs, mine);
      if !defined {
        return;
      }
      vs := vs';
      i := i + 1;
      HoldsSize(m, strings, vs);
    }
    ProgramEnd(program[i..], vs);
  }

  lemma NoStrings(m: Memory)
    requires m.blocks == {} && m.buffers == {}
    ensures Separate([]) && Holds(m, [], []) && Storage([]) == {}
  {}

  lemma HoldsSize(m: Memory, strings: seq<String>, vs: seq<seq<Byte>>)
    requires Holds(m, strings, vs)
    ensures |strings| == |vs| && Separate(strings) && Sized(strings)
  {}

  /** One operation; `mine` is storage that belongs to these strings and to no one else. */
  method Perform(m: Memory, strings: seq<String>, op: Op, ghost vs: seq<seq<Byte>>, ghost mine: set<object>)
    returns (defined: bool, after: seq<String>, ghost ours: set<object>)
    requires Separate(strings) && Holds(m, strings, vs) && Applies(op, |vs|) && Storage(strings) <= mine
    modifies mine, m
    ensures defined <==> !IsSelfAppend(op)
    ensures defined ==> Separate(after) && Holds(m, after, Effect(vs, op))
    ensures defined ==> mine <= ours && fresh(ours - mine) && Storage(after) <= ours
  {
    hide Effect, Applies;
    if Created(op) == 1 {
      after := PerformNew(m, strings, op, vs);
      defined := true;
    } else {
      after := strings;
      defined := PerformOld(m, strings, op, vs);
    }
    ours := mine;
    if defined {
      ours := mine + Storage(after);
    }
  }

  method PerformNew(m: Memory, strings: seq<String>, op: Op, ghost vs: seq<seq<Byte>>) returns (after: seq<String>)
    requires Holds(m, strings, vs) && Applies(op, |vs|) && Created(op) == 1
    modifies Storage(strings), m
    ensures Holds(m, after, Effect(vs, op))
    ensures forall k :: 0 <= k < |after| ==> fresh(after[k].Owned() - old(Storage(strings)))
  {
    hide Union, BlocksOf, BuffersOf, String.Contents, String.Valid, String.IsOnStack, String.Blocks;
    HoldsSize(m, strings, vs);
    match op
    case Make(chars) => after := PerformMake(m, strings, chars, vs);
    case CopyOf(j) => after := PerformCopyOf(m, strings, j, vs);
    case MoveOf(j) => after := PerformMoveOf(m, strings, j, vs);
  }

  method PerformOld(m: Memory, strings: seq<String>, op: Op, ghost vs: seq<seq<Byte>>) returns (defined: bool)
    requires Holds(m, strings, vs) && Applies(op, |vs|) && Created(op) == 0
    modifies Storage(strings), m
    ensures defined <==> !IsSelfAppend(op)
    ensures defined ==> Holds(m, strings, Effect(vs, op))
    ensures defined ==> forall k :: 0 <= k < |strings| ==> fresh(strings[k].Owned() - old(Storage(strings)))
  {
    defined := true;
    match op
    case AssignTo(i, j) => PerformAssign(m, strings, i, j, vs);
    case MoveTo(i, j) => if i != j { PerformMove(m, strings, i, j, vs); }
    case AppendTo(i, j) => defined := PerformAppend(m, strings, i, j, vs);
  }

  /** The destructors at the end of a scope: each block is released once, and none is left. */
  method DestroyAll(m: Memory, strings: seq<String>, ghost vs: seq<seq<Byte>>)
    requires Holds(m, strings, vs)
    modifies m
    ensures m.blocks == {} && m.buffers == {}
  {
    HoldsSize(m, strings, vs);
    hide Holds, Separate;
    var rest := strings;
    ghost var texts := vs;
    while rest != []
      invariant |rest| == |texts| && Holds(m, rest, texts)
    {
      DestroyLast(m, rest, texts);
      rest, texts := rest[..|rest| - 1], texts[..|texts| - 1];
    }
    NoneLeft(m);
  }

  lemma NoneLeft(m: Memory)
    requires Holds(m, [], [])
    ensures m.blocks == {} && m.buffers == {}
  {}

  method DestroyLast(m: Memory, strings: seq<String>, ghost vs: seq<seq<Byte>>)
    requires Holds(m, strings, vs) && strings != []
    modifies m
    ensures Holds(m, strings[..|strings| - 1], vs[..|strings| - 1])
  {
    hide Union, BlocksOf, BuffersOf, Separate, String.Contents, String.Valid, String.IsOnStack, String.Blocks;
    var n := |strings| - 1;
    FrontSeparate(m, strings, vs);
    HoldsLive(m, strings, vs, n);
    BlocksDisjoint(strings);
    LastBlocks(strings);
    LastBuffer(strings);
    strings[n].Destroy(m);
  }

  /** The last string holds nothing that another one holds. */
  lemma LastBlocks(strings: seq<String>)
    requires Sized(strings) && strings != [] && Disjoint(BlocksOf(strings))
    ensures var n := |strings| - 1;
      Sized(strings[..n]) && Union(BlocksOf(strings[..n])) == Union(BlocksOf(strings)) - strings[n].Blocks()
  {
    var n := |strings| - 1;
    var hs, front := BlocksOf(strings), BlocksOf(strings[..n]);
    UnionUpdate(hs, n, {});
    UnionAppend(front, {});
    assert hs[n := {}] == front + [{}];
  }

  lemma FrontSeparate(m: Memory, strings: seq<String>, vs: seq<seq<Byte>>)
    requires Holds(m, strings, vs) && strings != []
    ensures var n := |strings| - 1; strings[n].Valid() && Sized(strings) && Spell(strings[..n], vs[..n])
  {}

  lemma LastBuffer(strings: seq<String>)
    requires Separate(strings) && strings != []
    ensures var n := |strings| - 1; BuffersOf(strings[..n]) == BuffersOf(strings) - {strings[n].buf}
  {
    var n := |strings| - 1;
    forall s | s in strings[..n] ensures s.buf != strings[n].buf {
      var i :| 0 <= i < n && strings[i] == s;
      assert strings[i].Owned() !! strings[n].Owned();
    }
    assert strings == strings[..n] + [strings[n]];
  }

  /** A scope that makes its strings, works with them and ends. */
  method Scope(m: Memory, program: seq<Op>) returns (defined: bool)
    requires Runs(program, 0) && m.blocks == {} && m.buffers == {}
    modifies m
    ensures defined <==> forall i :: 0 <= i < |program| ==> !IsSelfAppend(program[i])
    ensures defined ==> m.blocks == {} && m.buffers == {}
  {
    var strings;
    defined, strings := Run(m, program);
    if defined {
      DestroyAll(m, strings, Outcome([], program));
    }
  }
}
