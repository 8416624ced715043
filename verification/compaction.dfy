/**
 * Arena compaction: live tensors slide down over each other, in address
 * order, until they are packed from the start of the pool.
 */
module Compaction {
  import opened Rows
  import opened ChainBytes

  newtype Byte = x: int | 0 <= x < 256

  /** Tensor i is placed in [lo, hi). */
  predicate Live(ptrs: seq<int>, i: int, lo: int, hi: int) {
    0 <= i < |ptrs| && lo <= ptrs[i] < hi
  }

  /** The aligned sizes of the tensors. */
  predicate Sizes(sizes: seq<int>, bytes: seq<nat>, align: nat) {
    align >= 1 && |sizes| == |bytes| && forall i :: 0 <= i < |bytes| ==> sizes[i] == AlignUp(bytes[i], align) && bytes[i] >= 1
  }

  /** Tensors i and j are one allocation. */
  predicate Aliased(ptrs: seq<int>, sizes: seq<int>, i: nat, j: nat)
    requires i < |ptrs| == |sizes| && j < |ptrs|
  {
    ptrs[i] == ptrs[j] && sizes[i] == sizes[j]
  }

  predicate Apart(ptrs: seq<int>, sizes: seq<int>, i: nat, j: nat)
    requires i < |ptrs| == |sizes| && j < |ptrs|
  {
    ptrs[i] + sizes[i] <= ptrs[j] || ptrs[j] + sizes[j] <= ptrs[i]
  }

  /** Live tensors have room, and any two are aliases or disjoint. */
  ghost predicate Placed(ptrs: seq<int>, sizes: seq<int>, lo: int, hi: int) {
    && |ptrs| == |sizes|
    && (forall i :: Live(ptrs, i, lo, hi) ==> sizes[i] >= 1 && ptrs[i] + sizes[i] <= hi)
    && (forall i, j :: Live(ptrs, i, lo, hi) && Live(ptrs, j, lo, hi) ==> Aliased(ptrs, sizes, i, j) || Apart(ptrs, sizes, i, j))
  }

  /** One allocation: a tensor it belongs to, its address and its size. */
  datatype Block = Block(tensor: nat, addr: int, size: int)

  /** The sizes of the first k allocations, in the order they are packed. */
  function Before(blocks: seq<Block>, k: nat): int
    requires k <= |blocks|
  {
    if k == 0 then 0 else Before(blocks, k - 1) + blocks[k - 1].size
  }

  lemma {:induction false} BeforePrefix(blocks: seq<Block>, b: Block, k: nat)
    requires k <= |blocks|
    ensures Before(blocks + [b], k) == Before(blocks, k)
  {
    if k > 0 { BeforePrefix(blocks, b, k - 1); }
  }

  lemma {:induction false} BeforeGrows(blocks: seq<Block>, j: nat, k: nat)
    requires j <= k <= |blocks| && forall l :: 0 <= l < |blocks| ==> blocks[l].size >= 1
    ensures 0 <= Before(blocks, j) <= Before(blocks, k)
    ensures j < k ==> Before(blocks, j) + blocks[j].size <= Before(blocks, k)
  {
    if j < k { BeforeGrows(blocks, j, k - 1); } else if j > 0 { BeforeGrows(blocks, j - 1, j - 1); }
  }

  /** Every allocation in [lo, cut) by rising address, and for each tensor the allocation it belongs to, or -1. */
  ghost predicate Found(blocks: seq<Block>, slot: seq<int>, was: seq<int>, sizes: seq<int>, lo: int, hi: int, cut: int) {
    && |was| == |sizes| == |slot|
    && (forall k :: 0 <= k < |blocks| ==> BlockOk(blocks[k], k, slot, was, sizes, lo, hi, cut))
    && (forall j, k :: 0 <= j < k < |blocks| ==> blocks[j].addr + blocks[j].size <= blocks[k].addr)
    && (forall i :: 0 <= i < |slot| ==> SlotOk(blocks, slot[i], was[i], sizes[i], lo, hi, cut))
  }

  predicate BlockOk(b: Block, k: int, slot: seq<int>, was: seq<int>, sizes: seq<int>, lo: int, hi: int, cut: int)
    requires |was| == |sizes| == |slot|
  {
    && b.tensor < |was| && was[b.tensor] == b.addr && sizes[b.tensor] == b.size >= 1
    && lo <= b.addr < hi && b.addr + b.size <= cut && slot[b.tensor] == k
  }

  predicate SlotOk(blocks: seq<Block>, k: int, addr: int, size: int, lo: int, hi: int, cut: int) {
    -1 <= k < |blocks|
    && (if k == -1 then !(lo <= addr < hi && addr < cut) else addr == blocks[k].addr && size == blocks[k].size)
  }

  /** Where the tensors are: those of allocation k at the sum of the sizes before it, the rest where they were. */
  ghost predicate Packed(blocks: seq<Block>, slot: seq<int>, was: seq<int>, ptrs: seq<int>, lo: int) {
    && |slot| == |was| == |ptrs|
    && forall i :: 0 <= i < |slot| ==>
      slot[i] < |blocks| && ptrs[i] == if slot[i] < 0 then was[i] else lo + Before(blocks, slot[i])
  }

  function Nth(x: seq<Byte>, i: int, o: int): Byte
    requires 0 <= i + o < |x|
  {
    x[i + o]
  }

  /** n bytes of x at i are those of y at j. */
  predicate SameBytes(x: seq<Byte>, i: int, y: seq<Byte>, j: int, n: int) {
    && 0 <= i <= i + n <= |x| && 0 <= j <= j + n <= |y|
    && forall o :: 0 <= o < n ==> Nth(x, i, o) == Nth(y, j, o)
  }

  lemma SameBytesTrans(x: seq<Byte>, i: int, y: seq<Byte>, j: int, z: seq<Byte>, k: int, n: int)
    requires SameBytes(x, i, y, j, n) && SameBytes(y, j, z, k, n)
    ensures SameBytes(x, i, z, k, n)
  {
    forall o | 0 <= o < n ensures Nth(x, i, o) == Nth(z, k, o) { assert Nth(x, i, o) == Nth(y, j, o); }
  }

  /** Equal stretches are equal at any stretch inside them. */
  lemma SameBytesInside(x: seq<Byte>, y: seq<Byte>, i: int, n: int, j: int, m: int)
    requires SameBytes(x, i, y, i, n) && i <= j && 0 <= m && j + m <= i + n
    ensures SameBytes(x, j, y, j, m)
  {
    forall o | 0 <= o < m ensures Nth(x, j, o) == Nth(y, j, o) {
      assert Nth(x, i, j - i + o) == Nth(y, i, j - i + o);
    }
  }

  /** Every allocation's bytes are those it had. */
  ghost predicate BytesKept(blocks: seq<Block>, lo: int, base: int, before: seq<Byte>, mem: seq<Byte>) {
    forall k :: 0 <= k < |blocks| ==>
      SameBytes(mem, lo - base + Before(blocks, k), before, blocks[k].addr - base, blocks[k].size)
  }

  /** Moves n bytes down, to lower addresses that may overlap them. */
  method MemMove(mem: array<Byte>, dst: nat, src: nat, n: nat)
    requires dst <= src && src + n <= mem.Length
    modifies mem
    ensures forall x :: 0 <= x < mem.Length ==>
      mem[x] == if dst <= x < dst + n then old(mem[src + (x - dst)]) else old(mem[x])
  {
    for i := 0 to n
      invariant forall x :: 0 <= x < mem.Length && !(dst <= x < dst + i) ==> mem[x] == old(mem[x])
      invariant forall x :: dst <= x < dst + i ==> mem[x] == old(mem[src + (x - dst)])
    {
      mem[dst + i] := mem[src + i];
    }
  }

  /** The live tensor with the lowest address from the cursor on. */
  method NextLive(ptrs: array<int>, cursor: int, end: int) returns (t: int)
    ensures t == -1 ==> forall i :: 0 <= i < ptrs.Length ==> !(cursor <= ptrs[i] < end)
    ensures t != -1 ==> 0 <= t < ptrs.Length && cursor <= ptrs[t] < end
    ensures t != -1 ==> forall i :: 0 <= i < ptrs.Length && cursor <= ptrs[i] < end ==> ptrs[t] <= ptrs[i]
  {
    var next := end;
    t := -1;
    for i := 0 to ptrs.Length
      invariant t == -1 ==> next == end && forall j :: 0 <= j < i ==> !(cursor <= ptrs[j] < end)
      invariant t != -1 ==> 0 <= t < ptrs.Length && cursor <= ptrs[t] < end && next == ptrs[t]
      invariant t != -1 ==> forall j :: 0 <= j < i && cursor <= ptrs[j] < end ==> ptrs[t] <= ptrs[j]
    {
      var p := ptrs[i];
      if p >= cursor && p < next && p < end { next, t := p, i; }
    }
  }

  /** Every tensor at src, and no other, is now at dst. */
  method Repoint(ptrs: array<int>, src: int, dst: int)
    modifies ptrs
    ensures forall i :: 0 <= i < ptrs.Length ==> ptrs[i] == if old(ptrs[i]) == src then dst else old(ptrs[i])
  {
    for i := 0 to ptrs.Length
      invariant forall j :: 0 <= j < ptrs.Length ==>
        ptrs[j] == if j < i && old(ptrs[j]) == src then dst else old(ptrs[j])
    {
      if ptrs[i] == src { ptrs[i] := dst; }
    }
  }

  /** The allocations up to the cursor are packed, and everything from the cursor on is where it was. */
  ghost predicate Packing(blocks: seq<Block>, slot: seq<int>, was: seq<int>, ptrs: seq<int>, sizes: seq<int>, lo: int, hi: int,
                          base: int, before: seq<Byte>, mem: seq<Byte>, cursor: int)
  {
    && Found(blocks, slot, was, sizes, lo, hi, cursor) && Packed(blocks, slot, was, ptrs, lo)
    && BytesKept(blocks, lo, base, before, mem)
    && lo <= lo + Before(blocks, |blocks|) <= cursor <= hi
    && |mem| == |before| == hi - base && base <= lo
    && SameBytes(mem, cursor - base, before, cursor - base, hi - cursor)
  }

  /** A tensor placed from the cursor on is one not packed yet. */
  lemma Unpacked(blocks: seq<Block>, slot: seq<int>, was: seq<int>, ptrs: seq<int>, sizes: seq<int>, lo: int, hi: int,
                 cursor: int, i: nat)
    requires Found(blocks, slot, was, sizes, lo, hi, cursor) && Packed(blocks, slot, was, ptrs, lo) && i < |was|
    requires lo + Before(blocks, |blocks|) <= cursor <= hi
    ensures slot[i] >= 0 ==> ptrs[i] < cursor && was[i] < cursor
    ensures cursor <= ptrs[i] < hi <==> cursor <= was[i] < hi
    ensures cursor <= was[i] < hi ==> slot[i] == -1 && ptrs[i] == was[i]
  {
    assert SlotOk(blocks, slot[i], was[i], sizes[i], lo, hi, cursor);
    if slot[i] >= 0 {
      assert BlockOk(blocks[slot[i]], slot[i], slot, was, sizes, lo, hi, cursor);
      forall l | 0 <= l < |blocks| ensures blocks[l].size >= 1 { assert BlockOk(blocks[l], l, slot, was, sizes, lo, hi, cursor); }
      BeforeGrows(blocks, slot[i], |blocks|);
    }
  }

  /** The tensors at addr belong to allocation k. */
  function Marked(slot: seq<int>, was: seq<int>, addr: int, k: int): (m: seq<int>)
    requires |slot| == |was|
    ensures |m| == |slot|
  {
    seq(|slot|, i requires 0 <= i < |slot| => if was[i] == addr then k else slot[i])
  }

  /** The next live tensor by address is the next allocation. */
  lemma FoundStep(blocks: seq<Block>, slot: seq<int>, was: seq<int>, sizes: seq<int>, lo: int, hi: int, cursor: int, t: nat)
    requires Placed(was, sizes, lo, hi) && Found(blocks, slot, was, sizes, lo, hi, cursor)
    requires t < |was| && lo <= cursor <= was[t] < hi
    requires forall i :: 0 <= i < |was| && cursor <= was[i] < hi ==> was[t] <= was[i]
    ensures Found(blocks + [Block(t, was[t], sizes[t])], Marked(slot, was, was[t], |blocks|), was, sizes, lo, hi, was[t] + sizes[t])
  {
    var more := blocks + [Block(t, was[t], sizes[t])];
    var marked := Marked(slot, was, was[t], |blocks|);
    assert Live(was, t, lo, hi);
    forall k | 0 <= k < |more| ensures BlockOk(more[k], k, marked, was, sizes, lo, hi, was[t] + sizes[t]) {
      if k < |blocks| { assert BlockOk(blocks[k], k, slot, was, sizes, lo, hi, cursor); }
    }
    forall i | 0 <= i < |marked| ensures SlotOk(more, marked[i], was[i], sizes[i], lo, hi, was[t] + sizes[t]) {
      assert SlotOk(blocks, slot[i], was[i], sizes[i], lo, hi, cursor);
      if lo <= was[i] < hi {
        assert Live(was, i, lo, hi);
        assert Aliased(was, sizes, i, t) || Apart(was, sizes, i, t);
      }
    }
    forall j | 0 <= j < |blocks| ensures blocks[j].addr + blocks[j].size <= was[t] {
      assert BlockOk(blocks[j], j, slot, was, sizes, lo, hi, cursor);
    }
  }

  /** Repointing the next allocation packs it. */
  lemma PackedStep(blocks: seq<Block>, slot: seq<int>, was: seq<int>, ptrs: seq<int>, after: seq<int>, sizes: seq<int>,
                   lo: int, hi: int, cursor: int, b: Block)
    requires Found(blocks, slot, was, sizes, lo, hi, cursor) && Packed(blocks, slot, was, ptrs, lo)
    requires lo + Before(blocks, |blocks|) <= cursor <= b.addr < hi
    requires |after| == |ptrs| && forall i :: 0 <= i < |ptrs| ==>
      after[i] == if ptrs[i] == b.addr then lo + Before(blocks, |blocks|) else ptrs[i]
    ensures Packed(blocks + [b], Marked(slot, was, b.addr, |blocks|), was, after, lo)
  {
    var marked := Marked(slot, was, b.addr, |blocks|);
    forall i | 0 <= i < |marked|
      ensures marked[i] < |blocks| + 1 && after[i] == if marked[i] < 0 then was[i] else lo + Before(blocks + [b], marked[i])
    {
      Unpacked(blocks, slot, was, ptrs, sizes, lo, hi, cursor, i);
      if marked[i] >= 0 { BeforePrefix(blocks, b, marked[i]); }
    }
  }

  /** What moving n bytes from src down to dst leaves. */
  predicate Moved(mem: seq<Byte>, after: seq<Byte>, dst: int, src: int, n: int) {
    && |after| == |mem| && 0 <= dst <= src && 0 <= n && src + n <= |mem|
    && (forall x :: 0 <= x < |mem| && !(dst <= x < dst + n) ==> after[x] == mem[x])
    && (forall o :: 0 <= o < n ==> Nth(after, dst, o) == Nth(mem, src, o))
  }

  lemma MovedThere(mem: seq<Byte>, after: seq<Byte>, dst: int, src: int, n: int)
    requires Moved(mem, after, dst, src, n)
    ensures SameBytes(after, dst, mem, src, n)
  {}

  /** Bytes below the destination, or past the source, stay. */
  lemma MovedElsewhere(mem: seq<Byte>, after: seq<Byte>, dst: int, src: int, n: int, i: int, m: int)
    requires Moved(mem, after, dst, src, n) && 0 <= i && 0 <= m && i + m <= |mem| && (i + m <= dst || src + n <= i)
    ensures SameBytes(after, i, mem, i, m)
  {
    forall o | 0 <= o < m ensures Nth(after, i, o) == Nth(mem, i, o) {
      assert after[i + o] == mem[i + o];
    }
  }

  /** Moving the next allocation down keeps its bytes and those of every earlier one. */
  lemma BytesStep(blocks: seq<Block>, lo: int, base: int, before: seq<Byte>, mem: seq<Byte>, after: seq<Byte>, b: Block)
    requires BytesKept(blocks, lo, base, before, mem) && forall k :: 0 <= k < |blocks| ==> blocks[k].size >= 1
    requires Moved(mem, after, lo - base + Before(blocks, |blocks|), b.addr - base, b.size)
    requires SameBytes(mem, b.addr - base, before, b.addr - base, b.size)
    ensures BytesKept(blocks + [b], lo, base, before, after)
  {
    hide Moved, SameBytes, Before;
    var n := |blocks|;
    var dst := lo - base + Before(blocks, n);
    MovedThere(mem, after, dst, b.addr - base, b.size);
    SameBytesTrans(after, dst, mem, b.addr - base, before, b.addr - base, b.size);
    forall k | 0 <= k < n + 1
      ensures Before(blocks + [b], k) == Before(blocks, k)
      ensures k < n ==> SameBytes(after, lo - base + Before(blocks, k), before, blocks[k].addr - base, blocks[k].size)
    {
      BeforePrefix(blocks, b, k);
      if k < n {
        BeforeGrows(blocks, k, n);
        EarlierKept(blocks[k], lo - base + Before(blocks, k), base, before, mem, after, dst, b);
      }
    }
  }

  lemma EarlierKept(a: Block, at: int, base: int, before: seq<Byte>, mem: seq<Byte>, after: seq<Byte>, dst: int, b: Block)
    requires SameBytes(mem, at, before, a.addr - base, a.size) && a.size >= 1 && at + a.size <= dst
    requires Moved(mem, after, dst, b.addr - base, b.size)
    ensures SameBytes(after, at, before, a.addr - base, a.size)
  {
    MovedElsewhere(mem, after, dst, b.addr - base, b.size, at, a.size);
    SameBytesTrans(after, at, mem, at, before, a.addr - base, a.size);
  }

  /** One turn: the next live allocation moves down to the packed ones. */
  method MoveNext(mem: array<Byte>, base: int, ptrs: array<int>, t: nat, sz: int, dst: int, ghost blocks: seq<Block>,
                  ghost slot: seq<int>, ghost was: seq<int>, ghost sizes: seq<int>, ghost lo: int, ghost hi: int,
                  ghost before: seq<Byte>, ghost cursor: int)
    requires Packing(blocks, slot, was, ptrs[..], sizes, lo, hi, base, before, mem[..], cursor) && Placed(was, sizes, lo, hi)
    requires t < ptrs.Length == |was| == |sizes| && ptrs[t] == was[t] && cursor <= was[t] < hi && sz == sizes[t]
    requires forall i :: 0 <= i < |was| && cursor <= was[i] < hi ==> was[t] <= was[i]
    requires dst == lo + Before(blocks, |blocks|)
    modifies mem, ptrs
    ensures Packing(blocks + [Block(t, was[t], sz)], Marked(slot, was, was[t], |blocks|), was, ptrs[..], sizes, lo, hi,
                    base, before, mem[..], was[t] + sz)
    ensures Before(blocks + [Block(t, was[t], sz)], |blocks| + 1) == Before(blocks, |blocks|) + sz
  {
    hide Found, Packed, BytesKept, Placed, Moved, SameBytes;
    ghost var b := Block(t, was[t], sz);
    ghost var held, there := mem[..], ptrs[..];
    NextFits(blocks, slot, was, sizes, lo, hi, cursor, t);
    FoundStep(blocks, slot, was, sizes, lo, hi, cursor, t);
    var src := ptrs[t];
    MoveBytes(mem, dst - base, src - base, sz);
    SameBytesInside(held, before, cursor - base, hi - cursor, src - base, sz);
    BytesStep(blocks, lo, base, before, held, mem[..], b);
    TailKept(held, mem[..], before, cursor - base, dst - base, src - base, sz);
    assert forall i :: 0 <= i < |there| ==> there[i] == ptrs[i];
    Repoint(ptrs, src, dst);
    PackedStep(blocks, slot, was, there, ptrs[..], sizes, lo, hi, cursor, b);
    BeforePrefix(blocks, b, |blocks|);
  }

  method MoveBytes(mem: array<Byte>, dst: nat, src: nat, n: nat)
    requires dst <= src && src + n <= mem.Length
    modifies mem
    ensures Moved(old(mem[..]), mem[..], dst, src, n)
  {
    ghost var before := mem[..];
    if dst != src {
      MemMove(mem, dst, src, n);
      forall o | 0 <= o < n ensures Nth(mem[..], dst, o) == Nth(before, src, o) { assert mem[dst + o] == before[src + o]; }
    }
  }

  lemma NextFits(blocks: seq<Block>, slot: seq<int>, was: seq<int>, sizes: seq<int>, lo: int, hi: int, cursor: int, t: nat)
    requires Placed(was, sizes, lo, hi) && Found(blocks, slot, was, sizes, lo, hi, cursor) && t < |was| && lo <= was[t] < hi
    ensures |was| == |sizes| == |slot| && sizes[t] >= 1 && was[t] + sizes[t] <= hi
    ensures forall k :: 0 <= k < |blocks| ==> blocks[k].size >= 1
  {
    assert Live(was, t, lo, hi);
    forall k | 0 <= k < |blocks| ensures blocks[k].size >= 1 { assert BlockOk(blocks[k], k, slot, was, sizes, lo, hi, cursor); }
  }

  lemma TailKept(held: seq<Byte>, mem: seq<Byte>, before: seq<Byte>, from: int, dst: int, src: int, n: int)
    requires |held| == |before| && 0 <= from <= src && Moved(held, mem, dst, src, n)
    requires SameBytes(held, from, before, from, |held| - from)
    ensures |mem| == |before| && SameBytes(mem, src + n, before, src + n, |mem| - src - n)
  {
    MovedElsewhere(held, mem, dst, src, n, src + n, |mem| - src - n);
    SameBytesInside(held, before, from, |held| - from, src + n, |mem| - src - n);
    SameBytesTrans(mem, src + n, held, src + n, before, src + n, |mem| - src - n);
  }

  /**
   * Compacts the live tensors of the pool [base, base + size) from offset
   * `first`: every allocation moves to the sum of the sizes of those below it,
   * with its bytes and all its aliases.
   */
  method CompactPool(mem: array<Byte>, base: int, ptrs: array<int>, bytes: seq<nat>, align: nat, first: nat, ghost sizes: seq<int>)
    returns (wp: int, ghost blocks: seq<Block>, ghost slot: seq<int>)
    requires ptrs.Length == |bytes| && Sizes(sizes, bytes, align) && first <= mem.Length
    requires Placed(ptrs[..], sizes, base + first, base + mem.Length)
    modifies mem, ptrs
    ensures Found(blocks, slot, old(ptrs[..]), sizes, base + first, base + mem.Length, base + mem.Length)
    ensures Packed(blocks, slot, old(ptrs[..]), ptrs[..], base + first)
    ensures BytesKept(blocks, base + first, base, old(mem[..]), mem[..])
    ensures wp == first + Before(blocks, |blocks|) <= mem.Length
    ensures first % align == 0 ==> wp % align == 0
    ensures first % align == 0 ==>
      forall i :: 0 <= i < ptrs.Length && Live(old(ptrs[..]), i, base + first, base + mem.Length) ==> (ptrs[i] - base) % align == 0
  {
    hide Found, Packed, BytesKept, Placed, SameBytes;
    ghost var was, before := ptrs[..], mem[..];
    var cursor, end := base + first, base + mem.Length;
    ghost var lo := base + first;
    wp := first;
    blocks, slot := [], seq(|was|, _ => -1);
    StartsEmpty(slot, was, sizes, lo, end, base, before);
    while cursor < end
      invariant Packing(blocks, slot, was, ptrs[..], sizes, lo, end, base, before, mem[..], cursor)
      invariant wp == first + Before(blocks, |blocks|)
      decreases end - cursor
    {
      forall i | 0 <= i < ptrs.Length
        ensures cursor <= ptrs[i] < end <==> cursor <= was[i] < end
        ensures cursor <= was[i] < end ==> ptrs[i] == was[i]
      {
        Unpacked(blocks, slot, was, ptrs[..], sizes, lo, end, cursor, i);
      }
      var t := NextLive(ptrs, cursor, end);
      if t == -1 {
        AllFound(blocks, slot, was, sizes, lo, end, cursor);
        break;
      }
      var sz := AlignUp(bytes[t], align);
      var next := ptrs[t];
      NextFits(blocks, slot, was, sizes, lo, end, cursor, t);
      MoveNext(mem, base, ptrs, t, sz, base + wp, blocks, slot, was, sizes, lo, end, before, cursor);
      slot := Marked(slot, was, was[t], |blocks|);
      blocks := blocks + [Block(t, was[t], sz)];
      wp := wp + sz;
      cursor := next + sz;
    }
    assert lo - base == first;
    if first % align == 0 { CompactionAligned(blocks, slot, was, ptrs[..], sizes, lo, end, base, bytes, align); }
  }

  /** Sizes of allocations are multiples of the alignment, and so is where each is packed. */
  lemma {:induction false} BeforeAligned(blocks: seq<Block>, align: nat, k: nat)
    requires align >= 1 && k <= |blocks| && forall l :: 0 <= l < |blocks| ==> blocks[l].size % align == 0
    ensures Before(blocks, k) % align == 0
  {
    if k > 0 {
      BeforeAligned(blocks, align, k - 1);
      AddMultiples(Before(blocks, k - 1), blocks[k - 1].size, align);
    }
  }

  lemma AddMultiples(x: int, y: int, a: nat)
    requires a >= 1 && x % a == 0 && y % a == 0
    ensures (x + y) % a == 0
  {
    assert x == x / a * a && y == y / a * a;
    assert x + y == (x / a + y / a) * a by { MulSub(x / a, -(y / a), a); MulNegate(y / a, a); }
    MultipleOf(x / a + y / a, a);
  }

  /** From an aligned offset, every live tensor is packed at an aligned offset, and so is the end of the last. */
  lemma CompactionAligned(blocks: seq<Block>, slot: seq<int>, was: seq<int>, ptrs: seq<int>, sizes: seq<int>, lo: int, hi: int,
                          base: int, bytes: seq<nat>, align: nat)
    requires Placed(was, sizes, lo, hi) && Found(blocks, slot, was, sizes, lo, hi, hi) && Packed(blocks, slot, was, ptrs, lo)
    requires Sizes(sizes, bytes, align) && (lo - base) % align == 0
    ensures |ptrs| == |was| && (lo - base + Before(blocks, |blocks|)) % align == 0
    ensures forall i :: 0 <= i < |was| && Live(was, i, lo, hi) ==> (ptrs[i] - base) % align == 0
  {
    hide Found, Placed, Sizes, Packed, Before, Live;
    SizesAligned(blocks, slot, was, sizes, lo, hi, bytes, align);
    PackedLength(blocks, slot, was, ptrs, lo);
    BeforeAligned(blocks, align, |blocks|);
    AddMultiples(lo - base, Before(blocks, |blocks|), align);
    forall i: nat | i < |was| && Live(was, i, lo, hi) ensures (ptrs[i] - base) % align == 0 {
      LiveAt(blocks, slot, was, ptrs, sizes, lo, hi, i);
      BeforeAligned(blocks, align, slot[i]);
      AddMultiples(lo - base, Before(blocks, slot[i]), align);
    }
  }

  lemma SizesAligned(blocks: seq<Block>, slot: seq<int>, was: seq<int>, sizes: seq<int>, lo: int, hi: int, bytes: seq<nat>, align: nat)
    requires Found(blocks, slot, was, sizes, lo, hi, hi) && Sizes(sizes, bytes, align)
    ensures align >= 1 && |slot| == |was| && forall k :: 0 <= k < |blocks| ==> blocks[k].size % align == 0
  {
    forall k | 0 <= k < |blocks| ensures blocks[k].size % align == 0 {
      assert BlockOk(blocks[k], k, slot, was, sizes, lo, hi, hi);
      AlignUpLeast(bytes[blocks[k].tensor], align, 0);
    }
  }

  lemma StartsEmpty(slot: seq<int>, was: seq<int>, sizes: seq<int>, lo: int, hi: int, base: int, before: seq<Byte>)
    requires |slot| == |was| == |sizes| && (forall i :: 0 <= i < |slot| ==> slot[i] == -1)
    requires base <= lo <= hi && |before| == hi - base
    ensures Found([], slot, was, sizes, lo, hi, lo) && Packed([], slot, was, was, lo) && BytesKept([], lo, base, before, before)
    ensures SameBytes(before, lo - base, before, lo - base, hi - lo)
  {}

  lemma AllFound(blocks: seq<Block>, slot: seq<int>, was: seq<int>, sizes: seq<int>, lo: int, hi: int, cursor: int)
    requires Found(blocks, slot, was, sizes, lo, hi, cursor) && cursor <= hi
    requires forall i :: 0 <= i < |was| ==> !(cursor <= was[i] < hi)
    ensures Found(blocks, slot, was, sizes, lo, hi, hi)
  {
    forall k | 0 <= k < |blocks| ensures BlockOk(blocks[k], k, slot, was, sizes, lo, hi, hi) {
      assert BlockOk(blocks[k], k, slot, was, sizes, lo, hi, cursor);
    }
    forall i | 0 <= i < |slot| ensures SlotOk(blocks, slot[i], was[i], sizes[i], lo, hi, hi) {
      assert SlotOk(blocks, slot[i], was[i], sizes[i], lo, hi, cursor);
    }
  }

  /** A live tensor is in the allocation recorded for it, at its packed place. */
  lemma LiveAt(blocks: seq<Block>, slot: seq<int>, was: seq<int>, ptrs: seq<int>, sizes: seq<int>, lo: int, hi: int, i: nat)
    requires Placed(was, sizes, lo, hi) && Found(blocks, slot, was, sizes, lo, hi, hi) && Packed(blocks, slot, was, ptrs, lo)
    requires i < |was|
    ensures Live(was, i, lo, hi) <==> slot[i] >= 0
    ensures slot[i] < 0 ==> ptrs[i] == was[i]
    ensures slot[i] >= 0 ==>
      var k := slot[i];
      && k < |blocks| && was[i] == blocks[k].addr && sizes[i] == blocks[k].size >= 1 && ptrs[i] == lo + Before(blocks, k)
  {
    assert SlotOk(blocks, slot[i], was[i], sizes[i], lo, hi, hi);
    if slot[i] >= 0 { assert BlockOk(blocks[slot[i]], slot[i], slot, was, sizes, lo, hi, hi); }
  }

  /** Packed allocations stay at or below where they were, in a row. */
  lemma {:induction false} PackedBelow(blocks: seq<Block>, slot: seq<int>, was: seq<int>, sizes: seq<int>, lo: int, hi: int, k: nat)
    requires Found(blocks, slot, was, sizes, lo, hi, hi) && k < |blocks|
    ensures lo + Before(blocks, k) <= blocks[k].addr && blocks[k].addr + blocks[k].size <= hi
    ensures lo + Before(blocks, k + 1) <= blocks[k].addr + blocks[k].size
  {
    assert BlockOk(blocks[k], k, slot, was, sizes, lo, hi, hi);
    if k > 0 { PackedBelow(blocks, slot, was, sizes, lo, hi, k - 1); }
  }

  lemma SizesPositive(blocks: seq<Block>, slot: seq<int>, was: seq<int>, sizes: seq<int>, lo: int, hi: int)
    requires Found(blocks, slot, was, sizes, lo, hi, hi)
    ensures forall k :: 0 <= k < |blocks| ==> blocks[k].size >= 1
  {
    forall k | 0 <= k < |blocks| ensures blocks[k].size >= 1 { assert BlockOk(blocks[k], k, slot, was, sizes, lo, hi, hi); }
  }

  /**
   * What compaction promises of two live tensors: neither moves up, aliases
   * stay aliases and nothing else becomes one, address order is kept, and
   * different allocations are disjoint.
   */
  lemma CompactionKeepsPairs(blocks: seq<Block>, slot: seq<int>, was: seq<int>, ptrs: seq<int>, sizes: seq<int>, lo: int, hi: int,
                             i: nat, j: nat)
    requires Placed(was, sizes, lo, hi) && Found(blocks, slot, was, sizes, lo, hi, hi) && Packed(blocks, slot, was, ptrs, lo)
    requires Live(was, i, lo, hi) && Live(was, j, lo, hi)
    ensures lo <= ptrs[i] <= was[i] && ptrs[i] + sizes[i] <= hi
    ensures was[i] == was[j] <==> ptrs[i] == ptrs[j]
    ensures was[i] < was[j] <==> ptrs[i] < ptrs[j]
    ensures Aliased(ptrs, sizes, i, j) || Apart(ptrs, sizes, i, j)
  {
    LiveAt(blocks, slot, was, ptrs, sizes, lo, hi, i);
    LiveAt(blocks, slot, was, ptrs, sizes, lo, hi, j);
    PackedBelow(blocks, slot, was, sizes, lo, hi, slot[i]);
    SizesPositive(blocks, slot, was, sizes, lo, hi);
    BeforeGrows(blocks, 0, slot[i]);
    if slot[i] < slot[j] { BeforeGrows(blocks, slot[i], slot[j]); }
    if slot[j] < slot[i] { BeforeGrows(blocks, slot[j], slot[i]); }
  }

  /** A compacted pool is again one compaction can take: the same tensors live, each with its bytes. */
  lemma CompactionKeeps(blocks: seq<Block>, slot: seq<int>, was: seq<int>, ptrs: seq<int>, sizes: seq<int>, lo: int, hi: int,
                        base: int, before: seq<Byte>, mem: seq<Byte>)
    requires Placed(was, sizes, lo, hi) && Found(blocks, slot, was, sizes, lo, hi, hi) && Packed(blocks, slot, was, ptrs, lo)
    requires BytesKept(blocks, lo, base, before, mem)
    ensures |ptrs| == |was| == |sizes| && Placed(ptrs, sizes, lo, hi)
    ensures forall i :: 0 <= i < |was| ==> (Live(ptrs, i, lo, hi) <==> Live(was, i, lo, hi))
    ensures forall i :: 0 <= i < |was| && !Live(was, i, lo, hi) ==> ptrs[i] == was[i]
    ensures forall i :: Live(was, i, lo, hi) ==> SameBytes(mem, ptrs[i] - base, before, was[i] - base, sizes[i])
  {
    hide SameBytes, Aliased, Apart, Found, Packed, BytesKept;
    forall i | 0 <= i < |was|
      ensures |ptrs| == |was| == |sizes| && (Live(ptrs, i, lo, hi) <==> Live(was, i, lo, hi))
      ensures !Live(was, i, lo, hi) ==> ptrs[i] == was[i]
      ensures Live(was, i, lo, hi) ==> sizes[i] >= 1 && ptrs[i] + sizes[i] <= hi
      ensures Live(was, i, lo, hi) ==> SameBytes(mem, ptrs[i] - base, before, was[i] - base, sizes[i])
    {
      KeepsOne(blocks, slot, was, ptrs, sizes, lo, hi, base, before, mem, i);
    }
    PackedLength(blocks, slot, was, ptrs, lo);
    forall i, j | Live(was, i, lo, hi) && Live(was, j, lo, hi) ensures Aliased(ptrs, sizes, i, j) || Apart(ptrs, sizes, i, j) {
      CompactionKeepsPairs(blocks, slot, was, ptrs, sizes, lo, hi, i, j);
    }
  }

  lemma PackedLength(blocks: seq<Block>, slot: seq<int>, was: seq<int>, ptrs: seq<int>, lo: int)
    requires Packed(blocks, slot, was, ptrs, lo)
    ensures |ptrs| == |was|
  {}

  lemma KeepsOne(blocks: seq<Block>, slot: seq<int>, was: seq<int>, ptrs: seq<int>, sizes: seq<int>, lo: int, hi: int,
                 base: int, before: seq<Byte>, mem: seq<Byte>, i: nat)
    requires Placed(was, sizes, lo, hi) && Found(blocks, slot, was, sizes, lo, hi, hi) && Packed(blocks, slot, was, ptrs, lo)
    requires BytesKept(blocks, lo, base, before, mem) && i < |was|
    ensures |ptrs| == |was| == |sizes| && (Live(ptrs, i, lo, hi) <==> Live(was, i, lo, hi))
    ensures !Live(was, i, lo, hi) ==> ptrs[i] == was[i]
    ensures Live(was, i, lo, hi) ==> sizes[i] >= 1 && ptrs[i] + sizes[i] <= hi
    ensures Live(was, i, lo, hi) ==> SameBytes(mem, ptrs[i] - base, before, was[i] - base, sizes[i])
  {
    hide SameBytes, Aliased, Apart, Found;
    LiveAt(blocks, slot, was, ptrs, sizes, lo, hi, i);
    if Live(was, i, lo, hi) { CompactionKeepsPairs(blocks, slot, was, ptrs, sizes, lo, hi, i, i); }
  }

  /** The packed pool has no hole: every byte of it is in a live tensor; and it ends no later than the pool did. */
  lemma CompactionTight(blocks: seq<Block>, slot: seq<int>, was: seq<int>, ptrs: seq<int>, sizes: seq<int>, lo: int, hi: int, x: int)
    returns (i: nat)
    requires Placed(was, sizes, lo, hi) && Found(blocks, slot, was, sizes, lo, hi, hi) && Packed(blocks, slot, was, ptrs, lo)
    requires lo <= x < lo + Before(blocks, |blocks|)
    ensures |ptrs| == |was| == |sizes| && Live(was, i, lo, hi) && ptrs[i] <= x < ptrs[i] + sizes[i]
    ensures exists j :: Live(was, j, lo, hi) && lo + Before(blocks, |blocks|) <= was[j] + sizes[j]
  {
    hide Found, Packed, Placed;
    var k := Holding(blocks, x - lo, |blocks|);
    i := BlockLive(blocks, slot, was, ptrs, sizes, lo, hi, k);
    var n := |blocks| - 1;
    PackedBelow(blocks, slot, was, sizes, lo, hi, n);
    var j := BlockLive(blocks, slot, was, ptrs, sizes, lo, hi, n);
  }

  /** The tensor an allocation was found by. */
  lemma BlockLive(blocks: seq<Block>, slot: seq<int>, was: seq<int>, ptrs: seq<int>, sizes: seq<int>, lo: int, hi: int, k: nat)
    returns (i: nat)
    requires Found(blocks, slot, was, sizes, lo, hi, hi) && Packed(blocks, slot, was, ptrs, lo) && k < |blocks|
    ensures |ptrs| == |was| == |sizes| && Live(was, i, lo, hi) && was[i] == blocks[k].addr && sizes[i] == blocks[k].size
    ensures ptrs[i] == lo + Before(blocks, k)
  {
    i := blocks[k].tensor;
    assert BlockOk(blocks[k], k, slot, was, sizes, lo, hi, hi);
  }

  lemma {:induction false} Holding(blocks: seq<Block>, x: int, n: nat) returns (k: nat)
    requires n <= |blocks| && 0 <= x < Before(blocks, n)
    ensures k < n && Before(blocks, k) <= x < Before(blocks, k) + blocks[k].size
  {
    if Before(blocks, n - 1) <= x {
      k := n - 1;
    } else {
      k := Holding(blocks, x, n - 1);
    }
  }
}
