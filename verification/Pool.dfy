/** The pool allocator of src/base/nx_buf.c and the growable array of src/base/nx_array.c.

    An address is a block and an offset in it; blocks come from malloc aligned, so an offset is
    aligned when the address is.  Small regions are cut from the pool's blocks, numbered from 0;
    large ones are blocks of their own with negative numbers. */
module Pool {
  import opened Wrappers

  const ALIGNMENT: int := 8
  const DATA_SIZE: int := 32
  const POOL_SIZE: int := 72
  const LARGE_SIZE: int := 16
  const MAX_ALLOC: int := 4095
  const SIZE_T: int := 0x1_0000_0000_0000_0000

  datatype Region = Region(block: int, from: int, size: int)

  datatype Block = Block(last: int, failed: int)

  datatype Address = Address(block: int, offset: int)

  function Align(m: int): int { (m + (ALIGNMENT - 1)) / ALIGNMENT * ALIGNMENT }

  function Header(block: int): int { if block == 0 then POOL_SIZE else DATA_SIZE }

  predicate Disjoint(r: Region, s: Region) {
    || r.block != s.block
    || r.from + r.size <= s.from || s.from + s.size <= r.from
    || r.size == 0 || s.size == 0
  }

  /** The source's test for room, in unsigned arithmetic. */
  predicate HasRoom(psize: int, m: int, size: int) { (psize - m) % SIZE_T >= size }

  function Start(last: int, align: bool): int { if align then Align(last) else last }

  lemma AlignUp(m: int)
    ensures m <= Align(m) < m + ALIGNMENT && Align(m) % ALIGNMENT == 0
  {
  }

  lemma HasRoomIs(psize: int, m: int, size: int)
    requires 0 <= m <= psize < SIZE_T
    ensures HasRoom(psize, m, size) <==> m + size <= psize
  {
  }

  /** The test keeps aligned regions inside the block exactly for blocks of an aligned size: in any
      other an alignment step past the end makes it succeed for every size. */
  lemma RoomTestIsRight(psize: int)
    requires POOL_SIZE <= psize < SIZE_T - 8
    ensures (forall last, size | 0 <= last <= psize && 0 < size <= psize && HasRoom(psize, Align(last), size) ::
            Align(last) + size <= psize)
            <==> psize % ALIGNMENT == 0
  {
    if psize % ALIGNMENT == 0 {
      forall last, size | 0 <= last <= psize && 0 < size <= psize && HasRoom(psize, Align(last), size)
        ensures Align(last) + size <= psize
      {
        AlignInside(psize, last);
        HasRoomIs(psize, Align(last), size);
      }
    } else {
      AlignUp(psize);
      assert HasRoom(psize, Align(psize), 1);
    }
  }

  /** Where the free space of a new block begins after n allocations of one byte without alignment,
      as long as the test finds room for them. */
  function LastAfter(psize: int, n: nat): Option<int> {
    if n == 0 then Some(POOL_SIZE)
    else
      match LastAfter(psize, n - 1)
      case None => None
      case Some(last) => if HasRoom(psize, Start(last, false), 1) then Some(last + 1) else None
  }

  lemma {:induction false} BytesFillUp(psize: int, n: nat)
    requires POOL_SIZE + n <= psize < SIZE_T
    ensures LastAfter(psize, n) == Some(POOL_SIZE + n)
  {
    if n > 0 {
      BytesFillUp(psize, n - 1);
      HasRoomIs(psize, POOL_SIZE + n - 1, 1);
    }
  }

  /** Such a state is reached: in a pool of any other size, once single bytes have filled its block,
      an aligned allocation of any size gets a region behind the block. */
  lemma OutsideIsReached(psize: int, size: int)
    requires POOL_SIZE < psize < SIZE_T - 8 && psize % ALIGNMENT != 0 && 0 < size <= psize
    ensures exists n: nat ::
              && LastAfter(psize, n) == Some(psize)
              && HasRoom(psize, Start(psize, true), size) && Start(psize, true) > psize
  {
    BytesFillUp(psize, psize - POOL_SIZE);
    AlignUp(psize);
  }

  lemma AlignInside(psize: int, last: int)
    requires psize % ALIGNMENT == 0 && 0 <= last <= psize
    ensures 0 <= last <= Align(last) <= psize
  {
  }

  lemma KeepsOthers(s: seq<int>, k: int, x: int)
    requires 0 <= k < |s| && s[k] == 0
    ensures var t := s[k := x]; forall id | id in s && id != 0 :: id in t
  {
    var t := s[k := x];
    forall id | id in s && id != 0 ensures id in t {
      var j :| 0 <= j < |s| && s[j] == id;
      assert t[j] == id;
    }
  }

  // ---------------------------------------------------------------- the pool

  class NxPool {
    const psize: int
    const max: int
    var blocks: seq<Block>
    var current: int
    /** The list of large allocations, newest first; 0 for a freed one. */
    var large: seq<int>
    var mallocs: int
    /** The contents of memory. */
    var mem: map<Address, int>
    /** All regions handed out since the last reset. */
    ghost var given: seq<Region>

    /** A region lies behind the header of its block and before the block's free space. */
    ghost predicate Inside(r: Region)
      reads this
    {
      && r.size >= 0
      && if r.block < 0 then r.from == 0 && -r.block <= mallocs
         else r.block < |blocks| && Header(r.block) <= r.from && r.from + r.size <= blocks[r.block].last
    }

    ghost predicate BlocksOk()
      reads this
    {
      && psize % ALIGNMENT == 0 && POOL_SIZE <= psize < SIZE_T && 0 <= max <= psize - POOL_SIZE
      && 0 <= current < |blocks| && mallocs >= 0
      && forall b | 0 <= b < |blocks| :: Header(b) <= blocks[b].last <= psize
    }

    /** All regions are inside their blocks, and no two share a byte. */
    ghost predicate Valid()
      reads this
    {
      && BlocksOk()
      && (forall i | 0 <= i < |given| :: Inside(given[i]))
      && (forall i, j | 0 <= i < j < |given| :: Disjoint(given[i], given[j]))
    }

    /** nx_create_pool.  The pool is sound if its size is a multiple of the alignment. */
    constructor (size: int)
      requires POOL_SIZE <= size < SIZE_T
      ensures (Valid() <==> size % ALIGNMENT == 0) && given == [] && psize == size
      ensures blocks == [Block(72, 0)] && current == 0 && large == []
      ensures max == if size - 72 < 4095 then size - 72 else 4095
    {
      psize := size;
      max := if size - POOL_SIZE < MAX_ALLOC then size - POOL_SIZE else MAX_ALLOC;
      blocks, current, large, mallocs := [Block(POOL_SIZE, 0)], 0, [], 0;
      mem := map[];
      given := [];
    }

    /** nx_reset_pool: all blocks are kept and empty again. */
    method Reset()
      requires Valid()
      modifies this
      ensures Valid() && given == [] && |blocks| == old(|blocks|) && large == []
      ensures forall b | 0 <= b < |blocks| :: blocks[b] == Block(Header(b), 0)
    {
      var b := 0;
      ghost var n := |blocks|;
      while b < |blocks|
        invariant 0 <= b <= |blocks| == n
        invariant forall c | 0 <= c < b :: blocks[c] == Block(Header(c), 0)
        invariant mallocs == old(mallocs)
      {
        blocks := blocks[b := Block(Header(b), 0)];
        b := b + 1;
      }
      current, large := 0, [];
      given := [];
    }

    /** The next region of a block is taken. */
    ghost predicate Took(r: Region, before: seq<Region>)
      reads this
    {
      Valid() && given == before + [r]
    }

    /** A block has room for a region. */
    predicate RoomIn(bs: seq<Block>, b: int, size: int, align: bool)
      requires 0 <= b < |bs|
    {
      HasRoom(psize, Start(bs[b].last, align), size)
    }

    /** nx_palloc_small: the first block from the current one that has room, else a new one. */
    method PallocSmall(size: int, align: bool) returns (r: Region)
      requires Valid() && 0 <= size <= max
      modifies `blocks, `current, `given
      ensures Took(r, old(given)) && r.size == size && (align ==> r.from % ALIGNMENT == 0)
      ensures old(current) <= r.block <= |old(blocks)|
      ensures forall b | old(current) <= b < r.block :: !RoomIn(old(blocks), b, size, align)
      ensures r.block < |old(blocks)| ==>
                RoomIn(old(blocks), r.block, size, align) && r.from == Start(old(blocks)[r.block].last, align)
                && current == old(current)
      ensures r.block == |old(blocks)| ==> r.from == DATA_SIZE
      ensures |blocks| == if r.block == |old(blocks)| then |old(blocks)| + 1 else |old(blocks)|
      ensures forall b | 0 <= b < |old(blocks)| && b != r.block :: blocks[b].last == old(blocks)[b].last
    {
      var p := current;
      while p < |blocks|
        invariant old(current) <= p <= |blocks|
        invariant forall b | old(current) <= b < p :: !RoomIn(blocks, b, size, align)
        invariant blocks == old(blocks) && current == old(current) && given == old(given)
      {
        AlignUp(blocks[p].last);
        AlignInside(psize, blocks[p].last);
        var m := Start(blocks[p].last, align);
        HasRoomIs(psize, m, size);
        if HasRoom(psize, m, size) {
          r := Region(p, m, size);
          blocks := blocks[p := blocks[p].(last := m + size)];
          given := given + [r];
          return;
        }
        p := p + 1;
      }
      r := PallocBlock(size);
    }

    /** nx_palloc_block. */
    method PallocBlock(size: int) returns (r: Region)
      requires Valid() && 0 <= size <= max
      modifies `blocks, `current, `given
      ensures Took(r, old(given)) && r == Region(old(|blocks|), DATA_SIZE, size) && r.from % ALIGNMENT == 0
      ensures |blocks| == |old(blocks)| + 1
      ensures forall b | 0 <= b < |old(blocks)| :: blocks[b].last == old(blocks)[b].last
    {
      var m := Align(DATA_SIZE);
      r := Region(|blocks|, m, size);
      CountFailures();
      blocks := blocks + [Block(m + size, 0)];
      given := given + [r];
    }

    /** Blocks that failed too often are skipped in future. */
    method CountFailures()
      requires BlocksOk()
      modifies `blocks, `current
      ensures BlocksOk() && |blocks| == old(|blocks|) && old(current) <= current
      ensures forall b | 0 <= b < |blocks| :: blocks[b].last == old(blocks)[b].last
      ensures forall b | 0 <= b < |blocks| ::
                blocks[b].failed == old(blocks)[b].failed + if old(current) <= b < |blocks| - 1 then 1 else 0
      ensures current > old(current) ==> old(blocks)[current - 1].failed > 4
      ensures forall b | current <= b < |blocks| - 1 :: old(blocks)[b].failed <= 4
    {
      var p := current;
      while p + 1 < |blocks|
        invariant old(current) <= p < |blocks| == old(|blocks|) && old(current) <= current <= p
        invariant forall b | 0 <= b < |blocks| :: blocks[b].last == old(blocks)[b].last
        invariant forall b | 0 <= b < |blocks| ::
                    blocks[b].failed == old(blocks)[b].failed + if old(current) <= b < p then 1 else 0
        invariant current > old(current) ==> old(blocks)[current - 1].failed > 4
        invariant forall b | current <= b < p :: old(blocks)[b].failed <= 4
      {
        if blocks[p].failed > 4 { current := p + 1; }
        blocks := blocks[p := blocks[p].(failed := blocks[p].failed + 1)];
        p := p + 1;
      }
    }

    /** nx_palloc_large: a block of its own, remembered in a freed node of the list or a new one. */
    method PallocLarge(size: int) returns (r: Region)
      requires Valid() && 0 <= size && LARGE_SIZE <= max
      modifies `blocks, `current, `given, `mallocs, `large
      ensures Valid() && r.size == size && r.block == -mallocs && mallocs == old(mallocs) + 1 && r.from == 0
      ensures given == old(given) + [r] || (exists node :: given == old(given) + [r, node])
      ensures -r.block in large && forall id | id in old(large) && id != 0 :: id in large
      ensures if exists k | 0 <= k < 5 && k < |old(large)| :: old(large)[k] == 0
              then given == old(given) + [r] && exists k | 0 <= k < 5 && k < |old(large)| ::
                     old(large)[k] == 0 && 0 !in old(large)[..k] && large == old(large)[k := mallocs]
              else large == [mallocs] + old(large)
    {
      mallocs := mallocs + 1;
      r := Region(-mallocs, 0, size);
      given := given + [r];
      var k := 0;
      while k < |large| && k <= 4
        invariant 0 <= k <= |large| && k <= 5 && large == old(large) && mallocs == -r.block
        invariant forall j | 0 <= j < k :: large[j] != 0
        invariant Valid() && given == old(given) + [r]
      {
        if large[k] == 0 {
          large := large[k := mallocs];
          assert large[k] == mallocs;
          KeepsOthers(old(large), k, mallocs);
          return;
        }
        k := k + 1;
      }
      var node := PallocSmall(LARGE_SIZE, true);
      assert given == old(given) + [r, node];
      large := [mallocs] + large;
      assert large[0] == mallocs;
    }

    /** nx_palloc and nx_pnalloc. */
    method Palloc(size: int, align: bool) returns (r: Region)
      requires Valid() && 0 <= size && LARGE_SIZE <= max
      modifies `blocks, `current, `given, `mallocs, `large
      ensures Valid() && r.size == size && (align ==> r.from % ALIGNMENT == 0)
      ensures |given| > |old(given)| && given[..|old(given)|] == old(given) && given[|old(given)|] == r
      ensures mem == old(mem)
      ensures r.block < 0 <==> size > max
      ensures r.block < 0 ==> -r.block in large
      ensures forall id | id in old(large) && id != 0 :: id in large
    {
      if size <= max {
        r := PallocSmall(size, align);
      } else {
        r := PallocLarge(size);
      }
    }

    /** nx_pfree: only large regions are given back. */
    method Pfree(r: Region) returns (ok: bool)
      requires Valid()
      modifies `large
      ensures ok <==> r.block < 0 && r.from == 0 && -r.block in old(large)
      ensures !ok ==> large == old(large)
      ensures ok ==> |large| == |old(large)|
      ensures ok ==> exists k :: 0 <= k < |large| && old(large)[k] == -r.block && large == old(large)[k := 0]
    {
      var k := 0;
      while k < |large|
        invariant 0 <= k <= |large| && large == old(large)
        invariant forall j | 0 <= j < k :: r.block >= 0 || r.from != 0 || large[j] != -r.block
      {
        if r.block < 0 && r.from == 0 && large[k] == -r.block {
          large := large[k := 0];
          return true;
        }
        k := k + 1;
      }
      ok := false;
    }

    /** The last region of the head block grows by n bytes. */
    method Extend(ghost slot: int, n: int)
      requires Valid() && 0 <= slot < |given| && given[slot].block == 0 && n >= 0
      requires given[slot].from + given[slot].size == blocks[0].last && blocks[0].last + n <= psize
      modifies `blocks, `given
      ensures Valid() && given == old(given)[slot := old(given[slot]).(size := old(given[slot]).size + n)]
      ensures mem == old(mem)
    {
      blocks := blocks[0 := blocks[0].(last := blocks[0].last + n)];
      given := given[slot := given[slot].(size := given[slot].size + n)];
    }

    /** memcpy between two regions that share no byte. */
    method Copy(dst: Region, src: Region, n: int)
      requires 0 <= n <= dst.size && n <= src.size && Disjoint(dst, src)
      modifies `mem
      ensures Copied(old(mem), mem, dst, src, n)
    {
      ghost var m := mem;
      var i := 0;
      while i < n
        invariant 0 <= i <= n && Copied(m, mem, dst, src, i)
      {
        CopyNext(m, mem, dst, src, i);
        mem := mem[Address(dst.block, dst.from + i) := Load(mem, src.block, src.from + i)];
        i := i + 1;
      }
    }
  }

  /** The byte at an address; one never written is 0. */
  function Load(mem: map<Address, int>, block: int, o: int): int {
    var a := Address(block, o);
    if a in mem then mem[a] else 0
  }

  /** Memory after the first n bytes of src were copied to dst. */
  ghost predicate Copied(mem: map<Address, int>, mem': map<Address, int>, dst: Region, src: Region, n: int) {
    forall b, o :: CopiedAt(mem, mem', dst, src, n, b, o)
  }

  predicate CopiedAt(mem: map<Address, int>, mem': map<Address, int>, dst: Region, src: Region, n: int, b: int,
      o: int) {
    Load(mem', b, o) == if InRange(dst, n, b, o) then Load(mem, src.block, src.from + (o - dst.from))
      else Load(mem, b, o)
  }

  predicate InRange(r: Region, n: int, b: int, o: int) { b == r.block && r.from <= o < r.from + n }

  // ---------------------------------------------------------------- the array

  function Bytes(size: int, n: int): int { size * n }

  lemma BytesFacts(size: int, n: int, m: int)
    requires 0 <= size && 0 <= n <= m
    ensures 0 <= Bytes(size, n) <= Bytes(size, m) && Bytes(size, n + 1) == Bytes(size, n) + size
    ensures Bytes(size, 2 * n) == 2 * Bytes(size, n) && Bytes(size, n + m) == Bytes(size, n) + Bytes(size, m)
  {
    var d := m - n;
    assert size * m == size * n + size * d;
    MulNonneg(size, d);
    MulNonneg(size, n);
  }

  lemma {:induction false} MulNonneg(a: int, b: nat)
    requires a >= 0
    ensures a * b >= 0
  {
    if b > 0 { MulNonneg(a, b - 1); assert a * b == a * (b - 1) + a; }
  }

  class NxArray {
    const pool: NxPool
    const size: int
    var elts: Region
    var nelts: int
    var nalloc: int
    /** Its region's place among those handed out. */
    ghost var slot: int

    /** The elements lie in one region of the pool that holds nalloc of them. */
    ghost predicate Valid()
      reads this, pool
    {
      && pool.Valid() && LARGE_SIZE <= pool.max
      && 0 <= slot < |pool.given| && pool.given[slot] == elts
      && elts.size == Bytes(size, nalloc) && 0 <= nelts <= nalloc && 0 <= size
    }

    /** Byte x of the elements. */
    ghost function At(x: int): int
      reads this, pool
    {
      ByteAt(pool.mem, elts, x)
    }

    /** The array ends where the free space of the pool's head block begins, and n bytes fit there. */
    predicate AtEnd(n: int)
      requires |pool.blocks| > 0
      reads this, pool
    {
      elts.block == 0 && elts.from + elts.size == pool.blocks[0].last && pool.blocks[0].last + n <= pool.psize
    }

    /** nx_array_create, but for the array's own header. */
    constructor (p: NxPool, n: int, elementSize: int)
      requires p.Valid() && 0 <= n && 0 <= elementSize && LARGE_SIZE <= p.max
      modifies p`blocks, p`current, p`given, p`mallocs, p`large
      ensures Valid() && pool == p && size == elementSize && nelts == 0 && nalloc == n
    {
      BytesFacts(elementSize, n, n);
      var r := p.Palloc(Bytes(elementSize, n), true);
      pool, size, nelts, nalloc, elts := p, elementSize, 0, n, r;
      slot := old(|p.given|);
    }

    /** A larger region takes the place of the old one. */
    method Move(newAlloc: int)
      requires Valid() && nalloc <= newAlloc
      modifies this`elts, this`nalloc, this`slot, pool`blocks, pool`current, pool`given, pool`mallocs, pool`large,
        pool`mem
      ensures Valid() && nalloc == newAlloc && nelts == old(nelts)
      ensures forall x | 0 <= x < Bytes(size, nelts) :: At(x) == old(At(x))
      ensures OthersKept(old(pool.given), old(slot), old(pool.mem), pool.given, pool.mem)
    {
      BytesFacts(size, nalloc, newAlloc);
      BytesFacts(size, nelts, nalloc);
      var r := pool.Palloc(Bytes(size, newAlloc), true);
      ghost var given, mem, n, src := old(pool.given), pool.mem, Bytes(size, nelts), elts;
      assert forall i | 0 <= i < |given| :: pool.given[i] == given[i] && Disjoint(given[i], r) by {
        assert forall i | 0 <= i < |given| :: pool.given[..|given|][i] == given[i];
      }
      hide Disjoint;
      pool.Copy(r, elts, Bytes(size, nelts));
      elts, nalloc := r, newAlloc;
      slot := |given|;
      CopyBrings(mem, pool.mem, r, src, n);
      CopyKeepsOthers(given, old(slot), mem, pool.given, pool.mem, r, src, n);
    }

    /** nx_array_push: the place of one more element.  Nothing is lost, unless the array was made for
        no elements at all and cannot grow in place. */
    method Push() returns (elt: Region)
      requires Valid()
      modifies this, pool`blocks, pool`current, pool`given, pool`mallocs, pool`large, pool`mem
      ensures elt == Region(elts.block, elts.from + Bytes(size, old(nelts)), size) && nelts == old(nelts) + 1
      ensures forall x | 0 <= x < Bytes(size, old(nelts)) :: At(x) == old(At(x))
      ensures OthersKept(old(pool.given), old(slot), old(pool.mem), pool.given, pool.mem)
      ensures Valid() <==> old(nalloc > 0 || AtEnd(size))
      ensures nalloc == if old(nelts < nalloc) then old(nalloc) else if old(AtEnd(size)) then old(nalloc) + 1
                        else 2 * old(nalloc)
      ensures old(nelts < nalloc || AtEnd(size)) ==> elts.block == old(elts.block) && elts.from == old(elts.from)
    {
      BytesFacts(size, nelts, nalloc);
      if nelts == nalloc {
        BytesFacts(size, nalloc, 2 * nalloc);
        if AtEnd(size) {
          pool.Extend(slot, size);
          elts := elts.(size := elts.size + size);
          nalloc := nalloc + 1;
        } else {
          Move(2 * nalloc);
        }
      }
      elt := Region(elts.block, elts.from + Bytes(size, nelts), size);
      nelts := nelts + 1;
    }

    /** nx_array_pop returns the place behind the top element, not the element's: for an array in full
        use that place is not the array's own. */
    method Pop() returns (ok: bool, elt: Region)
      requires Valid()
      modifies this`nelts
      ensures Valid() && (ok <==> old(nelts) > 0) && nelts == if ok then old(nelts) - 1 else old(nelts)
      ensures ok ==> elt == Region(elts.block, elts.from + Bytes(size, old(nelts)), size)
      ensures ok && size > 0 ==> (elt.from + elt.size <= elts.from + elts.size <==> old(nelts) < nalloc)
    {
      ok, elt := nelts > 0, elts;
      if ok {
        BytesFacts(size, nelts, nalloc);
        if nelts < nalloc { BytesFacts(size, nelts + 1, nalloc); }
        elt := Region(elts.block, elts.from + Bytes(size, nelts), size);
        nelts := nelts - 1;
      }
    }

    /** nx_array_push_n: the place of n more elements. */
    method PushN(n: int) returns (elt: Region)
      requires Valid() && n >= 0
      modifies this, pool`blocks, pool`current, pool`given, pool`mallocs, pool`large, pool`mem
      ensures Valid() && nelts == old(nelts) + n
      ensures nalloc == if old(nelts + n <= nalloc) then old(nalloc)
                        else if old(AtEnd(Bytes(size, n))) then old(nalloc) + n
                        else if n >= old(nalloc) then 2 * n else 2 * old(nalloc)
      ensures old(nelts + n <= nalloc || AtEnd(Bytes(size, n))) ==>
                elts.block == old(elts.block) && elts.from == old(elts.from)
      ensures elt == Region(elts.block, elts.from + Bytes(size, old(nelts)), Bytes(size, n))
      ensures forall x | 0 <= x < Bytes(size, old(nelts)) :: At(x) == old(At(x))
      ensures OthersKept(old(pool.given), old(slot), old(pool.mem), pool.given, pool.mem)
    {
      BytesFacts(size, nelts, nalloc);
      BytesFacts(size, n, n);
      if nelts + n > nalloc {
        if n <= nalloc { BytesFacts(size, n, nalloc); } else { BytesFacts(size, nalloc, n); }
        if AtEnd(Bytes(size, n)) {
          pool.Extend(slot, Bytes(size, n));
          elts := elts.(size := elts.size + Bytes(size, n));
          nalloc := nalloc + n;
        } else {
          Move(2 * if n >= nalloc then n else nalloc);
        }
      }
      elt := Region(elts.block, elts.from + Bytes(size, nelts), Bytes(size, n));
      nelts := nelts + n;
    }
  }

  /** One byte more; the source of it is still what it was. */
  lemma CopyNext(m: map<Address, int>, mem: map<Address, int>, dst: Region, src: Region, i: int)
    requires Copied(m, mem, dst, src, i) && 0 <= i < dst.size && i < src.size && Disjoint(dst, src)
    ensures Copied(m, mem[Address(dst.block, dst.from + i) := Load(mem, src.block, src.from + i)], dst, src, i + 1)
  {
    var mem' := mem[Address(dst.block, dst.from + i) := Load(mem, src.block, src.from + i)];
    assert CopiedAt(m, mem, dst, src, i, src.block, src.from + i) && !InRange(dst, i, src.block, src.from + i);
    var n := i + 1;
    forall b, o ensures CopiedAt(m, mem', dst, src, n, b, o) {
      assert CopiedAt(m, mem, dst, src, i, b, o);
    }
  }

  lemma CopyBrings(mem: map<Address, int>, mem': map<Address, int>, dst: Region, src: Region, n: int)
    requires Copied(mem, mem', dst, src, n)
    ensures forall x | 0 <= x < n :: ByteAt(mem', dst, x) == ByteAt(mem, src, x)
  {
    forall x | 0 <= x < n ensures ByteAt(mem', dst, x) == ByteAt(mem, src, x) {
      assert CopiedAt(mem, mem', dst, src, n, dst.block, dst.from + x);
    }
  }

  /** Byte x of a region. */
  function ByteAt(mem: map<Address, int>, r: Region, x: int): int { Load(mem, r.block, r.from + x) }

  lemma CopyKeepsOthers(given: seq<Region>, slot: int, mem: map<Address, int>, given': seq<Region>,
      mem': map<Address, int>,
                        dst: Region, src: Region, n: int)
    requires |given| <= |given'| && n <= dst.size && Copied(mem, mem', dst, src, n)
    requires forall i | 0 <= i < |given| :: given'[i] == given[i] && Disjoint(given[i], dst)
    ensures OthersKept(given, slot, mem, given', mem')
  {
    forall i, o | 0 <= i < |given| && given[i].from <= o < given[i].from + given[i].size
      ensures Load(mem', given[i].block, o) == Load(mem, given[i].block, o)
    {
      var b := given[i].block;
      assert Disjoint(given[i], dst);
      assert CopiedAt(mem, mem', dst, src, n, b, o) && !InRange(dst, n, b, o);
    }
  }

  /** All regions but one are where they were and hold the same bytes. */
  ghost predicate OthersKept(given: seq<Region>, slot: int, mem: map<Address, int>, given': seq<Region>,
      mem': map<Address, int>) {
    && |given| <= |given'|
    && forall i | 0 <= i < |given| && i != slot ::
         given'[i] == given[i] && forall o | given[i].from <= o < given[i].from + given[i].size ::
           Load(mem', given[i].block, o) == Load(mem, given[i].block, o)
  }
}
