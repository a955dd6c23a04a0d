/** src/base/bip_buf.c: a byte queue kept in one contiguous block, in storage twice its capacity.
    Region A holds the committed bytes; a reservation R for a writer always follows it. */
module BipBuf {

  // ---------------------------------------------------------------- capacity

  predicate IsPow2(n: int) { n == 1 || (n > 1 && n % 2 == 0 && IsPow2(n / 2)) }

  /** The least power of two that is at least x. */
  function NextPowerOfTwo(x: int): (y: int)
    requires x >= 1
    ensures y >= x && IsPow2(y) && (y == 1 || y / 2 < x)
  {
    if x == 1 then 1 else 2 * NextPowerOfTwo((x + 1) / 2)
  }

  /** The source's way to it on 32 bits: fill all bits below the highest one of x - 1, add one. */
  function Filled(x: bv32): bv32 {
    var a := x - 1;
    var b := a | (a >> 1);
    var c := b | (b >> 2);
    var d := c | (c >> 4);
    var e := d | (d >> 8);
    (e | (e >> 16)) + 1
  }

  /** It is a power of two, not below x, and half of it is below x; beyond 2^31 it is 0. */
  lemma FilledIsNextPower(x: bv32)
    requires x >= 1
    ensures var y := Filled(x);
            if x <= 0x8000_0000 then y & (y - 1) == 0 && y >= x && y >> 1 < x else y == 0
  {
  }

  // ---------------------------------------------------------------- regions

  /** The sizes of the two regions never exceed the capacity; R starts where A ends. */
  predicate Regions(capacity: int, aStart: int, aEnd: int, rStart: int, rEnd: int) {
    && 0 <= aStart <= aEnd <= 2 * capacity && aEnd - aStart <= capacity
    && rStart <= rEnd
    && (rStart < rEnd ==> rStart == aEnd && rEnd <= 2 * capacity && (aEnd - aStart) + (rEnd - rStart) <= capacity)
  }

  /** A is moved to the front only when its old place lies wholly behind its new one. */
  lemma WrapIsDisjoint(capacity: int, aStart: int, aEnd: int, want: int)
    requires Regions(capacity, aStart, aEnd, 0, 0) && want <= capacity - (aEnd - aStart)
    requires 2 * capacity - aEnd < want
    ensures aEnd - aStart < aStart
  {
  }

  // ---------------------------------------------------------------- the buffer

  /** memcpy: the ranges must not overlap. */
  method MemCpy(dst: array<int>, d: int, src: array<int>, s: int, n: int)
    requires 0 <= n && 0 <= d && d + n <= dst.Length && 0 <= s && s + n <= src.Length
    requires dst != src || d + n <= s || s + n <= d
    modifies dst
    ensures dst[d..d + n] == old(src[s..s + n])
    ensures dst[..d] == old(dst[..d]) && dst[d + n..] == old(dst[d + n..])
  {
    var i := 0;
    while i < n
      invariant 0 <= i <= n
      invariant forall k | d <= k < d + i :: dst[k] == old(src[k - d + s])
      invariant forall k | 0 <= k < dst.Length && !(d <= k < d + i) :: dst[k] == old(dst[k])
    {
      dst[d + i] := src[s + i];
      i := i + 1;
    }
  }

  class BipBuf {
    var buffer: array<int>
    var capacity: int
    var committedSum: int
    var aStart: int
    var aEnd: int
    var rStart: int
    var rEnd: int

    ghost predicate Valid()
      reads this
    {
      buffer.Length == 2 * capacity && Regions(capacity, aStart, aEnd, rStart, rEnd)
    }

    /** The bytes committed and not yet taken. */
    ghost function Contents(): seq<int>
      reads this, buffer
      requires Valid()
    {
      buffer[aStart..aEnd]
    }

    function ReservationSize(): int
      reads this
    {
      rEnd - rStart
    }

    function Free(): int
      reads this
    {
      capacity - (aEnd - aStart)
    }

    constructor (size: int)
      requires size >= 0
      ensures Valid() && fresh(buffer) && Contents() == [] && ReservationSize() == 0 && capacity == size
              && committedSum == 0
    {
      capacity := size;
      buffer := new int[2 * size];
      committedSum := 0;
      aStart, aEnd, rStart, rEnd := 0, 0, 0, 0;
    }

    method Reset()
      requires Valid()
      modifies this
      ensures Valid() && Contents() == [] && ReservationSize() == 0
      ensures buffer == old(buffer) && capacity == old(capacity) && committedSum == old(committedSum)
    {
      aStart, aEnd, rStart, rEnd := 0, 0, 0, 0;
    }

    /** Make room for `want` bytes behind A without growing. */
    method Settle(want: int)
      requires Valid() && rStart == rEnd && 0 < want <= Free()
      modifies this, buffer
      ensures buffer == old(buffer) && capacity == old(capacity) && committedSum == old(committedSum)
      ensures rStart == old(rStart) && rEnd == old(rEnd)
      ensures Valid() && Contents() == old(Contents()) && aEnd + want <= 2 * capacity
    {
      var size := aEnd - aStart;
      if size == 0 {
        aStart, aEnd := 0, 0;
      } else if 2 * capacity - aEnd < want {
        WrapIsDisjoint(capacity, aStart, aEnd, want);
        MemCpy(buffer, 0, buffer, aStart, size);
        aStart, aEnd := 0, size;
      }
    }

    /** bip_buf_reserve: all free space, or nothing while a reservation is pending. */
    method Reserve() returns (ok: bool)
      requires Valid()
      modifies this, buffer
      ensures Valid() && Contents() == old(Contents()) && capacity == old(capacity) && buffer == old(buffer)
      ensures committedSum == old(committedSum)
      ensures ok <==> old(ReservationSize()) == 0 && old(Free()) > 0
      ensures ok ==> ReservationSize() == Free() == old(Free())
      ensures !ok ==> ReservationSize() == old(ReservationSize())
    {
      if rEnd - rStart > 0 || Free() == 0 { return false; }
      var size := Free();
      Settle(size);
      rStart, rEnd := aEnd, aEnd + size;
      ok := true;
    }

    /** The reservation needs a larger buffer. */
    predicate Grows(size: int)
      reads this
    {
      rEnd <= rStart && 0 < Free() < size
    }

    /** bip_buf_force_reserve: grows if there is too little free space, though not if there is none. */
    method ForceReserve(size: int) returns (ok: bool)
      requires Valid() && 0 <= size && (Grows(size) ==> capacity + size <= 0x8000_0000)
      modifies this, buffer
      ensures Valid() && Contents() == old(Contents()) && (buffer == old(buffer) || fresh(buffer))
      ensures committedSum == old(committedSum)
      ensures ok <==> old(ReservationSize()) == 0 && size > 0 && old(Free()) > 0
      ensures ok ==> ReservationSize() == size
      ensures !ok ==> ReservationSize() == old(ReservationSize())
      ensures capacity == if ok && size > old(Free()) then NextPowerOfTwo(old(capacity) + size) else old(capacity)
    {
      if rEnd - rStart > 0 || size == 0 || Free() == 0 { return false; }
      if size > Free() {
        var n, old', start := aEnd - aStart, buffer, aStart;
        capacity := NextPowerOfTwo(capacity + size);
        buffer := new int[2 * capacity];
        MemCpy(buffer, 0, old', start, n);
        aStart, aEnd := 0, n;
      } else {
        Settle(size);
      }
      rStart, rEnd := aEnd, aEnd + size;
      ok := true;
    }

    /** The writer fills the reservation from its start. */
    method Write(bytes: seq<int>)
      requires Valid() && |bytes| <= ReservationSize()
      modifies buffer
      ensures Contents() == old(Contents()) && Written(|bytes|) == bytes
    {
      var i := 0;
      while i < |bytes|
        invariant 0 <= i <= |bytes|
        invariant forall k | rStart <= k < rStart + i :: buffer[k] == bytes[k - rStart]
        invariant forall k | aStart <= k < aEnd :: buffer[k] == old(buffer[k])
      {
        buffer[rStart + i] := bytes[i];
        i := i + 1;
      }
      if bytes == [] { assert Written(0) == []; }
    }

    /** The first n bytes of the reservation. */
    ghost function Written(n: int): seq<int>
      reads this, buffer
      requires Valid() && 0 <= n <= ReservationSize()
    {
      if n == 0 then [] else buffer[rStart..rStart + n]
    }

    /** bip_buf_commit: no more than was reserved is appended, though any size is added to the sum if
        nothing was reserved. */
    method Commit(size: int)
      requires Valid() && size >= 0
      modifies this
      ensures var n := if size > old(ReservationSize()) then old(ReservationSize()) else size;
              Valid() && Contents() == old(Contents()) + old(Written(n))
      ensures ReservationSize() == 0 && buffer == old(buffer) && capacity == old(capacity)
      ensures committedSum == old(committedSum) + if 0 < old(ReservationSize()) < size
              then old(ReservationSize()) else size
    {
      var n, reserved := size, rEnd - rStart;
      if reserved > 0 {
        n := if size > reserved then reserved else size;
        assert buffer[aStart..rStart + n] == buffer[aStart..aEnd] + buffer[rStart..rStart + n];
        aEnd := rStart + n;
      }
      rStart, rEnd := 0, 0;
      committedSum := committedSum + n;
    }

    /** bip_buf_decommit. */
    method Decommit(size: int) returns (bytes: int)
      requires Valid() && size >= 0
      modifies this
      ensures Valid() && 0 <= bytes <= size && bytes <= |old(Contents())|
              && (bytes == size || bytes == |old(Contents())|)
      ensures Contents() == old(Contents())[bytes..]
      ensures ReservationSize() == old(ReservationSize()) && buffer == old(buffer) && capacity == old(capacity)
      ensures rStart == old(rStart)
    {
      var committed := aEnd - aStart;
      bytes := if size >= committed then committed else size;
      aStart := aStart + bytes;
    }

    /** The read loop's use of it: reserve, read into the reservation, commit what was read.  It
        fails if the buffer is exactly full. */
    method Append(room: int, bytes: seq<int>) returns (ok: bool)
      requires Valid() && ReservationSize() == 0 && 0 < room && |bytes| <= room
      requires Grows(room) ==> capacity + room <= 0x8000_0000
      modifies this, buffer
      ensures Valid() && ReservationSize() == 0 && (buffer == old(buffer) || fresh(buffer))
      ensures ok <==> |old(Contents())| < old(capacity)
      ensures Contents() == if ok then old(Contents()) + bytes else old(Contents())
    {
      ok := ForceReserve(room);
      if ok {
        Write(bytes);
        Commit(|bytes|);
      }
    }
  }
}
