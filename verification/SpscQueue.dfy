/** The lock-free single-producer single-consumer queue of
    src/base/concurrent/readerwriterqueue.h: a ring of circular buffers ("blocks").

    Every load and store of the source is one atomic step of a state machine with one program
    counter per thread.  A schedule is any sequence of actions of the two threads, so a statement
    about every schedule is a statement about every interleaving.  */
module SpscQueue {
  type T(==)

  // ---------------------------------------------------------------- data

  /** A circular buffer.  `front` and `localTail` are written by the consumer only, `tail`,
      `localFront` and `next` by the producer only; `localTail` and `localFront` are the cached
      copies of the other side's index.  `|data|` is the capacity, a power of two. */
  datatype Block = Block(data: seq<T>, front: int, tail: int, localFront: int, localTail: int, next: int)

  datatype EnqueueResult = NoCall | Stored | NoRoom | NoMemory
  datatype DequeueResult = NoResult | Nothing | Got(value: T) | Seen(seen: T)

  /** Where the producer stands inside inner_enqueue; the arguments are its local variables. */
  datatype ProducerPc =
    | PIdle(result: EnqueueResult)
    | PTailBlock(v: T, mayAlloc: bool)
    | PLocalFront(v: T, mayAlloc: bool, tb: int)
    | PTail(v: T, mayAlloc: bool, tb: int, bf: int)
    | PFront(v: T, mayAlloc: bool, tb: int, bt: int)
    | PWrite(v: T, tb: int, bt: int)
    | PPublish(v: T, tb: int, bt: int)
    | PNext(v: T, mayAlloc: bool, tb: int)
    | PFrontBlock(v: T, mayAlloc: bool, tb: int, nx: int)
    | PNextAgain(v: T, tb: int)
    | PNextFront(v: T, nb: int)
    | PNextTail(v: T, nb: int, nf: int)
    | PNextWrite(v: T, nb: int, nt: int)
    | PNextPublish(v: T, nb: int, nt: int)
    | PAlloc(v: T, tb: int)
    | PLink(v: T, tb: int, nb: int)
    | PSetTail(v: T, nb: int)

  /** Where the consumer stands inside try_dequeue (or peek). */
  datatype ConsumerPc =
    | CIdle(result: DequeueResult)
    | CFrontBlock(peek: bool)
    | CLocalTail(peek: bool, fb: int)
    | CFront(peek: bool, fb: int, bt: int)
    | CTail(peek: bool, fb: int, bf: int)
    | CRead(peek: bool, fb: int, bf: int)
    | CStore(fb: int, bf: int, value: T)
    | CTailBlock(peek: bool, fb: int)
    | CFrontBlockAgain(peek: bool)
    | CTailAgain(peek: bool, fb: int)
    | CFrontAgain(peek: bool, fb: int, bt: int)
    | CNext(peek: bool, fb: int)
    | CNextFront(peek: bool, nb: int)
    | CNextTail(peek: bool, nb: int, nf: int)
    | CSetFront(nb: int, nf: int)
    | CPeekNext(nb: int, nf: int)

  /** `enqueued` lists the elements of the enqueue calls that returned true, `dequeued` those
      handed out by try_dequeue.  `emptySeen` and `peak` observe the queue from the start of the
      consumer's (producer's) latest call: was it ever empty, and how full did it get.
      `assertFailed` records a failed assert of the source. */
  datatype State = State(
    blocks: seq<Block>, frontBlock: int, tailBlock: int, largest: int, maxBlock: int,
    p: ProducerPc, c: ConsumerPc,
    enqueued: seq<T>, dequeued: seq<T>, emptySeen: bool, peak: int, assertFailed: bool)

  datatype Memory = NoMemoryLeft | Fresh(bytes: seq<T>)

  /** `Produce(m)` and `Consume` run one atomic step of a call in progress; `m` is what the
      allocator answers if the step allocates. */
  datatype Action =
    | BeginEnqueue(v: T, mayAlloc: bool)
    | Produce(m: Memory)
    | BeginDequeue(peek: bool)
    | Consume

  // ---------------------------------------------------------------- steps

  /** (i + 1) & sizeMask; the bit operation is justified by `MaskIsWrap`. */
  function Inc(i: int, size: int): int { if i + 1 == size then 0 else i + 1 }

  function NewBlockSize(s: State): int {
    if s.largest >= s.maxBlock then s.largest else s.largest * 2
  }

  predicate IsBlock(s: State, b: int) { 0 <= b < |s.blocks| }

  /** A pointer the thread is about to follow, and an index into that block's data. */
  predicate IsSlot(s: State, b: int, i: int) { IsBlock(s, b) && 0 <= i < |s.blocks[b].data| }

  function WithBlock(s: State, b: int, blk: Block): State
    requires IsBlock(s, b)
  {
    s.(blocks := s.blocks[b := blk])
  }

  /** The pointer the producer's next step follows is a block (no wild access). */
  predicate ProducerSafe(s: State) {
    match s.p
    case PLocalFront(_, _, tb) => IsBlock(s, tb)
    case PTail(_, _, tb, _) => IsBlock(s, tb)
    case PFront(_, _, tb, _) => IsBlock(s, tb)
    case PWrite(_, tb, bt) => IsSlot(s, tb, bt)
    case PPublish(_, tb, _) => IsBlock(s, tb)
    case PNext(_, _, tb) => IsBlock(s, tb)
    case PNextAgain(_, tb) => IsBlock(s, tb)
    case PNextFront(_, nb) => IsBlock(s, nb)
    case PNextTail(_, nb, _) => IsBlock(s, nb)
    case PNextWrite(_, nb, nt) => IsSlot(s, nb, nt)
    case PNextPublish(_, nb, _) => IsBlock(s, nb)
    case PAlloc(_, tb) => IsBlock(s, tb)
    case PLink(_, tb, _) => IsBlock(s, tb)
    case _ => true
  }

  predicate ConsumerSafe(s: State) {
    match s.c
    case CLocalTail(_, fb) => IsBlock(s, fb)
    case CFront(_, fb, _) => IsBlock(s, fb)
    case CTail(_, fb, _) => IsBlock(s, fb)
    case CRead(_, fb, bf) => IsSlot(s, fb, bf)
    case CStore(fb, _, _) => IsBlock(s, fb)
    case CTailAgain(_, fb) => IsBlock(s, fb)
    case CFrontAgain(_, fb, _) => IsBlock(s, fb)
    case CNext(_, fb) => IsBlock(s, fb)
    case CNextFront(_, nb) => IsBlock(s, nb)
    case CNextTail(_, nb, _) => IsBlock(s, nb)
    case CPeekNext(nb, nf) => IsSlot(s, nb, nf)
    case _ => true
  }

  /** One step of inner_enqueue. */
  function ProducerStep(s: State, m: Memory): State
    requires ProducerSafe(s)
  {
    match s.p
    case PIdle(_) => s
    case PTailBlock(v, al) => s.(p := PLocalFront(v, al, s.tailBlock))
    case PLocalFront(v, al, tb) => s.(p := PTail(v, al, tb, s.blocks[tb].localFront))
    case PTail(v, al, tb, bf) =>
      var b := s.blocks[tb];
      if Inc(b.tail, |b.data|) != bf then s.(p := PWrite(v, tb, b.tail))
      else s.(p := PFront(v, al, tb, b.tail))
    case PFront(v, al, tb, bt) =>
      var b := s.blocks[tb];
      var s1 := WithBlock(s, tb, b.(localFront := b.front));
      if Inc(bt, |b.data|) != b.front then s1.(p := PWrite(v, tb, bt)) else s1.(p := PNext(v, al, tb))
    case PWrite(v, tb, bt) =>
      var b := s.blocks[tb];
      WithBlock(s, tb, b.(data := b.data[bt := v])).(p := PPublish(v, tb, bt))
    case PPublish(v, tb, bt) =>
      var b := s.blocks[tb];
      WithBlock(s, tb, b.(tail := Inc(bt, |b.data|))).(p := PIdle(Stored), enqueued := s.enqueued + [v])
    case PNext(v, al, tb) => s.(p := PFrontBlock(v, al, tb, s.blocks[tb].next))
    case PFrontBlock(v, al, tb, nx) =>
      if nx != s.frontBlock then s.(p := PNextAgain(v, tb))
      else if al then s.(p := PAlloc(v, tb))
      else s.(p := PIdle(NoRoom))
    case PNextAgain(v, tb) => s.(p := PNextFront(v, s.blocks[tb].next))
    case PNextFront(v, nb) =>
      var b := s.blocks[nb];
      WithBlock(s, nb, b.(localFront := b.front)).(p := PNextTail(v, nb, b.front))
    case PNextTail(v, nb, nf) =>
      var b := s.blocks[nb];
      WithBlock(s, nb, b.(localFront := nf)).(p := PNextWrite(v, nb, b.tail),
                                              assertFailed := s.assertFailed || nf != b.tail)
    case PNextWrite(v, nb, nt) =>
      var b := s.blocks[nb];
      WithBlock(s, nb, b.(data := b.data[nt := v])).(p := PNextPublish(v, nb, nt))
    case PNextPublish(v, nb, nt) =>
      var b := s.blocks[nb];
      WithBlock(s, nb, b.(tail := Inc(nt, |b.data|))).(p := PSetTail(v, nb))
    case PAlloc(v, tb) =>
      if m.NoMemoryLeft? || |m.bytes| != NewBlockSize(s) || |m.bytes| == 0 then s.(p := PIdle(NoMemory))
      else
        var nb := Block(m.bytes[0 := v], 0, 1, 0, 1, s.blocks[tb].next);
        s.(blocks := s.blocks + [nb], largest := NewBlockSize(s), p := PLink(v, tb, |s.blocks|))
    case PLink(v, tb, nb) => WithBlock(s, tb, s.blocks[tb].(next := nb)).(p := PSetTail(v, nb))
    case PSetTail(v, nb) => s.(tailBlock := nb, p := PIdle(Stored), enqueued := s.enqueued + [v])
  }

  /** One step of try_dequeue (pop only drops the value) or of peek. */
  function ConsumerStep(s: State): State
    requires ConsumerSafe(s)
  {
    match s.c
    case CIdle(_) => s
    case CFrontBlock(peek) => s.(c := CLocalTail(peek, s.frontBlock))
    case CLocalTail(peek, fb) => s.(c := CFront(peek, fb, s.blocks[fb].localTail))
    case CFront(peek, fb, bt) =>
      var b := s.blocks[fb];
      if b.front != bt then s.(c := CRead(peek, fb, b.front)) else s.(c := CTail(peek, fb, b.front))
    case CTail(peek, fb, bf) =>
      var b := s.blocks[fb];
      var s1 := WithBlock(s, fb, b.(localTail := b.tail));
      if bf != b.tail then s1.(c := CRead(peek, fb, bf)) else s1.(c := CTailBlock(peek, fb))
    case CRead(peek, fb, bf) =>
      var v := s.blocks[fb].data[bf];
      if peek then s.(c := CIdle(Seen(v))) else s.(c := CStore(fb, bf, v))
    case CStore(fb, bf, v) =>
      var b := s.blocks[fb];
      WithBlock(s, fb, b.(front := Inc(bf, |b.data|))).(c := CIdle(Got(v)), dequeued := s.dequeued + [v])
    case CTailBlock(peek, fb) =>
      if fb != s.tailBlock then s.(c := CFrontBlockAgain(peek)) else s.(c := CIdle(Nothing))
    case CFrontBlockAgain(peek) => s.(c := CTailAgain(peek, s.frontBlock))
    case CTailAgain(peek, fb) =>
      var b := s.blocks[fb];
      WithBlock(s, fb, b.(localTail := b.tail)).(c := CFrontAgain(peek, fb, b.tail))
    case CFrontAgain(peek, fb, bt) =>
      var b := s.blocks[fb];
      if b.front != bt then s.(c := CRead(peek, fb, b.front)) else s.(c := CNext(peek, fb))
    case CNext(peek, fb) => s.(c := CNextFront(peek, s.blocks[fb].next))
    case CNextFront(peek, nb) => s.(c := CNextTail(peek, nb, s.blocks[nb].front))
    case CNextTail(peek, nb, nf) =>
      var b := s.blocks[nb];
      var failed := s.assertFailed || nf == b.tail;
      if peek then s.(c := CPeekNext(nb, nf), assertFailed := failed)
      else WithBlock(s, nb, b.(localTail := b.tail)).(c := CSetFront(nb, nf), assertFailed := failed)
    case CSetFront(nb, nf) => s.(frontBlock := nb, c := CRead(false, nb, nf))
    case CPeekNext(nb, nf) => s.(c := CIdle(Seen(s.blocks[nb].data[nf])))
  }

  /** The number of elements put in and not yet handed out. */
  function Held(s: State): nat {
    if |s.dequeued| <= |s.enqueued| then |s.enqueued| - |s.dequeued| else 0
  }

  /** The two observers; they never influence a step. */
  function Observe(s: State, beginP: bool, beginC: bool): State {
    var n := Held(s);
    s.(emptySeen := (!beginC && s.emptySeen) || |s.enqueued| == |s.dequeued|,
       peak := if beginP || s.peak < n then n else s.peak)
  }

  /** One action; an action that is not possible leaves the state alone. */
  function Step(s: State, a: Action): State {
    match a
    case BeginEnqueue(v, al) =>
      if s.p.PIdle? then Observe(s.(p := PTailBlock(v, al)), true, false) else s
    case Produce(m) => if ProducerSafe(s) then Observe(ProducerStep(s, m), false, false) else s
    case BeginDequeue(peek) =>
      if s.c.CIdle? then Observe(s.(c := CFrontBlock(peek)), false, true) else s
    case Consume => if ConsumerSafe(s) then Observe(ConsumerStep(s), false, false) else s
  }

  /** The state after a schedule. */
  function Run(s: State, schedule: seq<Action>): State
    decreases |schedule|
  {
    if schedule == [] then s else Step(Run(s, schedule[..|schedule| - 1]), schedule[|schedule| - 1])
  }

  // ---------------------------------------------------------------- the invariant

  /** Number of slots from index i round to index j. */
  function Gap(i: int, j: int, size: int): int { if i <= j then j - i else j + size - i }

  /** localFront, front and tail follow one another round the buffer with a spare slot, and
      localTail lies between front and tail. */
  predicate BlockOk(b: Block) {
    var n := |b.data|;
    && 2 <= n && 0 <= b.front < n && 0 <= b.tail < n && 0 <= b.localFront < n && 0 <= b.localTail < n
    && Gap(b.localFront, b.tail, n) == Gap(b.localFront, b.front, n) + Gap(b.front, b.tail, n)
    && Gap(b.front, b.localTail, n) <= Gap(b.front, b.tail, n)
  }

  /** The elements of a block, oldest first. */
  function Elems(b: Block): seq<T> {
    if 0 <= b.front <= b.tail <= |b.data| then b.data[b.front..b.tail]
    else if 0 <= b.tail < b.front <= |b.data| then b.data[b.front..] + b.data[..b.tail]
    else []
  }

  predicate Full(b: Block) { Gap(b.front, b.tail, |b.data|) == |b.data| - 1 }

  ghost predicate BlocksOk(blocks: seq<Block>, base: int) {
    forall b | 0 <= b < |blocks| :: BlockOk(blocks[b]) && base <= |blocks[b].data|
  }

  /** The elements of the blocks ring[i], ..., ring[j - 1], in queue order. */
  ghost function Flatten(blocks: seq<Block>, ring: seq<int>, i: int, j: int): seq<T>
    requires 0 <= i
    decreases j - i
  {
    if i < j && i < |ring| then
      (if 0 <= ring[i] < |blocks| then Elems(blocks[ring[i]]) else []) + Flatten(blocks, ring, i + 1, j)
    else []
  }

  function Next(i: int, n: int): int { if i + 1 == n then 0 else i + 1 }

  predicate Linked(blocks: seq<Block>, ring: seq<int>, i: int) {
    0 <= i < |ring| && 0 <= ring[i] < |blocks| && blocks[ring[i]].next == ring[Next(i, |ring|)]
  }

  /** `ring` lists the blocks in `next` order from the front block; the first k hold the queue,
      the k-th is the tail block, the others are spare. */
  ghost predicate RingOk(blocks: seq<Block>, fb: int, tb: int, ring: seq<int>, k: int) {
    && 1 <= k <= |ring|
    && (forall i | 0 <= i < |ring| :: 0 <= ring[i] < |blocks|)
    && (forall i | 0 <= i < |ring| :: Linked(blocks, ring, i))
    && (forall i, j | 0 <= i < j < |ring| :: ring[i] != ring[j])
    && ring[0] == fb && ring[k - 1] == tb
  }

  /** Blocks strictly between front and tail are full, the tail block (if it is not the front
      block) is not empty, and spare blocks are empty, except the one the producer has just
      `filled` and is about to make the tail block: what this asks of the i-th block. */
  predicate Loaded(b: Block, i: int, k: int, filled: bool) {
    && (0 < i < k - 1 ==> Full(b))
    && (0 < i == k - 1 ==> b.front != b.tail)
    && (k <= i && !(filled && i == k) ==> b.front == b.tail)
  }

  ghost predicate LoadOk(blocks: seq<Block>, ring: seq<int>, k: int, filled: bool) {
    forall i | 0 <= i < |ring| :: 0 <= ring[i] < |blocks| && Loaded(blocks[ring[i]], i, k, filled)
  }

  /** The size every block has at least, and the number of elements the constructor promised. */
  datatype Promise = Promise(base: int, maxSize: int)

  /** The tail block was seen full: unless the consumer reads from it, it still is, and the
      queue held at least its capacity at some instant of this call. */
  predicate Blocked(t: Block, k: int, peak: int) {
    (1 < k ==> Full(t)) && |t.data| - 1 <= peak
  }

  /** The next block is the first spare one. */
  predicate Spare(blocks: seq<Block>, ring: seq<int>, k: int, nb: int) {
    0 <= k < |ring| && nb == ring[k] && 0 <= nb < |blocks|
  }

  /** What the producer knows at each program counter. */
  ghost predicate ProducerOk(p: ProducerPc, blocks: seq<Block>, tail: int, peak: int,
                                ring: seq<int>, k: int, pr: Promise) {
    && 0 <= tail < |blocks|
    && var t := blocks[tail];
    match p
    case PIdle(r) => r == NoRoom ==> pr.maxSize <= peak
    case PTailBlock(_, _) => true
    case PLocalFront(_, _, tb) => tb == tail
    case PTail(_, _, tb, bf) => tb == tail && bf == t.localFront
    case PFront(_, _, tb, bt) => tb == tail && bt == t.tail
    case PWrite(_, tb, bt) => tb == tail && bt == t.tail && Inc(bt, |t.data|) != t.localFront
    case PPublish(v, tb, bt) =>
      && tb == tail && bt == t.tail && Inc(bt, |t.data|) != t.localFront && 0 <= bt < |t.data|
      && t.data[bt] == v
    case PNext(_, _, tb) => tb == tail && Blocked(t, k, peak)
    case PFrontBlock(_, _, tb, nx) => tb == tail && Blocked(t, k, peak) && nx == t.next
    case PNextAgain(_, tb) => tb == tail && Blocked(t, k, peak) && k < |ring|
    case PNextFront(_, nb) => Blocked(t, k, peak) && Spare(blocks, ring, k, nb)
    case PNextTail(_, nb, nf) =>
      Blocked(t, k, peak) && Spare(blocks, ring, k, nb) && nf == blocks[nb].front == blocks[nb].localFront
    case PNextWrite(_, nb, nt) =>
      Blocked(t, k, peak) && Spare(blocks, ring, k, nb) && nt == blocks[nb].tail == blocks[nb].localFront
    case PNextPublish(v, nb, nt) =>
      && Blocked(t, k, peak) && Spare(blocks, ring, k, nb) && nt == blocks[nb].tail == blocks[nb].localFront
      && 0 <= nt < |blocks[nb].data| && blocks[nb].data[nt] == v
    case PAlloc(_, tb) => tb == tail && Blocked(t, k, peak) && pr.maxSize <= peak
    case PLink(v, tb, nb) =>
      && tb == tail && Blocked(t, k, peak) && pr.maxSize <= peak && 0 <= nb < |blocks| && nb !in ring
      && blocks[nb].next == t.next && Elems(blocks[nb]) == [v]
    case PSetTail(v, nb) =>
      Blocked(t, k, peak) && Spare(blocks, ring, k, nb) && Elems(blocks[nb]) == [v]
  }

  /** The front block is exhausted and the block after it is the next one of the queue. */
  predicate Exhausted(f: Block, blocks: seq<Block>, ring: seq<int>, k: int, nb: int) {
    1 < k <= |ring| && f.front == f.tail && nb == ring[1] && 0 <= nb < |blocks|
  }

  /** What the consumer knows at each program counter. */
  ghost predicate ConsumerOk(c: ConsumerPc, blocks: seq<Block>, front: int, emptySeen: bool,
                                ring: seq<int>, k: int) {
    && 0 <= front < |blocks|
    && var f := blocks[front];
    match c
    case CIdle(r) => r.Nothing? ==> emptySeen
    case CFrontBlock(_) => true
    case CLocalTail(_, fb) => fb == front
    case CFront(_, fb, bt) => fb == front && bt == f.localTail
    case CTail(_, fb, bf) => fb == front && bf == f.front
    case CRead(_, fb, bf) => fb == front && bf == f.front && f.front != f.tail && f.front != f.localTail
    case CStore(fb, bf, v) =>
      && fb == front && bf == f.front && f.front != f.tail && f.front != f.localTail
      && 0 <= bf < |f.data| && v == f.data[bf]
    case CTailBlock(_, fb) => fb == front && (k == 1 ==> emptySeen)
    case CFrontBlockAgain(_) => 1 < k
    case CTailAgain(_, fb) => fb == front && 1 < k
    case CFrontAgain(_, fb, bt) => fb == front && 1 < k && bt == f.tail == f.localTail
    case CNext(_, fb) => fb == front && 1 < k && f.front == f.tail
    case CNextFront(_, nb) => Exhausted(f, blocks, ring, k, nb)
    case CNextTail(_, nb, nf) => Exhausted(f, blocks, ring, k, nb) && nf == blocks[nb].front
    case CSetFront(nb, nf) =>
      Exhausted(f, blocks, ring, k, nb) && nf == blocks[nb].front && nf != blocks[nb].localTail
    case CPeekNext(nb, nf) => Exhausted(f, blocks, ring, k, nb) && nf == blocks[nb].front
  }

  /** Enough capacity for `maxSize` elements wherever the spare space happens to be. */
  predicate Roomy(largest: int, count: int, pr: Promise) {
    && 2 <= pr.base <= largest && 1 <= count
    && (pr.maxSize <= pr.base - 1 || pr.maxSize <= (count - 1) * (pr.base - 1))
  }

  ghost predicate Inv(s: State, ring: seq<int>, k: int, pr: Promise) {
    && BlocksOk(s.blocks, pr.base)
    && RingOk(s.blocks, s.frontBlock, s.tailBlock, ring, k)
    && LoadOk(s.blocks, ring, k, s.p.PSetTail?)
    && s.enqueued == s.dequeued + Flatten(s.blocks, ring, 0, k)
    && ProducerOk(s.p, s.blocks, s.tailBlock, s.peak, ring, k, pr)
    && ConsumerOk(s.c, s.blocks, s.frontBlock, s.emptySeen, ring, k)
    && Roomy(s.largest, |ring|, pr)
    && !s.assertFailed
  }

  // ---------------------------------------------------------------- the steps keep it

  /** Flatten looks only at the blocks of its range, and of those only at their elements. */
  lemma {:induction false} FlattenFrame(blocks: seq<Block>, blocks': seq<Block>, ring: seq<int>, ring': seq<int>,
      i: int, j: int, d: int)
    requires 0 <= i && 0 <= i + d && j <= |ring| && j + d <= |ring'|
    requires forall x | i <= x < j :: ring[x] == ring'[x + d] && 0 <= ring[x] < |blocks| && ring[x] < |blocks'|
                                      && Elems(blocks[ring[x]]) == Elems(blocks'[ring[x]])
    ensures Flatten(blocks, ring, i, j) == Flatten(blocks', ring', i + d, j + d)
    decreases j - i
  {
    hide Elems;
    if i < j {
      var b, i' := ring[i], i + d;
      assert b == ring'[i'] && Elems(blocks[b]) == Elems(blocks'[b]);
      FlattenFrame(blocks, blocks', ring, ring', i + 1, j, d);
      assert Flatten(blocks, ring, i, j) == Elems(blocks[b]) + Flatten(blocks, ring, i + 1, j);
      assert Flatten(blocks', ring', i', j + d) == Elems(blocks'[b]) + Flatten(blocks', ring', i' + 1, j + d);
    }
  }

  /** Adding a block at the tail adds its elements at the end. */
  lemma {:induction false} FlattenSnoc(blocks: seq<Block>, ring: seq<int>, i: int, j: int)
    requires 0 <= i <= j < |ring| && 0 <= ring[j] < |blocks|
    ensures Flatten(blocks, ring, i, j + 1) == Flatten(blocks, ring, i, j) + Elems(blocks[ring[j]])
    decreases j - i
  {
    hide Elems;
    if i < j {
      FlattenSnoc(blocks, ring, i + 1, j);
    } else {
      assert Flatten(blocks, ring, i, j) == [] == Flatten(blocks, ring, i + 1, j + 1);
    }
  }

  lemma FlattenNone(blocks: seq<Block>, ring: seq<int>)
    ensures Flatten(blocks, ring, 0, 0) == []
  {
  }

  /** The number of elements of a well-formed block. */
  lemma ElemsLength(b: Block)
    requires BlockOk(b)
    ensures |Elems(b)| == Gap(b.front, b.tail, |b.data|)
  {
  }

  lemma TimesStep(n: int, m: int)
    ensures n * m == (n - 1) * m + m
  {
  }

  /** A chain of full blocks holds at least their capacity. */
  lemma {:induction false} FullChain(blocks: seq<Block>, ring: seq<int>, i: int, j: int, base: int)
    requires BlocksOk(blocks, base) && 1 <= base && 0 <= i <= j <= |ring|
    requires forall x | i <= x < j :: 0 <= ring[x] < |blocks| && Full(blocks[ring[x]])
    ensures (j - i) * (base - 1) <= |Flatten(blocks, ring, i, j)|
    decreases j - i
  {
    hide Elems, BlockOk;
    if i < j {
      FullChain(blocks, ring, i + 1, j, base);
      ElemsLength(blocks[ring[i]]);
      TimesStep(j - i, base - 1);
    }
  }

  /** Producer steps that write no block. */
  lemma ProducerReads(s: State, ring: seq<int>, k: int, pr: Promise, m: Memory)
    requires Inv(s, ring, k, pr) && ProducerSafe(s)
    requires s.p.PIdle? || s.p.PTailBlock? || s.p.PLocalFront? || s.p.PTail? || s.p.PNext?
    ensures Inv(Observe(ProducerStep(s, m), false, false), ring, k, pr)
  {
    hide BlocksOk, RingOk, LoadOk, Roomy, Flatten, BlockOk, Gap, Full, Elems;
  }

  /** Replacing one block of the ring by one with the same link touches no other one. */
  lemma OthersSame(blocks: seq<Block>, fb: int, tb: int, ring: seq<int>, k: int, j: int, blk: Block)
    requires RingOk(blocks, fb, tb, ring, k) && 0 <= j < |ring| && blk.next == blocks[ring[j]].next
    ensures var blocks' := blocks[ring[j] := blk];
            && RingOk(blocks', fb, tb, ring, k) && blocks'[ring[j]] == blk
            && (forall i | 0 <= i < |ring| && i != j :: blocks'[ring[i]] == blocks[ring[i]])
            && (forall i | 0 <= i < |ring| :: 0 <= ring[i] < |blocks|)
            && (forall i | 0 <= i < |ring| && i != j :: ring[i] != ring[j])
  {
    var blocks' := blocks[ring[j] := blk];
    forall i | 0 <= i < |ring| ensures Linked(blocks', ring, i) { assert Linked(blocks, ring, i); }
  }

  lemma LoadReplace(blocks: seq<Block>, blocks': seq<Block>, ring: seq<int>, k: int, filled: bool, filled': bool,
      j: int)
    requires LoadOk(blocks, ring, k, filled) && |blocks| <= |blocks'| && 0 <= j < |ring| && (filled ==> filled')
    requires forall i | 0 <= i < |ring| && i != j :: blocks'[ring[i]] == blocks[ring[i]]
    requires Loaded(blocks'[ring[j]], j, k, filled')
    ensures LoadOk(blocks', ring, k, filled')
  {
    hide Full;
  }

  /** Replacing one block of the ring by one with the same link that is equally full. */
  lemma RingKeeps(blocks: seq<Block>, b: int, blk: Block, fb: int, tb: int, ring: seq<int>, k: int, filled: bool,
      base: int)
    requires BlocksOk(blocks, base) && RingOk(blocks, fb, tb, ring, k) && LoadOk(blocks, ring, k, filled)
    requires 0 <= b < |blocks| && BlockOk(blk) && blk.next == blocks[b].next && |blk.data| == |blocks[b].data|
    requires blk.front == blocks[b].front && blk.tail == blocks[b].tail
    requires Elems(blk) == Elems(blocks[b])
    ensures var blocks' := blocks[b := blk];
            && BlocksOk(blocks', base) && RingOk(blocks', fb, tb, ring, k) && LoadOk(blocks', ring, k, filled)
            && Flatten(blocks', ring, 0, k) == Flatten(blocks, ring, 0, k)
  {
    hide Elems, Flatten, BlockOk, RingOk, LoadOk;
    SameLinks(blocks, b, blk, fb, tb, ring, k);
    SameLoad(blocks, b, blk, ring, k, filled);
    SameContents(blocks, b, blk, fb, tb, ring, k);
  }

  lemma SameContents(blocks: seq<Block>, b: int, blk: Block, fb: int, tb: int, ring: seq<int>, k: int)
    requires RingOk(blocks, fb, tb, ring, k) && 0 <= b < |blocks| && Elems(blk) == Elems(blocks[b])
    ensures Flatten(blocks[b := blk], ring, 0, k) == Flatten(blocks, ring, 0, k)
  {
    hide Elems, Flatten, Linked;
    FlattenFrame(blocks, blocks[b := blk], ring, ring, 0, k, 0);
  }

  lemma SameLoad(blocks: seq<Block>, b: int, blk: Block, ring: seq<int>, k: int, filled: bool)
    requires LoadOk(blocks, ring, k, filled) && 0 <= b < |blocks| && |blk.data| == |blocks[b].data|
    requires blk.front == blocks[b].front && blk.tail == blocks[b].tail
    ensures LoadOk(blocks[b := blk], ring, k, filled)
  {
  }

  lemma SameLinks(blocks: seq<Block>, b: int, blk: Block, fb: int, tb: int, ring: seq<int>, k: int)
    requires RingOk(blocks, fb, tb, ring, k) && 0 <= b < |blocks| && blk.next == blocks[b].next
    ensures RingOk(blocks[b := blk], fb, tb, ring, k)
  {
    var blocks' := blocks[b := blk];
    forall i | 0 <= i < |ring| ensures Linked(blocks', ring, i) { assert Linked(blocks, ring, i); }
  }

  /** What the consumer knows survives a producer step that leaves the front block's first
      element, and the front index of the block after it, alone. */
  lemma ConsumerKeeps(c: ConsumerPc, blocks: seq<Block>, blocks': seq<Block>, front: int,
                      seen: bool, seen': bool, ring: seq<int>, ring': seq<int>, k: int, k': int)
    requires ConsumerOk(c, blocks, front, seen, ring, k) && (seen ==> seen')
    requires |blocks| <= |blocks'| && 1 <= k <= k' <= |ring'|
    requires blocks'[front].front == blocks[front].front && blocks'[front].localTail == blocks[front].localTail
    requires 1 < k ==> blocks'[front].tail == blocks[front].tail
    requires blocks[front].front != blocks[front].tail ==>
               && blocks'[front].front != blocks'[front].tail && |blocks'[front].data| == |blocks[front].data|
               && (0 <= blocks[front].front < |blocks[front].data| ==>
                     blocks'[front].data[blocks[front].front] == blocks[front].data[blocks[front].front])
    requires 1 < k <= |ring| ==> ring'[1] == ring[1]
    requires 1 < k <= |ring| && 0 <= ring[1] < |blocks| ==>
               && blocks'[ring[1]].front == blocks[ring[1]].front
               && blocks'[ring[1]].localTail == blocks[ring[1]].localTail
    ensures ConsumerOk(c, blocks', front, seen', ring', k')
  {
  }

  /** The parts of the invariant most steps need. */
  lemma Ends(s: State, ring: seq<int>, k: int, pr: Promise)
    requires Inv(s, ring, k, pr)
    ensures 1 <= k <= |ring| && ring[0] == s.frontBlock && ring[k - 1] == s.tailBlock
    ensures 0 <= s.frontBlock < |s.blocks| && BlockOk(s.blocks[s.frontBlock])
    ensures 0 <= s.tailBlock < |s.blocks| && BlockOk(s.blocks[s.tailBlock])
    ensures pr.base <= |s.blocks[s.tailBlock].data|
    ensures 1 < k ==> s.frontBlock != s.tailBlock && 0 <= ring[1] < |s.blocks| && BlockOk(s.blocks[ring[1]])
    ensures k < |ring| ==> 0 <= ring[k] < |s.blocks| && BlockOk(s.blocks[ring[k]])
    ensures k < |ring| ==> ring[k] != s.tailBlock && ring[k] != s.frontBlock && (1 < k ==> ring[k] != ring[1])
    ensures k < |ring| && !s.p.PSetTail? ==> s.blocks[ring[k]].front == s.blocks[ring[k]].tail
  {
    hide Elems, Gap, BlockOk, ProducerOk, ConsumerOk, Linked, Full;
  }

  /** The tail block's link leads to the front block exactly when there is no spare block. */
  lemma TailLink(s: State, ring: seq<int>, k: int, pr: Promise)
    requires Inv(s, ring, k, pr) && 0 <= s.tailBlock < |s.blocks|
    ensures k < |ring| ==> s.blocks[s.tailBlock].next == ring[k]
    ensures k < |ring| <==> s.blocks[s.tailBlock].next != s.frontBlock
  {
    hide Elems, Gap, BlockOk, Full, LoadOk, BlocksOk, ProducerOk, ConsumerOk;
    assert Linked(s.blocks, ring, k - 1);
  }

  /** Writing the slot at `tail` changes no element. */
  lemma WriteSlot(b: Block, v: T)
    requires BlockOk(b)
    ensures var b' := b.(data := b.data[b.tail := v]); BlockOk(b') && Elems(b') == Elems(b)
  {
  }

  /** Advancing `tail` over a written slot appends the element. */
  lemma PublishSlot(b: Block, v: T)
    requires BlockOk(b) && b.data[b.tail] == v && Inc(b.tail, |b.data|) != b.localFront
    ensures var b' := b.(tail := Inc(b.tail, |b.data|));
            BlockOk(b') && Elems(b') == Elems(b) + [v] && b'.front != b'.tail
  {
  }

  /** A full tail block means the queue holds at least that block's capacity. */
  lemma FullTail(s: State, ring: seq<int>, k: int, pr: Promise)
    requires Inv(s, ring, k, pr) && 0 <= s.tailBlock < |s.blocks| && Full(s.blocks[s.tailBlock])
    ensures |s.blocks[s.tailBlock].data| - 1 <= |s.enqueued| - |s.dequeued|
  {
    hide BlocksOk, RingOk, LoadOk, Roomy, ProducerOk, ConsumerOk, Flatten, Elems;
    Ends(s, ring, k, pr);
    ElemsLength(s.blocks[s.tailBlock]);
    FlattenSnoc(s.blocks, ring, 0, k - 1);
  }

  /** Refreshing the cached front index: if the block is still full, the queue holds that much. */
  lemma ProducerLoadsFront(s: State, ring: seq<int>, k: int, pr: Promise, m: Memory)
    requires Inv(s, ring, k, pr) && ProducerSafe(s) && s.p.PFront?
    ensures Inv(Observe(ProducerStep(s, m), false, false), ring, k, pr)
  {
    hide BlocksOk, RingOk, LoadOk, Flatten, Roomy;
    Ends(s, ring, k, pr);
    var s', b := Observe(ProducerStep(s, m), false, false), s.tailBlock;
    var t := s.blocks[b];
    RingKeeps(s.blocks, b, t.(localFront := t.front), s.frontBlock, b, ring, k, false, pr.base);
    hide Elems;
    if Full(t) { FullTail(s, ring, k, pr); }
    ConsumerKeeps(s.c, s.blocks, s'.blocks, s.frontBlock, s.emptySeen, s'.emptySeen, ring, ring, k, k);
    hide ConsumerOk;
  }

  lemma ProducerWrites(s: State, ring: seq<int>, k: int, pr: Promise, m: Memory)
    requires Inv(s, ring, k, pr) && ProducerSafe(s) && s.p.PWrite?
    ensures Inv(Observe(ProducerStep(s, m), false, false), ring, k, pr)
  {
    hide BlocksOk, RingOk, LoadOk, Flatten, Roomy, Elems;
    Ends(s, ring, k, pr);
    var s', b := Observe(ProducerStep(s, m), false, false), s.tailBlock;
    var t := s.blocks[b];
    WriteSlot(t, s.p.v);
    RingKeeps(s.blocks, b, s'.blocks[b], s.frontBlock, b, ring, k, false, pr.base);
    ConsumerKeeps(s.c, s.blocks, s'.blocks, s.frontBlock, s.emptySeen, s'.emptySeen, ring, ring, k, k);
    hide ConsumerOk;
  }

  /** Advancing the tail of the tail block appends to the queue. */
  lemma RingAppend(blocks: seq<Block>, v: T, fb: int, tb: int, ring: seq<int>, k: int, base: int)
    requires BlocksOk(blocks, base) && RingOk(blocks, fb, tb, ring, k) && LoadOk(blocks, ring, k, false)
    requires 0 <= tb < |blocks|
    requires var t := blocks[tb]; BlockOk(t) && t.data[t.tail] == v && Inc(t.tail, |t.data|) != t.localFront
    ensures var t := blocks[tb]; var blocks' := blocks[tb := t.(tail := Inc(t.tail, |t.data|))];
            && BlocksOk(blocks', base) && RingOk(blocks', fb, tb, ring, k) && LoadOk(blocks', ring, k, false)
            && Flatten(blocks', ring, 0, k) == Flatten(blocks, ring, 0, k) + [v]
  {
    hide Elems, Flatten, LoadOk, Gap, Full;
    var t := blocks[tb];
    var blk := t.(tail := Inc(t.tail, |t.data|));
    PublishSlot(t, v);
    hide BlockOk, Inc;
    OthersSame(blocks, fb, tb, ring, k, k - 1, blk);
    LoadReplace(blocks, blocks[tb := blk], ring, k, false, false, k - 1);
    hide RingOk, Linked;
    AppendContents(blocks, ring, k, blk, v);
  }

  lemma AppendContents(blocks: seq<Block>, ring: seq<int>, k: int, blk: Block, v: T)
    requires 1 <= k <= |ring| && forall i | 0 <= i < k :: 0 <= ring[i] < |blocks|
    requires forall i | 0 <= i < k - 1 :: ring[i] != ring[k - 1]
    requires Elems(blk) == Elems(blocks[ring[k - 1]]) + [v]
    ensures Flatten(blocks[ring[k - 1] := blk], ring, 0, k) == Flatten(blocks, ring, 0, k) + [v]
  {
    hide Elems, Flatten;
    var blocks' := blocks[ring[k - 1] := blk];
    FlattenFrame(blocks, blocks', ring, ring, 0, k - 1, 0);
    FlattenSnoc(blocks, ring, 0, k - 1);
    FlattenSnoc(blocks', ring, 0, k - 1);
  }

  /** The store of `tail` is where an element enters the queue. */
  lemma ProducerPublishes(s: State, ring: seq<int>, k: int, pr: Promise, m: Memory)
    requires Inv(s, ring, k, pr) && ProducerSafe(s) && s.p.PPublish?
    ensures Inv(Observe(ProducerStep(s, m), false, false), ring, k, pr)
  {
    hide BlocksOk, RingOk, LoadOk, Flatten, Roomy, Elems;
    Ends(s, ring, k, pr);
    var s', b := Observe(ProducerStep(s, m), false, false), s.tailBlock;
    PublishSlot(s.blocks[b], s.p.v);
    RingAppend(s.blocks, s.p.v, s.frontBlock, b, ring, k, pr.base);
    ConsumerKeeps(s.c, s.blocks, s'.blocks, s.frontBlock, s.emptySeen, s'.emptySeen, ring, ring, k, k);
    hide ConsumerOk;
  }

  /** A ring without spare blocks holds at least what the constructor promised. */
  lemma NoSpare(s: State, ring: seq<int>, k: int, pr: Promise)
    requires Inv(s, ring, k, pr) && k == |ring| && Roomy(s.largest, |ring|, pr)
    requires 0 <= s.tailBlock < |s.blocks| && Blocked(s.blocks[s.tailBlock], k, s.peak)
    ensures pr.maxSize <= s.peak || pr.maxSize <= |Flatten(s.blocks, ring, 0, k)|
  {
    hide Elems, BlockOk, ProducerOk, ConsumerOk, Linked;
    if pr.maxSize > pr.base - 1 {
      FullChain(s.blocks, ring, 1, k, pr.base);
    }
  }

  /** Comparing the next block with the front block decides between reusing and growing. */
  lemma ProducerCompares(s: State, ring: seq<int>, k: int, pr: Promise, m: Memory)
    requires Inv(s, ring, k, pr) && ProducerSafe(s) && s.p.PFrontBlock?
    ensures Inv(Observe(ProducerStep(s, m), false, false), ring, k, pr)
  {
    hide BlocksOk, RingOk, LoadOk, Flatten, Roomy, Elems, Full, BlockOk;
    Ends(s, ring, k, pr);
    TailLink(s, ring, k, pr);
    if k == |ring| { NoSpare(s, ring, k, pr); }
  }

  lemma ProducerFollows(s: State, ring: seq<int>, k: int, pr: Promise, m: Memory)
    requires Inv(s, ring, k, pr) && ProducerSafe(s) && s.p.PNextAgain?
    ensures Inv(Observe(ProducerStep(s, m), false, false), ring, k, pr)
  {
    hide BlocksOk, RingOk, LoadOk, Flatten, Roomy, Elems, Full, BlockOk;
    Ends(s, ring, k, pr);
    TailLink(s, ring, k, pr);
  }

  /** Refreshing the cached front index of the next block, with the assert that it is empty. */
  lemma ProducerEntersNext(s: State, ring: seq<int>, k: int, pr: Promise, m: Memory)
    requires Inv(s, ring, k, pr) && ProducerSafe(s) && (s.p.PNextFront? || s.p.PNextTail?)
    ensures Inv(Observe(ProducerStep(s, m), false, false), ring, k, pr)
  {
    hide BlocksOk, RingOk, LoadOk, Flatten, Roomy, Full;
    Ends(s, ring, k, pr);
    var s', b := Observe(ProducerStep(s, m), false, false), s.p.nb;
    RingKeeps(s.blocks, b, s'.blocks[b], s.frontBlock, s.tailBlock, ring, k, false, pr.base);
    hide Elems;
    ConsumerKeeps(s.c, s.blocks, s'.blocks, s.frontBlock, s.emptySeen, s'.emptySeen, ring, ring, k, k);
    hide ConsumerOk;
  }

  lemma ProducerWritesNext(s: State, ring: seq<int>, k: int, pr: Promise, m: Memory)
    requires Inv(s, ring, k, pr) && ProducerSafe(s) && s.p.PNextWrite?
    ensures Inv(Observe(ProducerStep(s, m), false, false), ring, k, pr)
  {
    hide BlocksOk, RingOk, LoadOk, Flatten, Roomy, Elems, Full;
    Ends(s, ring, k, pr);
    var s', b := Observe(ProducerStep(s, m), false, false), s.p.nb;
    WriteSlot(s.blocks[b], s.p.v);
    RingKeeps(s.blocks, b, s'.blocks[b], s.frontBlock, s.tailBlock, ring, k, false, pr.base);
    ConsumerKeeps(s.c, s.blocks, s'.blocks, s.frontBlock, s.emptySeen, s'.emptySeen, ring, ring, k, k);
    hide ConsumerOk;
  }

  /** Filling the first spare block is invisible until it becomes the tail block. */
  lemma RingFill(blocks: seq<Block>, blk: Block, fb: int, tb: int, ring: seq<int>, k: int, base: int)
    requires BlocksOk(blocks, base) && RingOk(blocks, fb, tb, ring, k) && LoadOk(blocks, ring, k, false)
    requires k < |ring| && 0 <= ring[k] < |blocks|
    requires var t := blocks[ring[k]]; BlockOk(blk) && |blk.data| == |t.data| && blk.next == t.next
    ensures var blocks' := blocks[ring[k] := blk];
            && BlocksOk(blocks', base) && RingOk(blocks', fb, tb, ring, k) && LoadOk(blocks', ring, k, true)
            && Flatten(blocks', ring, 0, k) == Flatten(blocks, ring, 0, k)
  {
    hide Elems, BlockOk, Gap, Full, Flatten;
    var blocks' := blocks[ring[k] := blk];
    OthersSame(blocks, fb, tb, ring, k, k, blk);
    LoadReplace(blocks, blocks', ring, k, false, true, k);
    hide RingOk, Linked, LoadOk;
    FlattenFrame(blocks, blocks', ring, ring, 0, k, 0);
  }

  lemma ProducerPublishesNext(s: State, ring: seq<int>, k: int, pr: Promise, m: Memory)
    requires Inv(s, ring, k, pr) && ProducerSafe(s) && s.p.PNextPublish?
    ensures Inv(Observe(ProducerStep(s, m), false, false), ring, k, pr)
  {
    hide BlocksOk, RingOk, LoadOk, Flatten, Roomy, Full, Elems;
    Ends(s, ring, k, pr);
    var s', b := Observe(ProducerStep(s, m), false, false), s.p.nb;
    ElemsLength(s.blocks[b]);
    PublishSlot(s.blocks[b], s.p.v);
    RingFill(s.blocks, s'.blocks[b], s.frontBlock, s.tailBlock, ring, k, pr.base);
    ConsumerKeeps(s.c, s.blocks, s'.blocks, s.frontBlock, s.emptySeen, s'.emptySeen, ring, ring, k, k);
    hide ConsumerOk, BlockOk, Gap;
  }

  /** A block the allocator has just handed out is not in the ring yet. */
  lemma RingGrow(blocks: seq<Block>, blk: Block, fb: int, tb: int, ring: seq<int>, k: int, base: int)
    requires BlocksOk(blocks, base) && RingOk(blocks, fb, tb, ring, k) && LoadOk(blocks, ring, k, false)
    requires BlockOk(blk) && base <= |blk.data|
    ensures var blocks' := blocks + [blk];
            && BlocksOk(blocks', base) && RingOk(blocks', fb, tb, ring, k) && LoadOk(blocks', ring, k, false)
            && Flatten(blocks', ring, 0, k) == Flatten(blocks, ring, 0, k) && |blocks| !in ring
  {
    hide Elems, BlockOk, Full, Gap, Flatten, Loaded;
    var blocks' := blocks + [blk];
    GrowLinks(blocks, blk, fb, tb, ring, k);
    GrowLoad(blocks, blk, ring, k, false);
    GrowContents(blocks, blk, fb, tb, ring, k);
    hide LoadOk, Linked;
  }

  lemma GrowContents(blocks: seq<Block>, blk: Block, fb: int, tb: int, ring: seq<int>, k: int)
    requires RingOk(blocks, fb, tb, ring, k)
    ensures Flatten(blocks + [blk], ring, 0, k) == Flatten(blocks, ring, 0, k)
  {
    hide Elems, Flatten, Linked;
    FlattenFrame(blocks, blocks + [blk], ring, ring, 0, k, 0);
  }

  lemma GrowLinks(blocks: seq<Block>, blk: Block, fb: int, tb: int, ring: seq<int>, k: int)
    requires RingOk(blocks, fb, tb, ring, k)
    ensures RingOk(blocks + [blk], fb, tb, ring, k)
  {
    var blocks' := blocks + [blk];
    forall i | 0 <= i < |ring| ensures Linked(blocks', ring, i) { assert Linked(blocks, ring, i); }
  }

  lemma GrowLoad(blocks: seq<Block>, blk: Block, ring: seq<int>, k: int, filled: bool)
    requires LoadOk(blocks, ring, k, filled)
    ensures LoadOk(blocks + [blk], ring, k, filled)
  {
    hide Loaded;
  }

  lemma ProducerAllocates(s: State, ring: seq<int>, k: int, pr: Promise, m: Memory)
    requires Inv(s, ring, k, pr) && ProducerSafe(s) && s.p.PAlloc?
    ensures Inv(Observe(ProducerStep(s, m), false, false), ring, k, pr)
  {
    hide BlocksOk, RingOk, LoadOk, Flatten;
    Ends(s, ring, k, pr);
    var s' := Observe(ProducerStep(s, m), false, false);
    if |s'.blocks| > |s.blocks| {
      var blk := s'.blocks[|s.blocks|];
      assert s'.blocks == s.blocks + [blk] && BlockOk(blk) && Elems(blk) == [s.p.v];
      hide Elems, BlockOk, Full, Gap;
      RingGrow(s.blocks, blk, s.frontBlock, s.tailBlock, ring, k, pr.base);
      ConsumerKeeps(s.c, s.blocks, s'.blocks, s.frontBlock, s.emptySeen, s'.emptySeen, ring, ring, k, k);
      hide ConsumerOk;
    }
  }

  /** The ring with block nb inserted behind its first k blocks. */
  function Insert(ring: seq<int>, k: int, nb: int): seq<int>
    requires 0 <= k <= |ring|
  {
    ring[..k] + [nb] + ring[k..]
  }

  lemma InsertLinks(blocks: seq<Block>, nb: int, fb: int, tb: int, ring: seq<int>, k: int)
    requires RingOk(blocks, fb, tb, ring, k)
    requires 0 <= nb < |blocks| && nb !in ring && 0 <= tb < |blocks| && blocks[nb].next == blocks[tb].next
    ensures RingOk(blocks[tb := blocks[tb].(next := nb)], fb, tb, Insert(ring, k, nb), k)
  {
    var blocks', ring' := blocks[tb := blocks[tb].(next := nb)], Insert(ring, k, nb);
    forall i | 0 <= i < |ring'| ensures Linked(blocks', ring', i) {
      assert Linked(blocks, ring, if i < k then i else i - 1);
    }
  }

  /** Linking a filled block behind the tail block makes it the first spare block. */
  lemma RingInsert(blocks: seq<Block>, nb: int, fb: int, tb: int, ring: seq<int>, k: int, base: int)
    requires BlocksOk(blocks, base) && RingOk(blocks, fb, tb, ring, k) && LoadOk(blocks, ring, k, false)
    requires 0 <= nb < |blocks| && nb !in ring && 0 <= tb < |blocks| && blocks[nb].next == blocks[tb].next
    ensures var blocks' := blocks[tb := blocks[tb].(next := nb)]; var ring' := Insert(ring, k, nb);
            && BlocksOk(blocks', base) && RingOk(blocks', fb, tb, ring', k) && LoadOk(blocks', ring', k, true)
            && Flatten(blocks', ring', 0, k) == Flatten(blocks, ring, 0, k) && ring'[k] == nb && |ring'| == |ring| + 1
  {
    InsertLinks(blocks, nb, fb, tb, ring, k);
    InsertLoad(blocks, nb, tb, ring, k);
    InsertContents(blocks, nb, tb, ring, k);
    hide Elems, Flatten, LoadOk, RingOk, Full, Gap;
  }

  lemma InsertLoad(blocks: seq<Block>, nb: int, tb: int, ring: seq<int>, k: int)
    requires LoadOk(blocks, ring, k, false) && 0 <= nb < |blocks| && 0 <= tb < |blocks| && 1 <= k <= |ring|
    ensures LoadOk(blocks[tb := blocks[tb].(next := nb)], Insert(ring, k, nb), k, true)
  {
    var blocks', ring' := blocks[tb := blocks[tb].(next := nb)], Insert(ring, k, nb);
    forall i | 0 <= i < |ring'| ensures 0 <= ring'[i] < |blocks| && Loaded(blocks'[ring'[i]], i, k, true) {
      if i != k {
        var j := if i < k then i else i - 1;
        assert ring'[i] == ring[j] && Loaded(blocks[ring[j]], j, k, false);
      }
    }
  }

  lemma InsertContents(blocks: seq<Block>, nb: int, tb: int, ring: seq<int>, k: int)
    requires 0 <= tb < |blocks| && 1 <= k <= |ring| && forall i | 0 <= i < k :: 0 <= ring[i] < |blocks|
    ensures Flatten(blocks[tb := blocks[tb].(next := nb)], Insert(ring, k, nb), 0, k) == Flatten(blocks, ring, 0, k)
  {
    var blocks', ring' := blocks[tb := blocks[tb].(next := nb)], Insert(ring, k, nb);
    assert Elems(blocks'[tb]) == Elems(blocks[tb]);
    hide Elems, Flatten;
    FlattenFrame(blocks, blocks', ring, ring', 0, k, 0);
  }

  lemma ProducerLinks(s: State, ring: seq<int>, k: int, pr: Promise, m: Memory)
    requires Inv(s, ring, k, pr) && ProducerSafe(s) && s.p.PLink?
    ensures Inv(Observe(ProducerStep(s, m), false, false), Insert(ring, k, s.p.nb), k, pr)
  {
    hide BlocksOk, RingOk, LoadOk, Flatten;
    Ends(s, ring, k, pr);
    var s', ring' := Observe(ProducerStep(s, m), false, false), Insert(ring, k, s.p.nb);
    RingInsert(s.blocks, s.p.nb, s.frontBlock, s.tailBlock, ring, k, pr.base);
    assert Elems(s'.blocks[s.p.nb]) == [s.p.v];
    hide Elems, BlockOk;
    TimesStep(|ring|, pr.base - 1);
    assert Roomy(s'.largest, |ring'|, pr);
    hide Roomy;
    assert 1 < k ==> ring'[1] == ring[1];
    ConsumerKeeps(s.c, s.blocks, s'.blocks, s.frontBlock, s.emptySeen, s'.emptySeen, ring, ring', k, k);
    hide ConsumerOk;
  }

  lemma AdvanceLoad(blocks: seq<Block>, fb: int, tb: int, ring: seq<int>, k: int)
    requires RingOk(blocks, fb, tb, ring, k) && LoadOk(blocks, ring, k, true) && k < |ring|
    requires 1 < k ==> 0 <= tb < |blocks| && Full(blocks[tb])
    requires 0 <= ring[k] < |blocks| && blocks[ring[k]].front != blocks[ring[k]].tail
    ensures RingOk(blocks, fb, ring[k], ring, k + 1) && LoadOk(blocks, ring, k + 1, false)
  {
    hide Full, Linked;
  }

  /** The store of `tailBlock` lets the consumer reach the filled block. */
  lemma ProducerMovesTail(s: State, ring: seq<int>, k: int, pr: Promise, m: Memory)
    requires Inv(s, ring, k, pr) && ProducerSafe(s) && s.p.PSetTail?
    ensures Inv(Observe(ProducerStep(s, m), false, false), ring, k + 1, pr)
  {
    hide BlocksOk, RingOk, LoadOk, Flatten, Roomy, Full, Elems;
    Ends(s, ring, k, pr);
    var s', b := Observe(ProducerStep(s, m), false, false), s.p.nb;
    FlattenSnoc(s.blocks, ring, 0, k);
    ElemsLength(s.blocks[b]);
    AdvanceLoad(s.blocks, s.frontBlock, s.tailBlock, ring, k);
    hide BlockOk, Gap;
    ConsumerKeeps(s.c, s.blocks, s'.blocks, s.frontBlock, s.emptySeen, s'.emptySeen, ring, ring, k, k + 1);
    hide ConsumerOk;
  }

  // ---- the consumer

  /** What the producer knows survives a consumer step that leaves the tail block and the first
      spare block alone, except for the cached tail index and, in the only block, the front. */
  lemma ProducerKeeps(p: ProducerPc, blocks: seq<Block>, blocks': seq<Block>, tail: int,
                      peak: int, peak': int, ring: seq<int>, ring': seq<int>, k: int, k': int, pr: Promise)
    requires ProducerOk(p, blocks, tail, peak, ring, k, pr) && peak <= peak'
    requires 0 <= k' <= k && |blocks| == |blocks'| && |ring'| == |ring| && (k < |ring| ==> k' < |ring'|)
    requires var t, t' := blocks[tail], blocks'[tail];
             && t.tail == t'.tail && t.localFront == t'.localFront && t.data == t'.data && t.next == t'.next
             && (1 < k' ==> t.front == t'.front)
    requires 0 <= k < |ring| ==> ring'[k'] == ring[k]
    requires 0 <= k < |ring| && 0 <= ring[k] < |blocks| ==>
               var b, b' := blocks[ring[k]], blocks'[ring[k]];
               b.front == b'.front && b.tail == b'.tail && b.localFront == b'.localFront && b.data == b'.data
    requires p.PLink? && 0 <= p.nb < |blocks| && p.nb !in ring ==> p.nb !in ring' && blocks'[p.nb] == blocks[p.nb]
    ensures ProducerOk(p, blocks', tail, peak', ring', k', pr)
  {
  }

  lemma ProducerStays(s: State, ring: seq<int>, k: int, pr: Promise)
    requires Inv(s, ring, k, pr)
    ensures forall peak | s.peak <= peak :: ProducerOk(s.p, s.blocks, s.tailBlock, peak, ring, k, pr)
  {
    hide BlocksOk, RingOk, LoadOk, Flatten, Elems, Full, Roomy;
  }

  /** Consumer steps that write nothing. */
  lemma ConsumerReads(s: State, ring: seq<int>, k: int, pr: Promise)
    requires Inv(s, ring, k, pr) && ConsumerSafe(s)
    requires s.c.CIdle? || s.c.CFrontBlock? || s.c.CLocalTail? || s.c.CFrontBlockAgain? || s.c.CFrontAgain?
             || s.c.CNextFront? || s.c.CRead? || s.c.CPeekNext?
    ensures Inv(Observe(ConsumerStep(s), false, false), ring, k, pr)
  {
    hide BlocksOk, RingOk, LoadOk, Flatten, Elems, Full, Roomy;
    Ends(s, ring, k, pr);
    ProducerStays(s, ring, k, pr);
    hide ProducerOk;
  }

  /** Comparing the front index with the cached tail index. */
  lemma ConsumerCompares(s: State, ring: seq<int>, k: int, pr: Promise)
    requires Inv(s, ring, k, pr) && ConsumerSafe(s) && s.c.CFront?
    ensures Inv(Observe(ConsumerStep(s), false, false), ring, k, pr)
  {
    hide BlocksOk, RingOk, LoadOk, Flatten, Elems, Full, Roomy;
    Ends(s, ring, k, pr);
    ProducerStays(s, ring, k, pr);
    hide ProducerOk;
  }

  /** The second look at the tail block: finding it unmoved proves the queue was empty. */
  lemma ConsumerLooksAtTail(s: State, ring: seq<int>, k: int, pr: Promise)
    requires Inv(s, ring, k, pr) && ConsumerSafe(s) && s.c.CTailBlock?
    ensures Inv(Observe(ConsumerStep(s), false, false), ring, k, pr)
  {
    hide BlocksOk, RingOk, LoadOk, Flatten, Elems, Full, Roomy;
    Ends(s, ring, k, pr);
    ProducerStays(s, ring, k, pr);
    hide ProducerOk;
  }

  /** Following the front block's link to the next block of the queue. */
  lemma ConsumerFollows(s: State, ring: seq<int>, k: int, pr: Promise)
    requires Inv(s, ring, k, pr) && ConsumerSafe(s) && s.c.CNext?
    ensures Inv(Observe(ConsumerStep(s), false, false), ring, k, pr)
  {
    hide LoadOk, Flatten, Elems, Full, Roomy, BlockOk;
    Ends(s, ring, k, pr);
    ProducerStays(s, ring, k, pr);
    assert Linked(s.blocks, ring, 0);
    hide ProducerOk, RingOk, BlocksOk;
  }

  lemma OnlyBlock(s: State, ring: seq<int>, k: int, pr: Promise)
    requires Inv(s, ring, k, pr) && k == 1 && 0 <= s.frontBlock < |s.blocks|
    requires s.blocks[s.frontBlock].front == s.blocks[s.frontBlock].tail
    ensures s.enqueued == s.dequeued
  {
    hide BlocksOk, RingOk, LoadOk, Roomy, ProducerOk, ConsumerOk, Flatten, Elems, Full;
    Ends(s, ring, k, pr);
    ElemsLength(s.blocks[s.frontBlock]);
    FlattenSnoc(s.blocks, ring, 0, 0);
    FlattenNone(s.blocks, ring);
  }

  /** Refreshing the cached tail index of the front block. */
  lemma ConsumerLoadsTail(s: State, ring: seq<int>, k: int, pr: Promise)
    requires Inv(s, ring, k, pr) && ConsumerSafe(s) && s.c.CTail?
    ensures Inv(Observe(ConsumerStep(s), false, false), ring, k, pr)
  {
    hide BlocksOk, RingOk, LoadOk, Flatten, Roomy, Full;
    Ends(s, ring, k, pr);
    var s', b := Observe(ConsumerStep(s), false, false), s.frontBlock;
    var f := s.blocks[b];
    RingKeeps(s.blocks, b, f.(localTail := f.tail), b, s.tailBlock, ring, k, s.p.PSetTail?, pr.base);
    hide Elems, BlockOk, Gap;
    if k == 1 && f.front == f.tail { OnlyBlock(s, ring, k, pr); }
    ProducerKeeps(s.p, s.blocks, s'.blocks, s.tailBlock, s.peak, s'.peak, ring, ring, k, k, pr);
    hide ProducerOk;
  }

  lemma ConsumerLoadsTailAgain(s: State, ring: seq<int>, k: int, pr: Promise)
    requires Inv(s, ring, k, pr) && ConsumerSafe(s) && s.c.CTailAgain?
    ensures Inv(Observe(ConsumerStep(s), false, false), ring, k, pr)
  {
    hide BlocksOk, RingOk, LoadOk, Flatten, Roomy, Full;
    Ends(s, ring, k, pr);
    var s', b := Observe(ConsumerStep(s), false, false), s.frontBlock;
    var f := s.blocks[b];
    RingKeeps(s.blocks, b, f.(localTail := f.tail), b, s.tailBlock, ring, k, s.p.PSetTail?, pr.base);
    hide Elems, BlockOk, Gap;
    ProducerKeeps(s.p, s.blocks, s'.blocks, s.tailBlock, s.peak, s'.peak, ring, ring, k, k, pr);
    hide ProducerOk;
  }

  /** Entering the next block: the assert that it holds an element never fails. */
  lemma ConsumerEntersNext(s: State, ring: seq<int>, k: int, pr: Promise)
    requires Inv(s, ring, k, pr) && ConsumerSafe(s) && s.c.CNextTail?
    ensures Inv(Observe(ConsumerStep(s), false, false), ring, k, pr)
  {
    hide BlocksOk, RingOk, LoadOk, Flatten, Roomy, Full;
    Ends(s, ring, k, pr);
    NotEmptyNext(s, ring, k, pr);
    var s', b := Observe(ConsumerStep(s), false, false), s.c.nb;
    var nx := s.blocks[b];
    if s.c.peek {
      ProducerStays(s, ring, k, pr);
    } else {
      RingKeeps(s.blocks, b, nx.(localTail := nx.tail), s.frontBlock, s.tailBlock, ring, k, s.p.PSetTail?, pr.base);
      hide Elems;
      ProducerKeeps(s.p, s.blocks, s'.blocks, s.tailBlock, s.peak, s'.peak, ring, ring, k, k, pr);
    }
    hide ProducerOk;
  }

  /** A block the producer has made the tail block is never empty before it is the front block. */
  lemma NotEmptyNext(s: State, ring: seq<int>, k: int, pr: Promise)
    requires Inv(s, ring, k, pr) && 1 < k
    ensures 1 < |ring| && 0 <= ring[1] < |s.blocks| && s.blocks[ring[1]].front != s.blocks[ring[1]].tail
    ensures s.p.PLink? ==> s.p.nb != ring[1] && s.p.nb != s.frontBlock
  {
    hide Elems;
  }

  lemma TakeElems(b: Block)
    requires 0 <= b.front < |b.data| && 0 <= b.tail < |b.data| && b.front != b.tail
    ensures Elems(b) == [b.data[b.front]] + Elems(b.(front := Inc(b.front, |b.data|)))
  {
    var d, f, t := b.data, b.front, b.tail;
    var x, r := [d[f]], Elems(b.(front := Inc(f, |d|)));
    if f < t {
      assert r == d[f + 1..t] && d[f..t] == x + r;
    } else if f + 1 == |d| {
      assert r == d[..t] && d[f..] == x;
    } else {
      var rest := d[f + 1..];
      assert r == rest + d[..t] && d[f..] == x + rest;
      assert (x + rest) + d[..t] == x + (rest + d[..t]);
    }
  }

  /** The first element leaves when `front` moves over it. */
  lemma TakeSlot(b: Block)
    requires BlockOk(b) && b.front != b.tail && b.front != b.localTail
    ensures var b' := b.(front := Inc(b.front, |b.data|));
            BlockOk(b') && Elems(b) == [b.data[b.front]] + Elems(b')
  {
    TakeElems(b);
    hide Elems;
  }

  lemma RingTake(blocks: seq<Block>, fb: int, tb: int, ring: seq<int>, k: int, filled: bool, base: int)
    requires BlocksOk(blocks, base) && RingOk(blocks, fb, tb, ring, k) && LoadOk(blocks, ring, k, filled)
    requires 0 <= fb < |blocks| && BlockOk(blocks[fb])
    requires blocks[fb].front != blocks[fb].tail && blocks[fb].front != blocks[fb].localTail
    ensures var f := blocks[fb]; var blocks' := blocks[fb := f.(front := Inc(f.front, |f.data|))];
            && BlocksOk(blocks', base) && RingOk(blocks', fb, tb, ring, k) && LoadOk(blocks', ring, k, filled)
            && Flatten(blocks, ring, 0, k) == [f.data[f.front]] + Flatten(blocks', ring, 0, k)
  {
    hide Elems, Flatten, LoadOk, Gap, Full;
    var f := blocks[fb];
    var blk := f.(front := Inc(f.front, |f.data|));
    TakeSlot(f);
    assert Loaded(blk, 0, k, filled);
    hide BlockOk, Inc;
    OthersSame(blocks, fb, tb, ring, k, 0, blk);
    LoadReplace(blocks, blocks[fb := blk], ring, k, filled, filled, 0);
    hide RingOk, Linked;
    TakeContents(blocks, ring, k, blk, f.data[f.front]);
  }

  lemma TakeContents(blocks: seq<Block>, ring: seq<int>, k: int, blk: Block, v: T)
    requires 1 <= k <= |ring| && forall i | 0 <= i < k :: 0 <= ring[i] < |blocks|
    requires forall i | 0 < i < k :: ring[i] != ring[0]
    requires Elems(blocks[ring[0]]) == [v] + Elems(blk)
    ensures Flatten(blocks, ring, 0, k) == [v] + Flatten(blocks[ring[0] := blk], ring, 0, k)
  {
    hide Elems;
    FlattenFrame(blocks, blocks[ring[0] := blk], ring, ring, 1, k, 0);
  }

  /** The store of `front` is where an element leaves the queue, and it is the oldest one. */
  lemma ConsumerTakes(s: State, ring: seq<int>, k: int, pr: Promise)
    requires Inv(s, ring, k, pr) && ConsumerSafe(s) && s.c.CStore?
    ensures Inv(Observe(ConsumerStep(s), false, false), ring, k, pr)
  {
    hide BlocksOk, RingOk, LoadOk, Flatten, Roomy, Elems, Full;
    Ends(s, ring, k, pr);
    var s', b := Observe(ConsumerStep(s), false, false), s.frontBlock;
    RingTake(s.blocks, b, s.tailBlock, ring, k, s.p.PSetTail?, pr.base);
    ProducerKeeps(s.p, s.blocks, s'.blocks, s.tailBlock, s.peak, s'.peak, ring, ring, k, k, pr);
    hide ProducerOk;
  }

  /** The ring seen from the next block. */
  function Turn(ring: seq<int>): seq<int>
    requires ring != []
  {
    ring[1..] + [ring[0]]
  }

  lemma TurnLinks(blocks: seq<Block>, fb: int, tb: int, ring: seq<int>, k: int)
    requires RingOk(blocks, fb, tb, ring, k) && 1 < k
    ensures RingOk(blocks, ring[1], tb, Turn(ring), k - 1)
  {
    var ring' := Turn(ring);
    forall i | 0 <= i < |ring'| ensures Linked(blocks, ring', i) {
      assert Linked(blocks, ring, if i + 1 == |ring| then 0 else i + 1);
    }
  }

  lemma TurnLoad(blocks: seq<Block>, ring: seq<int>, k: int, filled: bool)
    requires LoadOk(blocks, ring, k, filled) && 1 < k <= |ring| && (filled ==> k < |ring|)
    requires 0 <= ring[0] < |blocks| && blocks[ring[0]].front == blocks[ring[0]].tail
    ensures LoadOk(blocks, Turn(ring), k - 1, filled)
    ensures Elems(blocks[ring[0]]) == []
    ensures Flatten(blocks, ring, 0, k) == Flatten(blocks, Turn(ring), 0, k - 1)
  {
    assert Elems(blocks[ring[0]]) == [];
    hide Elems, Gap, Full;
    FlattenFrame(blocks, blocks, ring, Turn(ring), 1, k, -1);
    TurnLoaded(blocks, ring, k, filled);
    hide LoadOk;
  }

  lemma TurnLoaded(blocks: seq<Block>, ring: seq<int>, k: int, filled: bool)
    requires LoadOk(blocks, ring, k, filled) && 1 < k <= |ring| && (filled ==> k < |ring|)
    requires 0 <= ring[0] < |blocks| && blocks[ring[0]].front == blocks[ring[0]].tail
    ensures LoadOk(blocks, Turn(ring), k - 1, filled)
  {
    hide Full;
    var ring' := Turn(ring);
    forall i | 0 <= i < |ring'| ensures 0 <= ring'[i] < |blocks| && Loaded(blocks[ring'[i]], i, k - 1, filled) {
      if i + 1 < |ring| { assert ring'[i] == ring[i + 1] && Loaded(blocks[ring[i + 1]], i + 1, k, filled); }
    }
  }

  /** The store of `frontBlock` gives the exhausted block back to the producer. */
  lemma ConsumerMovesFront(s: State, ring: seq<int>, k: int, pr: Promise)
    requires Inv(s, ring, k, pr) && ConsumerSafe(s) && s.c.CSetFront?
    ensures Inv(Observe(ConsumerStep(s), false, false), Turn(ring), k - 1, pr)
  {
    hide Elems, BlocksOk, RingOk, LoadOk, Flatten, Roomy, Full;
    Ends(s, ring, k, pr);
    NotEmptyNext(s, ring, k, pr);
    var s', ring' := Observe(ConsumerStep(s), false, false), Turn(ring);
    TurnLinks(s.blocks, s.frontBlock, s.tailBlock, ring, k);
    TurnLoad(s.blocks, ring, k, s.p.PSetTail?);
    hide BlockOk;
    ProducerKeeps(s.p, s.blocks, s'.blocks, s.tailBlock, s.peak, s'.peak, ring, ring', k, k - 1, pr);
    hide ProducerOk;
  }

  // ---------------------------------------------------------------- every step, every schedule

  lemma BeginKeeps(s: State, a: Action, ring: seq<int>, k: int, pr: Promise)
    requires Inv(s, ring, k, pr) && (a.BeginEnqueue? || a.BeginDequeue?)
    ensures Inv(Step(s, a), ring, k, pr)
  {
    hide BlocksOk, RingOk, LoadOk, Flatten, Roomy, Elems, Full, BlockOk;
    ProducerStays(s, ring, k, pr);
    Ends(s, ring, k, pr);
  }

  lemma ProduceKeeps(s: State, m: Memory, ring: seq<int>, k: int, pr: Promise) returns (ring': seq<int>, k': int)
    requires Inv(s, ring, k, pr) && ProducerSafe(s)
    ensures Inv(Observe(ProducerStep(s, m), false, false), ring', k', pr)
  {
    hide Inv, ProducerStep, Observe, ProducerSafe;
    ring', k' := ring, k;
    match s.p
    case PIdle(_) => ProducerReads(s, ring, k, pr, m);
    case PTailBlock(_, _) => ProducerReads(s, ring, k, pr, m);
    case PLocalFront(_, _, _) => ProducerReads(s, ring, k, pr, m);
    case PTail(_, _, _, _) => ProducerReads(s, ring, k, pr, m);
    case PFront(_, _, _, _) => ProducerLoadsFront(s, ring, k, pr, m);
    case PWrite(_, _, _) => ProducerWrites(s, ring, k, pr, m);
    case PPublish(_, _, _) => ProducerPublishes(s, ring, k, pr, m);
    case PNext(_, _, _) => ProducerReads(s, ring, k, pr, m);
    case PFrontBlock(_, _, _, _) => ProducerCompares(s, ring, k, pr, m);
    case PNextAgain(_, _) => ProducerFollows(s, ring, k, pr, m);
    case PNextFront(_, _) => ProducerEntersNext(s, ring, k, pr, m);
    case PNextTail(_, _, _) => ProducerEntersNext(s, ring, k, pr, m);
    case PNextWrite(_, _, _) => ProducerWritesNext(s, ring, k, pr, m);
    case PNextPublish(_, _, _) => ProducerPublishesNext(s, ring, k, pr, m);
    case PAlloc(_, _) => ProducerAllocates(s, ring, k, pr, m);
    case PLink(_, _, nb) =>
      Ends(s, ring, k, pr);
      ProducerLinks(s, ring, k, pr, m);
      ring' := Insert(ring, k, nb);
    case PSetTail(_, _) =>
      ProducerMovesTail(s, ring, k, pr, m);
      k' := k + 1;
  }

  lemma ConsumeKeeps(s: State, ring: seq<int>, k: int, pr: Promise) returns (ring': seq<int>, k': int)
    requires Inv(s, ring, k, pr) && ConsumerSafe(s)
    ensures Inv(Observe(ConsumerStep(s), false, false), ring', k', pr)
  {
    hide Inv, ConsumerStep, Observe, ConsumerSafe;
    ring', k' := ring, k;
    match s.c
    case CIdle(_) => ConsumerReads(s, ring, k, pr);
    case CFrontBlock(_) => ConsumerReads(s, ring, k, pr);
    case CLocalTail(_, _) => ConsumerReads(s, ring, k, pr);
    case CFront(_, _, _) => ConsumerCompares(s, ring, k, pr);
    case CTail(_, _, _) => ConsumerLoadsTail(s, ring, k, pr);
    case CRead(_, _, _) => ConsumerReads(s, ring, k, pr);
    case CStore(_, _, _) => ConsumerTakes(s, ring, k, pr);
    case CTailBlock(_, _) => ConsumerLooksAtTail(s, ring, k, pr);
    case CFrontBlockAgain(_) => ConsumerReads(s, ring, k, pr);
    case CTailAgain(_, _) => ConsumerLoadsTailAgain(s, ring, k, pr);
    case CFrontAgain(_, _, _) => ConsumerReads(s, ring, k, pr);
    case CNext(_, _) => ConsumerFollows(s, ring, k, pr);
    case CNextFront(_, _) => ConsumerReads(s, ring, k, pr);
    case CNextTail(_, _, _) => ConsumerEntersNext(s, ring, k, pr);
    case CSetFront(_, _) =>
      Ends(s, ring, k, pr);
      ConsumerMovesFront(s, ring, k, pr);
      ring', k' := Turn(ring), k - 1;
    case CPeekNext(_, _) => ConsumerReads(s, ring, k, pr);
  }

  lemma StepKeeps(s: State, a: Action, ring: seq<int>, k: int, pr: Promise) returns (ring': seq<int>, k': int)
    requires Inv(s, ring, k, pr)
    ensures Inv(Step(s, a), ring', k', pr)
  {
    ring', k' := ring, k;
    hide Inv, ConsumerStep, ProducerStep, Observe, ConsumerSafe, ProducerSafe;
    match a
    case BeginEnqueue(_, _) => BeginKeeps(s, a, ring, k, pr);
    case BeginDequeue(_) => BeginKeeps(s, a, ring, k, pr);
    case Produce(m) => if ProducerSafe(s) { ring', k' := ProduceKeeps(s, m, ring, k, pr); }
    case Consume => if ConsumerSafe(s) { ring', k' := ConsumeKeeps(s, ring, k, pr); }
  }

  lemma {:induction false} RunKeeps(s: State, schedule: seq<Action>, ring: seq<int>, k: int, pr: Promise)
    returns (ring': seq<int>, k': int)
    requires Inv(s, ring, k, pr)
    ensures Inv(Run(s, schedule), ring', k', pr)
    decreases |schedule|
  {
    hide Inv, Step;
    if schedule == [] {
      ring', k' := ring, k;
    } else {
      ring', k' := RunKeeps(s, schedule[..|schedule| - 1], ring, k, pr);
      ring', k' := StepKeeps(Run(s, schedule[..|schedule| - 1]), schedule[|schedule| - 1], ring', k', pr);
    }
  }

  // ---------------------------------------------------------------- construction

  /** The least power of two that is at least x. */
  predicate IsPow2(n: int) { n == 1 || (n > 1 && n % 2 == 0 && IsPow2(n / 2)) }

  function CeilToPow2(x: int): (r: int)
    ensures x <= r && 1 <= r && (1 < x ==> r < 2 * x)
  {
    if x <= 1 then 1 else 2 * CeilToPow2((x + 1) / 2)
  }

  /** Masking with a power of two less one is a wrap-around. */
  lemma MaskIsWrap(i: bv64, size: bv64)
    requires size & (size - 1) == 0 && i < size
    ensures (i + 1) & (size - 1) == if i + 1 == size then 0 else i + 1
  {
  }

  /** The size of the blocks the constructor makes, and how many of them. */
  function BaseSize(maxSize: int, maxBlock: int): int {
    var n := CeilToPow2(maxSize + 1);
    if n > maxBlock * 2 then maxBlock else n
  }

  function BlockCount(maxSize: int, maxBlock: int): int
    requires 2 <= maxBlock
  {
    if CeilToPow2(maxSize + 1) > maxBlock * 2 then (maxSize + maxBlock * 2 - 3) / (maxBlock - 1) else 1
  }

  predicate EmptyBlock(b: Block, size: int, next: int) {
    |b.data| == size && b.front == b.tail == b.localFront == b.localTail == 0 && b.next == next
  }

  /** A queue as the constructor leaves it: `BlockCount` empty blocks in a ring. */
  ghost predicate IsNew(s: State, maxSize: int, maxBlock: int) {
    && 0 < maxSize && 2 <= maxBlock && s.maxBlock == maxBlock
    && |s.blocks| == BlockCount(maxSize, maxBlock) && s.largest == BaseSize(maxSize, maxBlock)
    && (forall i | 0 <= i < |s.blocks| :: EmptyBlock(s.blocks[i], s.largest, Next(i, |s.blocks|)))
    && s.frontBlock == 0 && s.tailBlock == 0 && s.p == PIdle(NoCall) && s.c == CIdle(NoResult)
    && s.enqueued == [] && s.dequeued == [] && s.emptySeen && s.peak == 0 && !s.assertFailed
  }

  lemma DivisionBound(a: int, m: int)
    requires 0 < m
    ensures a - 2 * m < (a / m - 1) * m
  {
  }

  /** (number of blocks - 1) * (slots per block - 1) covers the promised size. */
  lemma CountCovers(maxSize: int, maxBlock: int)
    requires 0 < maxSize && 2 <= maxBlock
    ensures Roomy(BaseSize(maxSize, maxBlock), BlockCount(maxSize, maxBlock),
                  Promise(BaseSize(maxSize, maxBlock), maxSize))
  {
    if CeilToPow2(maxSize + 1) > maxBlock * 2 {
      DivisionBound(maxSize + maxBlock * 2 - 3, maxBlock - 1);
    }
  }

  lemma CountIsPositive(maxSize: int, maxBlock: int)
    requires 0 < maxSize && 2 <= maxBlock
    ensures 1 <= (maxSize + maxBlock * 2 - 3) / (maxBlock - 1)
  {
  }

  lemma OneIsNext()
    ensures Next(0, 1) == 0
  {
  }

  function Count(n: int): seq<int>
    requires 0 <= n
  {
    seq(n, i => i)
  }

  lemma NewInv(s: State, maxSize: int, maxBlock: int)
    requires IsNew(s, maxSize, maxBlock)
    ensures 0 < |s.blocks| && Inv(s, Count(|s.blocks|), 1, Promise(s.largest, maxSize))
  {
    CountCovers(maxSize, maxBlock);
    var ring := Count(|s.blocks|);
    hide Roomy, BlockCount, BaseSize;
    forall i | 0 <= i < |ring| ensures Linked(s.blocks, ring, i) {
      assert EmptyBlock(s.blocks[i], s.largest, Next(i, |s.blocks|));
    }
    FlattenSnoc(s.blocks, ring, 0, 0);
    FlattenNone(s.blocks, ring);
    assert Elems(s.blocks[0]) == [];
  }

  class ReaderWriterQueue {
    var st: State

    constructor (maxSize: int, maxBlock: int, junk: T)
      requires 0 < maxSize && 2 <= maxBlock && maxBlock == CeilToPow2(maxBlock)
      ensures IsNew(st, maxSize, maxBlock)
    {
      hide CeilToPow2, Next;
      var largest := CeilToPow2(maxSize + 1);
      var blocks: seq<Block>;
      OneIsNext();
      if largest > maxBlock * 2 {
        CountIsPositive(maxSize, maxBlock);
        var count := (maxSize + maxBlock * 2 - 3) / (maxBlock - 1);
        largest := maxBlock;
        blocks := MakeRing(count, largest, junk);
      } else {
        blocks := [Block(seq(largest, _ => junk), 0, 0, 0, 0, 0)];
      }
      st := State(blocks, 0, 0, largest, maxBlock, PIdle(NoCall), CIdle(NoResult), [], [], true, 0, false);
    }

    /** The constructor's loop: each new block is linked behind the last one and back to the first. */
    static method MakeRing(count: int, size: int, junk: T) returns (blocks: seq<Block>)
      requires 1 <= count && 0 <= size
      ensures |blocks| == count && forall j | 0 <= j < count :: EmptyBlock(blocks[j], size, Next(j, count))
    {
      blocks := [];
      var i := 0;
      while i != count
        invariant 0 <= i <= count && |blocks| == i
        invariant forall j | 0 <= j < i :: EmptyBlock(blocks[j], size, Next(j, i))
        decreases count - i
      {
        var block := Block(seq(size, _ => junk), 0, 0, 0, 0, 0);
        if i > 0 { blocks := blocks[i - 1 := blocks[i - 1].(next := i)]; }
        blocks := blocks + [block];
        i := i + 1;
      }
    }

    /** The two threads running under a schedule: at every instant the values handed out are the
        first ones put in, in order, no assert has failed and no thread follows a wild pointer. */
    method Play(schedule: seq<Action>, ghost maxSize: int, ghost maxBlock: int)
      requires IsNew(st, maxSize, maxBlock)
      modifies this
      ensures st == Run(old(st), schedule)
      ensures st.dequeued <= st.enqueued && !st.assertFailed && ProducerSafe(st) && ConsumerSafe(st)
    {
      var i := 0;
      while i < |schedule|
        invariant 0 <= i <= |schedule| && st == Run(old(st), schedule[..i])
      {
        assert schedule[..i + 1][..i] == schedule[..i];
        st := Step(st, schedule[i]);
        i := i + 1;
      }
      assert schedule[..i] == schedule;
      Fifo(old(st), schedule, maxSize, maxBlock);
    }
  }

  // ---------------------------------------------------------------- what holds in every run

  /** FIFO: what is handed out is what was put in first, in order, in any interleaving; the source's
      asserts hold, and every pointer followed is a block. */
  lemma Fifo(s0: State, schedule: seq<Action>, maxSize: int, maxBlock: int)
    requires IsNew(s0, maxSize, maxBlock)
    ensures var s := Run(s0, schedule);
            s.dequeued <= s.enqueued && !s.assertFailed && ProducerSafe(s) && ConsumerSafe(s)
  {
    NewInv(s0, maxSize, maxBlock);
    var pr := Promise(s0.largest, maxSize);
    var ring, k := RunKeeps(s0, schedule, Count(|s0.blocks|), 1, pr);
    InvSafe(Run(s0, schedule), ring, k, pr);
  }

  /** Nothing is lost: what was put in and not handed out lies in the blocks from the front block to
      the tail block, in order.  Of the others in the ring all are empty, those strictly between
      front and tail are full. */
  lemma RingHolds(s0: State, schedule: seq<Action>, maxSize: int, maxBlock: int) returns (ring: seq<int>, k: int)
    requires IsNew(s0, maxSize, maxBlock)
    ensures var s := Run(s0, schedule);
            && RingOk(s.blocks, s.frontBlock, s.tailBlock, ring, k) && LoadOk(s.blocks, ring, k, s.p.PSetTail?)
            && s.enqueued == s.dequeued + Flatten(s.blocks, ring, 0, k)
  {
    NewInv(s0, maxSize, maxBlock);
    ring, k := RunKeeps(s0, schedule, Count(|s0.blocks|), 1, Promise(s0.largest, maxSize));
  }

  lemma InvSafe(s: State, ring: seq<int>, k: int, pr: Promise)
    requires Inv(s, ring, k, pr)
    ensures s.dequeued <= s.enqueued && ProducerSafe(s) && ConsumerSafe(s)
  {
    hide Flatten, Elems, LoadOk, Roomy, Linked, BlocksOk;
    Ends(s, ring, k, pr);
  }

  /** Whether action `a` starts a call of the consumer (producer) in state s. */
  predicate BeginsDequeue(s: State, a: Action) { a.BeginDequeue? && s.c.CIdle? }
  predicate BeginsEnqueue(s: State, a: Action) { a.BeginEnqueue? && s.p.PIdle? }

  /** What `emptySeen` records really happened: at instant n, since when no dequeue call has
      begun, everything put in had been handed out. */
  lemma {:induction false} EmptyInstant(s0: State, schedule: seq<Action>) returns (n: int)
    requires |s0.dequeued| == |s0.enqueued| && Run(s0, schedule).emptySeen
    ensures 0 <= n <= |schedule|
    ensures |Run(s0, schedule[..n]).dequeued| == |Run(s0, schedule[..n]).enqueued|
    ensures forall j | n <= j < |schedule| :: !BeginsDequeue(Run(s0, schedule[..j]), schedule[j])
    decreases |schedule|
  {
    hide Step, BeginsDequeue, BeginsEnqueue;
    n := |schedule|;
    assert schedule[..n] == schedule;
    var s := Run(s0, schedule);
    if |s.dequeued| != |s.enqueued| {
      var before := schedule[..n - 1];
      NoNewEmpty(Run(s0, before), schedule[n - 1]);
      n := EmptyInstant(s0, before);
      assert forall j | 0 <= j <= |before| :: before[..j] == schedule[..j];
    }
  }

  lemma NoNewEmpty(s: State, a: Action)
    requires Step(s, a).emptySeen && |Step(s, a).dequeued| != |Step(s, a).enqueued|
    ensures s.emptySeen && !BeginsDequeue(s, a)
  {
  }

  lemma IdleStays(s: State, a: Action)
    ensures s.c.CIdle? && !BeginsDequeue(s, a) ==> Step(s, a).c == s.c
    ensures s.p.PIdle? && !BeginsEnqueue(s, a) ==> Step(s, a).p == s.p
    ensures BeginsDequeue(s, a) ==> !Step(s, a).c.CIdle?
    ensures BeginsEnqueue(s, a) ==> !Step(s, a).p.PIdle?
  {
    hide ProducerStep, ConsumerStep, ProducerSafe, ConsumerSafe;
    if a.Produce? && ProducerSafe(s) {
      ProducerOnlyAppends(s, a.m);
      if s.p.PIdle? { IdleProducer(s, a.m); }
    }
    if a.Consume? && ConsumerSafe(s) {
      ConsumerOnlyTakes(s);
      if s.c.CIdle? { IdleConsumer(s); }
    }
  }

  lemma IdleProducer(s: State, m: Memory)
    requires ProducerSafe(s) && s.p.PIdle?
    ensures ProducerStep(s, m) == s
  {
  }

  lemma IdleConsumer(s: State)
    requires ConsumerSafe(s) && s.c.CIdle?
    ensures ConsumerStep(s) == s
  {
  }

  /** A call is under way at instant n if it is at instant m and no call has begun in between. */
  lemma {:induction false} UnderWay(s0: State, schedule: seq<Action>, n: int, m: int)
    requires 0 <= n <= m <= |schedule|
    ensures (forall j | n <= j < m :: !BeginsDequeue(Run(s0, schedule[..j]), schedule[j])) ==>
              !Run(s0, schedule[..m]).c.CIdle? ==> !Run(s0, schedule[..n]).c.CIdle?
    ensures (forall j | n <= j < m :: !BeginsEnqueue(Run(s0, schedule[..j]), schedule[j])) ==>
              !Run(s0, schedule[..m]).p.PIdle? ==> !Run(s0, schedule[..n]).p.PIdle?
    decreases m - n
  {
    hide Step, BeginsDequeue, BeginsEnqueue;
    if n < m {
      UnderWay(s0, schedule, n, m - 1);
      RunNext(s0, schedule, m - 1);
      IdleStays(Run(s0, schedule[..m - 1]), schedule[m - 1]);
    }
  }

  lemma RunNext(s0: State, schedule: seq<Action>, n: int)
    requires 0 <= n < |schedule|
    ensures Run(s0, schedule[..n + 1]) == Step(Run(s0, schedule[..n]), schedule[n])
  {
    hide Step;
    assert schedule[..n + 1][..n] == schedule[..n];
  }

  /** The step by which the consumer's latest call returned without an element. */
  lemma {:induction false} DequeueReturns(s0: State, schedule: seq<Action>, m: int) returns (r: int)
    requires 0 <= m <= |schedule| && Run(s0, schedule[..m]).c == CIdle(Nothing) && s0.c != CIdle(Nothing)
    ensures 0 <= r < m && Run(s0, schedule[..r + 1]).c == CIdle(Nothing) && !Run(s0, schedule[..r]).c.CIdle?
    ensures forall j | r < j < m :: !BeginsDequeue(Run(s0, schedule[..j]), schedule[j])
    decreases m
  {
    hide Step, BeginsDequeue, BeginsEnqueue;
    RunNext(s0, schedule, m - 1);
    IdleStays(Run(s0, schedule[..m - 1]), schedule[m - 1]);
    r := m - 1;
    if Run(s0, schedule[..r]).c.CIdle? { r := DequeueReturns(s0, schedule, m - 1); }
  }

  lemma EmptyReturn(s: State, a: Action)
    requires !s.c.CIdle? && Step(s, a).c == CIdle(Nothing)
    ensures Step(s, a).dequeued == s.dequeued && Step(s, a).enqueued == s.enqueued && !BeginsDequeue(s, a)
    ensures Step(s, a).emptySeen ==> s.emptySeen || |s.dequeued| == |s.enqueued|
  {
    hide ProducerStep, ConsumerStep, ProducerSafe, ConsumerSafe;
    if a.Produce? && ProducerSafe(s) { ProducerOnlyAppends(s, a.m); }
    if a.Consume? && ConsumerSafe(s) { LeavesEmpty(s); }
  }

  lemma LeavesEmpty(s: State)
    requires ConsumerSafe(s) && !s.c.CIdle? && ConsumerStep(s).c == CIdle(Nothing)
    ensures ConsumerStep(s) == s.(c := CIdle(Nothing))
  {
  }

  /** try_dequeue returns false only if the queue was empty at some instant during that call: the
      call was under way then, and no other has begun since. */
  lemma DequeueFailsOnlyWhenEmpty(s0: State, schedule: seq<Action>, maxSize: int, maxBlock: int) returns (n: int)
    requires IsNew(s0, maxSize, maxBlock) && Run(s0, schedule).c == CIdle(Nothing)
    ensures 0 <= n <= |schedule|
    ensures Run(s0, schedule[..n]).dequeued == Run(s0, schedule[..n]).enqueued
    ensures !Run(s0, schedule[..n]).c.CIdle?
    ensures forall j | n <= j < |schedule| :: !BeginsDequeue(Run(s0, schedule[..j]), schedule[j])
  {
    hide Step, BeginsDequeue, BeginsEnqueue, Inv;
    assert schedule[..|schedule|] == schedule;
    var r := DequeueReturns(s0, schedule, |schedule|);
    var call := schedule[..r];
    RunNext(s0, schedule, r);
    EmptyReturn(Run(s0, call), schedule[r]);
    ReturnSeesEmpty(s0, schedule[..r + 1], maxSize, maxBlock);
    n := r;
    if |Run(s0, call).dequeued| != |Run(s0, call).enqueued| {
      n := EmptyInstant(s0, call);
      assert forall j | 0 <= j <= r :: call[..j] == schedule[..j];
    }
    UnderWay(s0, schedule, n, r);
    Fifo(s0, schedule[..n], maxSize, maxBlock);
  }

  lemma ReturnSeesEmpty(s0: State, schedule: seq<Action>, maxSize: int, maxBlock: int)
    requires IsNew(s0, maxSize, maxBlock) && Run(s0, schedule).c == CIdle(Nothing)
    ensures Run(s0, schedule).emptySeen
  {
    NewInv(s0, maxSize, maxBlock);
    var ring, k := RunKeeps(s0, schedule, Count(|s0.blocks|), 1, Promise(s0.largest, maxSize));
  }

  /** Likewise for `peak`: at instant n of the producer's latest call that many elements were in
      the queue, or `peak` still has its initial value. */
  lemma {:induction false} PeakInstant(s0: State, schedule: seq<Action>) returns (n: int)
    requires s0.peak == 0 && s0.dequeued == s0.enqueued == []
    ensures 0 <= n <= |schedule|
    ensures Run(s0, schedule).peak <= Held(Run(s0, schedule[..n]))
    ensures forall j | n <= j < |schedule| :: !BeginsEnqueue(Run(s0, schedule[..j]), schedule[j])
    decreases |schedule|
  {
    hide Step, BeginsDequeue, BeginsEnqueue;
    n := |schedule|;
    assert schedule[..n] == schedule;
    var s := Run(s0, schedule);
    if s.peak > Held(s) {
      var before := schedule[..n - 1];
      NoNewPeak(Run(s0, before), schedule[n - 1]);
      n := PeakInstant(s0, before);
      assert forall j | 0 <= j <= |before| :: before[..j] == schedule[..j];
    }
  }

  lemma ProducerOnlyAppends(s: State, m: Memory)
    requires ProducerSafe(s)
    ensures var s' := ProducerStep(s, m);
            s'.c == s.c && s'.dequeued == s.dequeued && s.enqueued <= s'.enqueued && s'.peak == s.peak
  {
  }

  lemma ConsumerOnlyTakes(s: State)
    requires ConsumerSafe(s)
    ensures var s' := ConsumerStep(s);
            s'.p == s.p && s'.enqueued == s.enqueued && s.dequeued <= s'.dequeued && s'.peak == s.peak
  {
  }

  lemma NoNewPeak(s: State, a: Action)
    requires Step(s, a).peak > Held(Step(s, a))
    ensures s.peak == Step(s, a).peak && !BeginsEnqueue(s, a)
  {
    hide ProducerStep, ConsumerStep, ProducerSafe, ConsumerSafe;
    if a.Produce? && ProducerSafe(s) { ProducerOnlyAppends(s, a.m); }
    if a.Consume? && ConsumerSafe(s) { ConsumerOnlyTakes(s); }
  }

  lemma PeakCovers(s: State, ring: seq<int>, k: int, pr: Promise)
    requires Inv(s, ring, k, pr)
    ensures s.p == PIdle(NoRoom) || s.p.PAlloc? ==> pr.maxSize <= s.peak
  {
    hide BlocksOk, RingOk, LoadOk, Flatten, ConsumerOk;
  }

  /** The step by which the producer's latest call returned without room. */
  lemma {:induction false} EnqueueReturns(s0: State, schedule: seq<Action>, m: int) returns (r: int)
    requires 0 <= m <= |schedule| && Run(s0, schedule[..m]).p == PIdle(NoRoom) && s0.p != PIdle(NoRoom)
    ensures 0 <= r < m && Run(s0, schedule[..r + 1]).p == PIdle(NoRoom) && !Run(s0, schedule[..r]).p.PIdle?
    ensures forall j | r < j < m :: !BeginsEnqueue(Run(s0, schedule[..j]), schedule[j])
    decreases m
  {
    hide Step, BeginsDequeue, BeginsEnqueue;
    RunNext(s0, schedule, m - 1);
    IdleStays(Run(s0, schedule[..m - 1]), schedule[m - 1]);
    r := m - 1;
    if Run(s0, schedule[..r]).p.PIdle? { r := EnqueueReturns(s0, schedule, m - 1); }
  }

  lemma FullReturn(s: State, a: Action)
    requires !s.p.PIdle? && Step(s, a).p == PIdle(NoRoom)
    ensures Held(Step(s, a)) == Held(s) && !BeginsEnqueue(s, a)
  {
    hide ProducerStep, ConsumerStep, ProducerSafe, ConsumerSafe;
    if a.Produce? && ProducerSafe(s) { LeavesFull(s, a.m); }
    if a.Consume? && ConsumerSafe(s) { ConsumerOnlyTakes(s); }
  }

  lemma LeavesFull(s: State, m: Memory)
    requires ProducerSafe(s) && !s.p.PIdle? && ProducerStep(s, m).p == PIdle(NoRoom)
    ensures ProducerStep(s, m) == s.(p := PIdle(NoRoom))
  {
  }

  /** A queue built for maxSize elements refuses an element (try_enqueue), or allocates
      (enqueue), only if it held at least maxSize elements at some instant during that call: the
      call was under way then, and no other has begun since. */
  lemma EnqueueFailsOnlyWhenFull(s0: State, schedule: seq<Action>, maxSize: int, maxBlock: int) returns (n: int)
    requires IsNew(s0, maxSize, maxBlock)
    requires var p := Run(s0, schedule).p; p == PIdle(NoRoom) || p.PAlloc?
    ensures 0 <= n <= |schedule|
    ensures maxSize <= Held(Run(s0, schedule[..n]))
    ensures !Run(s0, schedule[..n]).p.PIdle?
    ensures forall j | n <= j < |schedule| :: !BeginsEnqueue(Run(s0, schedule[..j]), schedule[j])
  {
    hide Step, Run, BeginsDequeue, BeginsEnqueue, Held;
    assert schedule[..|schedule|] == schedule;
    if Run(s0, schedule).p.PAlloc? {
      PeakReached(s0, schedule, maxSize, maxBlock);
      n := PeakInstant(s0, schedule);
      UnderWay(s0, schedule, n, |schedule|);
    } else {
      var r := EnqueueReturns(s0, schedule, |schedule|);
      var call := schedule[..r];
      RunNext(s0, schedule, r);
      FullReturn(Run(s0, call), schedule[r]);
      PeakReached(s0, schedule[..r + 1], maxSize, maxBlock);
      n := r;
      if Held(Run(s0, call)) < maxSize {
        NoNewPeak(Run(s0, call), schedule[r]);
        n := PeakInstant(s0, call);
        assert forall j | 0 <= j <= r :: call[..j] == schedule[..j];
      }
      UnderWay(s0, schedule, n, r);
    }
  }

  lemma PeakReached(s0: State, schedule: seq<Action>, maxSize: int, maxBlock: int)
    requires IsNew(s0, maxSize, maxBlock)
    requires var p := Run(s0, schedule).p; p == PIdle(NoRoom) || p.PAlloc?
    ensures maxSize <= Run(s0, schedule).peak
  {
    NewInv(s0, maxSize, maxBlock);
    var ring, k := RunKeeps(s0, schedule, Count(|s0.blocks|), 1, Promise(s0.largest, maxSize));
    PeakCovers(Run(s0, schedule), ring, k, Promise(s0.largest, maxSize));
  }

  /** The slot the producer is about to write is never the one the consumer is about to read, nor
      any other slot that holds an element of the queue. */
  lemma NoSlotRace(s0: State, schedule: seq<Action>, maxSize: int, maxBlock: int)
    requires IsNew(s0, maxSize, maxBlock)
    ensures var s := Run(s0, schedule);
            && (s.p.PWrite? && s.c.CRead? ==> s.p.tb != s.c.fb || s.p.bt != s.c.bf)
            && (s.p.PWrite? && s.c.CPeekNext? ==> s.p.tb != s.c.nb || s.p.bt != s.c.nf)
            && (s.p.PNextWrite? && s.c.CRead? ==> s.p.nb != s.c.fb)
            && (s.p.PNextWrite? && s.c.CPeekNext? ==> s.p.nb != s.c.nb)
  {
    NewInv(s0, maxSize, maxBlock);
    var pr := Promise(s0.largest, maxSize);
    var ring, k := RunKeeps(s0, schedule, Count(|s0.blocks|), 1, pr);
    RaceFree(Run(s0, schedule), ring, k, pr);
  }

  lemma RaceFree(s: State, ring: seq<int>, k: int, pr: Promise)
    requires Inv(s, ring, k, pr)
    ensures s.p.PWrite? && s.c.CRead? ==> s.p.tb != s.c.fb || s.p.bt != s.c.bf
    ensures s.p.PWrite? && s.c.CPeekNext? ==> s.p.tb != s.c.nb || s.p.bt != s.c.nf
    ensures s.p.PNextWrite? && s.c.CRead? ==> s.p.nb != s.c.fb
    ensures s.p.PNextWrite? && s.c.CPeekNext? ==> s.p.nb != s.c.nb
  {
    Ends(s, ring, k, pr);
    if 1 < k { NotEmptyNext(s, ring, k, pr); }
    hide Flatten, Elems, LoadOk, Roomy, RingOk, BlocksOk, BlockOk, Full;
  }

  /** The front element of the queue, for a queue that has one in its front block. */
  lemma FrontElement(s: State, ring: seq<int>, k: int, pr: Promise, i: int)
    requires Inv(s, ring, k, pr) && 0 <= i < k <= |ring| && 0 <= ring[i] < |s.blocks|
    requires forall j | 0 <= j < i :: 0 <= ring[j] < |s.blocks| && s.blocks[ring[j]].front == s.blocks[ring[j]].tail
    requires BlockOk(s.blocks[ring[i]]) && s.blocks[ring[i]].front != s.blocks[ring[i]].tail
    ensures |s.dequeued| < |s.enqueued|
    ensures s.enqueued[|s.dequeued|] == s.blocks[ring[i]].data[s.blocks[ring[i]].front]
  {
    hide BlocksOk, RingOk, LoadOk, Roomy, ProducerOk, ConsumerOk, Flatten;
    SkipEmpty(s.blocks, ring, i, k);
    TakeElems(s.blocks[ring[i]]);
    FlattenFirst(s.blocks, ring, i, k);
    hide Elems;
  }

  lemma FlattenFirst(blocks: seq<Block>, ring: seq<int>, i: int, k: int)
    requires 0 <= i < k <= |ring| && 0 <= ring[i] < |blocks|
    ensures Flatten(blocks, ring, i, k) == Elems(blocks[ring[i]]) + Flatten(blocks, ring, i + 1, k)
  {
    hide Elems;
  }

  lemma {:induction false} SkipEmpty(blocks: seq<Block>, ring: seq<int>, i: int, k: int)
    requires 0 <= i <= k <= |ring|
    requires forall j | 0 <= j < i :: 0 <= ring[j] < |blocks| && blocks[ring[j]].front == blocks[ring[j]].tail
    ensures Flatten(blocks, ring, 0, k) == Flatten(blocks, ring, i, k)
    decreases i
  {
    if i > 0 {
      SkipEmpty(blocks, ring, i - 1, k);
      FlattenFirst(blocks, ring, i - 1, k);
      assert Elems(blocks[ring[i - 1]]) == [];
    }
  }

  /** What peek has reported is the element the next dequeue will hand out. */
  predicate SeenOk(s: State) {
    s.c.CIdle? && s.c.result.Seen? ==>
      |s.dequeued| < |s.enqueued| && s.enqueued[|s.dequeued|] == s.c.result.seen
  }

  lemma ReadsFront(s: State, ring: seq<int>, k: int, pr: Promise)
    requires Inv(s, ring, k, pr) && (s.c.CRead? || s.c.CPeekNext?) && ConsumerSafe(s)
    ensures |s.dequeued| < |s.enqueued|
    ensures s.enqueued[|s.dequeued|] == match s.c
                                        case CRead(_, fb, bf) => s.blocks[fb].data[bf]
                                        case CPeekNext(nb, nf) => s.blocks[nb].data[nf]
  {
    hide Flatten, LoadOk, Roomy, RingOk, BlocksOk, Elems, ProducerOk;
    Ends(s, ring, k, pr);
    if s.c.CRead? {
      FrontElement(s, ring, k, pr, 0);
    } else {
      NotEmptyNext(s, ring, k, pr);
      FrontElement(s, ring, k, pr, 1);
    }
  }

  lemma ConsumeKeepsSeen(s: State)
    requires SeenOk(s) && ConsumerSafe(s)
    requires s.c.CRead? || s.c.CPeekNext? ==>
               && |s.dequeued| < |s.enqueued|
               && s.enqueued[|s.dequeued|] == match s.c
                                              case CRead(_, fb, bf) => s.blocks[fb].data[bf]
                                              case CPeekNext(nb, nf) => s.blocks[nb].data[nf]
    ensures SeenOk(Step(s, Consume))
  {
  }

  lemma StepKeepsSeen(s: State, a: Action, ring: seq<int>, k: int, pr: Promise)
    requires Inv(s, ring, k, pr) && SeenOk(s)
    ensures SeenOk(Step(s, a))
  {
    if a.Consume? && ConsumerSafe(s) {
      if s.c.CRead? || s.c.CPeekNext? { ReadsFront(s, ring, k, pr); }
      hide Inv, ProducerSafe, ConsumerSafe;
      ConsumeKeepsSeen(s);
    } else if a.Produce? && ProducerSafe(s) {
      hide Inv, ProducerStep, ProducerSafe;
      ProducerOnlyAppends(s, a.m);
    } else {
      hide Inv, ProducerStep, ConsumerStep;
    }
  }

  /** peek returns the element the next successful try_dequeue returns. */
  lemma {:induction false} PeekSeesFront(s0: State, schedule: seq<Action>, maxSize: int, maxBlock: int)
    requires IsNew(s0, maxSize, maxBlock)
    ensures SeenOk(Run(s0, schedule))
    decreases |schedule|
  {
    hide Step, Inv;
    if schedule != [] {
      var before := schedule[..|schedule| - 1];
      PeekSeesFront(s0, before, maxSize, maxBlock);
      NewInv(s0, maxSize, maxBlock);
      var pr := Promise(s0.largest, maxSize);
      var ring, k := RunKeeps(s0, before, Count(|s0.blocks|), 1, pr);
      StepKeepsSeen(Run(s0, before), schedule[|schedule| - 1], ring, k, pr);
    }
  }

  // ---------------------------------------------------------------- block sizes

  lemma {:induction false} CeilIsPow2(x: int)
    ensures IsPow2(CeilToPow2(x))
    decreases x
  {
    if x > 1 {
      CeilIsPow2((x + 1) / 2);
      var h := CeilToPow2((x + 1) / 2);
      assert 2 * h / 2 == h && 2 * h % 2 == 0;
    }
  }

  /** Every block has a power of two of slots, which masking needs. */
  predicate PowersOk(s: State) {
    IsPow2(s.largest) && forall i | 0 <= i < |s.blocks| :: IsPow2(|s.blocks[i].data|)
  }

  lemma StepKeepsPowers(s: State, a: Action)
    requires PowersOk(s)
    ensures PowersOk(Step(s, a))
  {
    hide ProducerStep, ConsumerStep, ProducerSafe, ConsumerSafe, IsPow2;
    if a.Consume? && ConsumerSafe(s) { ConsumerSizes(s); }
    if a.Produce? && ProducerSafe(s) {
      if s.p.PAlloc? { AllocKeepsPowers(s, a.m); } else { ProducerSizes(s, a.m); }
    }
  }

  lemma AllocKeepsPowers(s: State, m: Memory)
    requires PowersOk(s) && ProducerSafe(s) && s.p.PAlloc?
    ensures PowersOk(ProducerStep(s, m))
  {
    assert IsPow2(2 * s.largest);
  }

  lemma {:induction false} SizesArePowers(s0: State, schedule: seq<Action>, maxSize: int, maxBlock: int)
    requires IsNew(s0, maxSize, maxBlock) && IsPow2(maxBlock)
    ensures PowersOk(Run(s0, schedule))
    decreases |schedule|
  {
    hide Step, IsPow2, CeilToPow2;
    CeilIsPow2(maxSize + 1);
    if schedule != [] {
      SizesArePowers(s0, schedule[..|schedule| - 1], maxSize, maxBlock);
      StepKeepsPowers(Run(s0, schedule[..|schedule| - 1]), schedule[|schedule| - 1]);
    }
  }

  // ---------------------------------------------------------------- single calls

  /** Own steps a call of the producer (consumer) may still take. */
  function ProducerRank(p: ProducerPc): nat {
    match p
    case PIdle(_) => 0
    case PSetTail(_, _) => 1
    case PPublish(_, _, _) => 1
    case PWrite(_, _, _) => 2
    case PNextPublish(_, _, _) => 2
    case PLink(_, _, _) => 2
    case PNextWrite(_, _, _) => 3
    case PAlloc(_, _) => 3
    case PNextTail(_, _, _) => 4
    case PNextFront(_, _) => 5
    case PNextAgain(_, _) => 6
    case PFrontBlock(_, _, _, _) => 7
    case PNext(_, _, _) => 8
    case PFront(_, _, _, _) => 9
    case PTail(_, _, _, _) => 10
    case PLocalFront(_, _, _) => 11
    case PTailBlock(_, _) => 12
  }

  function ConsumerRank(c: ConsumerPc): nat {
    match c
    case CIdle(_) => 0
    case CStore(_, _, _) => 1
    case CPeekNext(_, _) => 1
    case CRead(_, _, _) => 2
    case CSetFront(_, _) => 3
    case CNextTail(_, _, _) => 4
    case CNextFront(_, _) => 5
    case CNext(_, _) => 6
    case CFrontAgain(_, _, _) => 7
    case CTailAgain(_, _) => 8
    case CFrontBlockAgain(_) => 9
    case CTailBlock(_, _) => 10
    case CTail(_, _, _) => 11
    case CFront(_, _, _) => 12
    case CLocalTail(_, _) => 13
    case CFrontBlock(_) => 14
  }

  /** The value a call of the producer is about to put in, and whether it may allocate as far as it
      still matters. */
  predicate Carries(p: ProducerPc, v: T, mayAlloc: bool) {
    match p
    case PIdle(_) => true
    case PTailBlock(w, al) => w == v && al == mayAlloc
    case PLocalFront(w, al, _) => w == v && al == mayAlloc
    case PTail(w, al, _, _) => w == v && al == mayAlloc
    case PFront(w, al, _, _) => w == v && al == mayAlloc
    case PWrite(w, _, _) => w == v
    case PPublish(w, _, _) => w == v
    case PNext(w, al, _) => w == v && al == mayAlloc
    case PFrontBlock(w, al, _, _) => w == v && al == mayAlloc
    case PNextAgain(w, _) => w == v
    case PNextFront(w, _) => w == v
    case PNextTail(w, _, _) => w == v
    case PNextWrite(w, _, _) => w == v
    case PNextPublish(w, _, _) => w == v
    case PAlloc(w, _) => w == v && mayAlloc
    case PLink(w, _, _) => w == v && mayAlloc
    case PSetTail(w, _) => w == v
  }

  /** A block was allocated since s: twice the size of the largest so far, or as large if that is the
      greatest size allowed. */
  predicate Allocated(s: State, t: State) {
    && |t.blocks| == |s.blocks| + 1 && t.largest == |t.blocks[|s.blocks|].data|
    && (s.largest < s.maxBlock ==> t.largest == s.largest * 2)
    && (s.largest >= s.maxBlock ==> t.largest == s.largest)
  }

  predicate NotAllocated(s: State, t: State) { |t.blocks| == |s.blocks| && t.largest == s.largest }

  /** Where a call that found the queue as s and puts in v has come to. */
  predicate Enqueuing(s: State, t: State, v: T, mayAlloc: bool) {
    && Carries(t.p, v, mayAlloc) && t.maxBlock == s.maxBlock
    && t.enqueued == (if t.p == PIdle(Stored) then s.enqueued + [v] else s.enqueued)
    && (NotAllocated(s, t) || (mayAlloc && Allocated(s, t)))
    && match t.p
       case PIdle(r) =>
         && r != NoCall && (mayAlloc ==> r != NoRoom) && (!mayAlloc ==> r != NoMemory)
         && (r != Stored ==> NotAllocated(s, t))
       case PLink(_, _, _) => true
       case PSetTail(_, _) => true
       case _ => NotAllocated(s, t)
  }

  /** The allocator did not give the block asked for. */
  predicate Refused(s: State, m: Memory) {
    m.NoMemoryLeft? || |m.bytes| != (if s.largest >= s.maxBlock then s.largest else s.largest * 2) || m.bytes == []
  }

  /** What no step but that of the allocation changes. */
  predicate SameSizes(t: State, u: State) {
    && u.maxBlock == t.maxBlock && u.largest == t.largest && |u.blocks| == |t.blocks|
    && forall i | 0 <= i < |t.blocks| :: |u.blocks[i].data| == |t.blocks[i].data|
  }

  lemma ProducerSizes(t: State, m: Memory)
    requires ProducerSafe(t) && !t.p.PAlloc?
    ensures SameSizes(t, ProducerStep(t, m))
  {
  }

  lemma ConsumerSizes(t: State)
    requires ConsumerSafe(t)
    ensures SameSizes(t, ConsumerStep(t))
  {
  }

  lemma SizesKept(s: State, t: State, u: State)
    requires SameSizes(t, u)
    ensures (NotAllocated(s, t) ==> NotAllocated(s, u)) && (Allocated(s, t) ==> Allocated(s, u))
  {
  }

  lemma AllocStep(s: State, t: State, m: Memory)
    requires ProducerSafe(t) && t.p.PAlloc? && NotAllocated(s, t) && t.maxBlock == s.maxBlock
    ensures var u := ProducerStep(t, m);
            && u.maxBlock == t.maxBlock && u.enqueued == t.enqueued
            && if Refused(t, m) then u == t.(p := PIdle(NoMemory))
               else u.p.PLink? && u.p.v == t.p.v && Allocated(s, u)
  {
  }

  /** Where the next step leads, and that it brings the call nearer to its end. */
  lemma ProducerPath(t: State, m: Memory, v: T, mayAlloc: bool)
    requires ProducerSafe(t) && !t.p.PIdle? && !t.p.PAlloc? && Carries(t.p, v, mayAlloc)
    ensures var u := ProducerStep(t, m);
            && ProducerRank(u.p) < ProducerRank(t.p) && Carries(u.p, v, mayAlloc)
            && (u.p.PIdle? ==> u.p.result == Stored || (u.p.result == NoRoom && !mayAlloc && t.p.PFrontBlock?))
            && u.enqueued == (if u.p.PIdle? && u.p.result == Stored then t.enqueued + [v] else t.enqueued)
            && (t.p.PLink? ==> u.p.PSetTail?) && (t.p.PSetTail? ==> u.p.PIdle?)
            && (u.p.PLink? ==> t.p.PAlloc?)
  {
  }

  lemma ProducerAdvances(s: State, t: State, m: Memory, v: T, mayAlloc: bool)
    requires Enqueuing(s, t, v, mayAlloc) && ProducerSafe(t)
    ensures Enqueuing(s, ProducerStep(t, m), v, mayAlloc)
    ensures !t.p.PIdle? ==> ProducerRank(ProducerStep(t, m).p) < ProducerRank(t.p)
    ensures !t.p.PIdle? && ProducerStep(t, m).p == PIdle(NoMemory) ==> t.p.PAlloc? && Refused(t, m)
  {
    if t.p.PIdle? {
      IdleProducer(t, m);
    } else if t.p.PAlloc? {
      AllocStep(s, t, m);
      hide ProducerStep, ProducerSafe, Refused, Allocated;
    } else {
      ProducerPath(t, m, v, mayAlloc);
      ProducerSizes(t, m);
      SizesKept(s, t, ProducerStep(t, m));
      hide ProducerStep, ProducerSafe, Carries, Allocated, NotAllocated, ProducerRank;
    }
  }

  lemma ConsumerLeavesProducer(s: State, t: State, v: T, mayAlloc: bool)
    requires Enqueuing(s, t, v, mayAlloc) && ConsumerSafe(t)
    ensures Enqueuing(s, ConsumerStep(t), v, mayAlloc)
  {
    ConsumerOnlyTakes(t);
    ConsumerSizes(t);
    SizesKept(s, t, ConsumerStep(t));
    hide Carries, ConsumerStep, ConsumerSafe, Allocated, NotAllocated;
  }

  /** The own steps the producer (consumer) has taken in a schedule. */
  function Produced(schedule: seq<Action>): nat {
    if schedule == [] then 0
    else Produced(schedule[..|schedule| - 1]) + if schedule[|schedule| - 1].Produce? then 1 else 0
  }

  function Consumed(schedule: seq<Action>): nat {
    if schedule == [] then 0
    else Consumed(schedule[..|schedule| - 1]) + if schedule[|schedule| - 1].Consume? then 1 else 0
  }

  lemma NoneProduced(schedule: seq<Action>, n: int)
    requires 0 <= n <= |schedule|
    ensures Produced(schedule[n..n]) == 0 && Consumed(schedule[n..n]) == 0
  {
    assert schedule[n..n] == [];
  }

  lemma CountNext(schedule: seq<Action>, b: int, n: int)
    requires 0 <= b < n <= |schedule|
    ensures Produced(schedule[b..n]) == Produced(schedule[b..n - 1]) + if schedule[n - 1].Produce? then 1 else 0
    ensures Consumed(schedule[b..n]) == Consumed(schedule[b..n - 1]) + if schedule[n - 1].Consume? then 1 else 0
  {
    var calls := schedule[b..n];
    assert calls[..|calls| - 1] == schedule[b..n - 1] && calls[|calls| - 1] == schedule[n - 1];
  }

  lemma StepOfEnqueue(s: State, t: State, a: Action, v: T, mayAlloc: bool)
    requires Enqueuing(s, t, v, mayAlloc) && !BeginsEnqueue(t, a) && ProducerSafe(t) && ConsumerSafe(t)
    ensures var u := Step(t, a);
            && Enqueuing(s, u, v, mayAlloc)
            && (if a.Produce? && !t.p.PIdle? then ProducerRank(u.p) < ProducerRank(t.p) else u.p == t.p)
            && (!t.p.PIdle? && u.p == PIdle(NoMemory) ==> t.p.PAlloc? && a.Produce? && Refused(t, a.m))
  {
    hide ProducerStep, ConsumerStep, ProducerSafe, ConsumerSafe, Refused, Carries;
    IdleStays(t, a);
    match a
    case BeginEnqueue(_, _) =>
    case BeginDequeue(_) =>
    case Produce(m) => ProducerAdvances(s, t, m, v, mayAlloc);
    case Consume =>
      ConsumerLeavesProducer(s, t, v, mayAlloc);
      ConsumerOnlyTakes(t);
  }

  /** A call of enqueue (which may allocate) or try_enqueue (which may not), begun at instant b and
      not followed by another: it puts in its own argument or nothing; enqueue never fails for want
      of room, only if the allocator refused it the block it asked for; try_enqueue never allocates;
      and either is over after twelve steps of its own, whatever the consumer does. */
  lemma EnqueueCall(s0: State, schedule: seq<Action>, b: int, maxSize: int, maxBlock: int)
    requires IsNew(s0, maxSize, maxBlock) && 0 <= b < |schedule|
    requires schedule[b].BeginEnqueue? && BeginsEnqueue(Run(s0, schedule[..b]), schedule[b])
    requires forall j | b < j < |schedule| :: !BeginsEnqueue(Run(s0, schedule[..j]), schedule[j])
    ensures var s, t, al := Run(s0, schedule[..b]), Run(s0, schedule), schedule[b].mayAlloc;
            && t.enqueued == (if t.p == PIdle(Stored) then s.enqueued + [schedule[b].v] else s.enqueued)
            && (al ==> t.p != PIdle(NoRoom))
            && (al && t.p == PIdle(NoMemory) ==>
                  exists j | b < j < |schedule| && schedule[j].Produce? ::
                    Run(s0, schedule[..j]).p.PAlloc? && Refused(Run(s0, schedule[..j]), schedule[j].m))
            && (!al ==> t.p != PIdle(NoMemory) && |t.blocks| == |s.blocks|)
            && (NotAllocated(s, t) || (al && Allocated(s, t)))
    ensures Produced(schedule[b + 1..]) >= 12 ==> Run(s0, schedule).p.PIdle? && Run(s0, schedule).p != PIdle(NoCall)
  {
    hide Run, BeginsEnqueue, Carries, Refused, IsNew, Produced;
    EnqueueRuns(s0, schedule, b, |schedule|, maxSize, maxBlock);
    assert schedule[..|schedule|] == schedule && schedule[b + 1..|schedule|] == schedule[b + 1..];
    RankIsZero(Run(s0, schedule).p);
  }

  lemma RankIsZero(p: ProducerPc)
    ensures ProducerRank(p) == 0 <==> p.PIdle?
  {
  }

  lemma {:induction false} EnqueueRuns(s0: State, schedule: seq<Action>, b: int, n: int, maxSize: int, maxBlock: int)
    requires IsNew(s0, maxSize, maxBlock) && 0 <= b < n <= |schedule|
    requires schedule[b].BeginEnqueue? && BeginsEnqueue(Run(s0, schedule[..b]), schedule[b])
    requires forall j | b < j < n :: !BeginsEnqueue(Run(s0, schedule[..j]), schedule[j])
    ensures var t := Run(s0, schedule[..n]);
            && Enqueuing(Run(s0, schedule[..b]), t, schedule[b].v, schedule[b].mayAlloc)
            && (t.p == PIdle(NoMemory) ==>
                  exists j | b < j < n && schedule[j].Produce? ::
                    Run(s0, schedule[..j]).p.PAlloc? && Refused(Run(s0, schedule[..j]), schedule[j].m))
            && (t.p.PIdle? || Produced(schedule[b + 1..n]) + ProducerRank(t.p) <= 12)
    decreases n
  {
    hide Step, Run, IsNew, Enqueuing, Refused, BeginsEnqueue, ProducerRank, ProducerSafe, ConsumerSafe, Produced;
    RunNext(s0, schedule, n - 1);
    if n == b + 1 {
      NoneProduced(schedule, n);
      BeginsCall(Run(s0, schedule[..b]), schedule[b]);
    } else {
      var t := Run(s0, schedule[..n - 1]);
      EnqueueRuns(s0, schedule, b, n - 1, maxSize, maxBlock);
      Fifo(s0, schedule[..n - 1], maxSize, maxBlock);
      StepOfEnqueue(Run(s0, schedule[..b]), t, schedule[n - 1], schedule[b].v, schedule[b].mayAlloc);
      CountNext(schedule, b + 1, n);
    }
  }

  lemma BeginsCall(s: State, a: Action)
    requires a.BeginEnqueue? && BeginsEnqueue(s, a)
    ensures Enqueuing(s, Step(s, a), a.v, a.mayAlloc) && ProducerRank(Step(s, a).p) == 12 && !Step(s, a).p.PIdle?
  {
  }

  /** Where a call of try_dequeue (or peek) that found the queue as s has come to. */
  predicate Dequeuing(s: State, t: State, peek: bool) {
    && t.dequeued == (if t.c.CIdle? && t.c.result.Got? then s.dequeued + [t.c.result.value] else s.dequeued)
    && match t.c
       case CIdle(r) => r.Nothing? || (if peek then r.Seen? else r.Got?)
       case CFrontBlock(pk) => pk == peek
       case CLocalTail(pk, _) => pk == peek
       case CFront(pk, _, _) => pk == peek
       case CTail(pk, _, _) => pk == peek
       case CRead(pk, _, _) => pk == peek
       case CStore(_, _, _) => !peek
       case CTailBlock(pk, _) => pk == peek
       case CFrontBlockAgain(pk) => pk == peek
       case CTailAgain(pk, _) => pk == peek
       case CFrontAgain(pk, _, _) => pk == peek
       case CNext(pk, _) => pk == peek
       case CNextFront(pk, _) => pk == peek
       case CNextTail(pk, _, _) => pk == peek
       case CSetFront(_, _) => !peek
       case CPeekNext(_, _) => peek
  }

  lemma ConsumerAdvances(s: State, t: State, peek: bool)
    requires Dequeuing(s, t, peek) && ConsumerSafe(t)
    ensures Dequeuing(s, ConsumerStep(t), peek)
    ensures !t.c.CIdle? ==> ConsumerRank(ConsumerStep(t).c) < ConsumerRank(t.c)
  {
  }

  lemma StepOfDequeue(s: State, t: State, a: Action, peek: bool)
    requires Dequeuing(s, t, peek) && !BeginsDequeue(t, a) && ProducerSafe(t) && ConsumerSafe(t)
    ensures var u := Step(t, a);
            && Dequeuing(s, u, peek)
            && (if a.Consume? && !t.c.CIdle? then ConsumerRank(u.c) < ConsumerRank(t.c) else u.c == t.c)
  {
    hide ProducerStep, ConsumerStep, ProducerSafe, ConsumerSafe;
    IdleStays(t, a);
    match a
    case BeginEnqueue(_, _) =>
    case BeginDequeue(_) =>
    case Produce(m) => ProducerOnlyAppends(t, m);
    case Consume => ConsumerAdvances(s, t, peek);
  }

  /** A call of try_dequeue or peek, begun at instant b and not followed by another: try_dequeue
      takes the one element it hands out, or nothing; peek takes nothing and hands out nothing but
      a look; and either is over after fourteen steps of its own, whatever the producer does. */
  lemma DequeueCall(s0: State, schedule: seq<Action>, b: int, maxSize: int, maxBlock: int)
    requires IsNew(s0, maxSize, maxBlock) && 0 <= b < |schedule|
    requires schedule[b].BeginDequeue? && BeginsDequeue(Run(s0, schedule[..b]), schedule[b])
    requires forall j | b < j < |schedule| :: !BeginsDequeue(Run(s0, schedule[..j]), schedule[j])
    ensures var s, t := Run(s0, schedule[..b]), Run(s0, schedule);
            && (t.c.CIdle? ==> t.c.result.Nothing? || (if schedule[b].peek then t.c.result.Seen? else t.c.result.Got?))
            && t.dequeued == if t.c.CIdle? && t.c.result.Got? then s.dequeued + [t.c.result.value] else s.dequeued
    ensures Consumed(schedule[b + 1..]) >= 14 ==> Run(s0, schedule).c.CIdle?
  {
    hide Run, BeginsDequeue, IsNew, Consumed;
    DequeueRuns(s0, schedule, b, |schedule|, maxSize, maxBlock);
    assert schedule[..|schedule|] == schedule && schedule[b + 1..|schedule|] == schedule[b + 1..];
  }

  lemma {:induction false} DequeueRuns(s0: State, schedule: seq<Action>, b: int, n: int, maxSize: int, maxBlock: int)
    requires IsNew(s0, maxSize, maxBlock) && 0 <= b < n <= |schedule|
    requires schedule[b].BeginDequeue? && BeginsDequeue(Run(s0, schedule[..b]), schedule[b])
    requires forall j | b < j < n :: !BeginsDequeue(Run(s0, schedule[..j]), schedule[j])
    ensures var t := Run(s0, schedule[..n]);
            && Dequeuing(Run(s0, schedule[..b]), t, schedule[b].peek)
            && (t.c.CIdle? || Consumed(schedule[b + 1..n]) + ConsumerRank(t.c) <= 14)
    decreases n
  {
    hide Step, Run, IsNew, Dequeuing, BeginsDequeue, ConsumerRank, ProducerSafe, ConsumerSafe, Consumed;
    RunNext(s0, schedule, n - 1);
    if n == b + 1 {
      NoneProduced(schedule, n);
      BeginsTake(Run(s0, schedule[..b]), schedule[b]);
    } else {
      var t := Run(s0, schedule[..n - 1]);
      DequeueRuns(s0, schedule, b, n - 1, maxSize, maxBlock);
      Fifo(s0, schedule[..n - 1], maxSize, maxBlock);
      StepOfDequeue(Run(s0, schedule[..b]), t, schedule[n - 1], schedule[b].peek);
      CountNext(schedule, b + 1, n);
    }
  }

  lemma BeginsTake(s: State, a: Action)
    requires BeginsDequeue(s, a)
    ensures Dequeuing(s, Step(s, a), a.peek) && ConsumerRank(Step(s, a).c) == 14 && !Step(s, a).c.CIdle?
  {
  }
}
