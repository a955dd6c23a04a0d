/** BlockingReaderWriterQueue of src/base/concurrent/readerwriterqueue.h: every successful enqueue
    is followed by one signal, every dequeue preceded by one wait. */
module BlockingQueue {
  import Q = SpscQueue
  import S = Semaphore

  /** `toSignal`: the producer has enqueued and not yet signalled.  `dequeuing`: the consumer has
      been granted a permit and is inside inner.try_dequeue.  `assertFailed`: that call, which the
      source asserts to succeed, did not. */
  datatype State = State(q: Q.State, sema: S.State, toSignal: bool, dequeuing: bool, assertFailed: bool)

  datatype Action =
    | BeginEnqueue(v: Q.T, mayAlloc: bool)
    | Produce(m: Q.Memory)
    | Signal
    | Post
    | BeginWait(mode: S.WaitMode)
    | WaitStep
    | Timeout
    | BeginPeek
    | Consume

  predicate ConsumerFree(s: State) { !s.dequeuing && s.sema.w.Idle? && s.q.c.CIdle? }

  /** A step of the semaphore's waiter; once granted it enters inner.try_dequeue. */
  function Waited(s: State, a: S.Action): State {
    var sema := S.Step(s.sema, a);
    if sema.granted > s.sema.granted then
      s.(sema := sema, dequeuing := true, q := Q.Step(s.q, Q.BeginDequeue(false)))
    else s.(sema := sema)
  }

  function Step(s: State, a: Action): State {
    match a
    case BeginEnqueue(v, al) => if s.toSignal then s else s.(q := Q.Step(s.q, Q.BeginEnqueue(v, al)))
    case Produce(m) =>
      var q := Q.Step(s.q, Q.Produce(m));
      s.(q := q, toSignal := s.toSignal || (!s.q.p.PIdle? && q.p == Q.PIdle(Q.Stored)))
    case Signal => if s.toSignal then s.(sema := S.Step(s.sema, S.Signal(1)), toSignal := false) else s
    case Post => s.(sema := S.Step(s.sema, S.Post))
    case BeginWait(mode) => if ConsumerFree(s) then s.(sema := S.Step(s.sema, S.BeginWait(mode))) else s
    case WaitStep => if s.sema.w.Idle? then s else Waited(s, S.WaitStep)
    case Timeout => s.(sema := S.Step(s.sema, S.Timeout))
    case BeginPeek => if ConsumerFree(s) then s.(q := Q.Step(s.q, Q.BeginDequeue(true))) else s
    case Consume =>
      var q := Q.Step(s.q, Q.Consume);
      if s.dequeuing && q.c.CIdle? then
        s.(q := q, dequeuing := false, assertFailed := s.assertFailed || !q.c.result.Got?)
      else s.(q := q)
  }

  function Run(s: State, schedule: seq<Action>): State
    decreases |schedule|
  {
    if schedule == [] then s else Step(Run(s, schedule[..|schedule| - 1]), schedule[|schedule| - 1])
  }

  ghost predicate IsNew(s: State, maxSize: int, maxBlock: int) {
    Q.IsNew(s.q, maxSize, maxBlock) && s.sema == S.New(0) && !s.toSignal && !s.dequeuing && !s.assertFailed
  }

  /** The consumer is inside try_dequeue, not peek. */
  predicate Taking(c: Q.ConsumerPc) {
    match c
    case CIdle(_) => false
    case CFrontBlock(peek) => !peek
    case CLocalTail(peek, _) => !peek
    case CFront(peek, _, _) => !peek
    case CTail(peek, _, _) => !peek
    case CRead(peek, _, _) => !peek
    case CStore(_, _, _) => true
    case CTailBlock(peek, _) => !peek
    case CFrontBlockAgain(peek) => !peek
    case CTailAgain(peek, _) => !peek
    case CFrontAgain(peek, _, _) => !peek
    case CNext(peek, _) => !peek
    case CNextFront(peek, _) => !peek
    case CNextTail(peek, _, _) => !peek
    case CSetFront(_, _) => true
    case CPeekNext(_, _) => false
  }

  /** Permits account for elements: one signal per enqueued element, one grant per dequeued one. */
  ghost predicate Inv(s: State, ring: seq<int>, k: int, pr: Q.Promise) {
    && Q.Inv(s.q, ring, k, pr) && S.Inv(s.sema) && s.sema.initial == 0
    && |s.q.enqueued| == s.sema.signalled + (if s.toSignal then 1 else 0)
    && s.sema.granted == |s.q.dequeued| + (if s.dequeuing then 1 else 0)
    && (s.toSignal ==> s.q.p.PIdle?)
    && (if s.dequeuing then Taking(s.q.c) && !s.q.emptySeen && s.sema.w.Idle? else !Taking(s.q.c))
    && (!s.sema.w.Idle? ==> s.q.c.CIdle?)
    && !s.assertFailed
  }

  lemma ProducerCount(q: Q.State, m: Q.Memory)
    requires Q.ProducerSafe(q)
    ensures var q' := Q.ProducerStep(q, m);
            && |q'.enqueued| == |q.enqueued| + (if !q.p.PIdle? && q'.p == Q.PIdle(Q.Stored) then 1 else 0)
            && (q.p.PIdle? ==> q'.p == q.p) && q'.emptySeen == q.emptySeen
            && q'.dequeued == q.dequeued && q'.c == q.c
  {
  }

  /** How a step of the queue moves the totals. */
  lemma ProduceTotals(q: Q.State, m: Q.Memory)
    ensures var q' := Q.Step(q, Q.Produce(m));
            && q'.dequeued == q.dequeued && q'.c == q.c
            && |q'.enqueued| == |q.enqueued| + (if !q.p.PIdle? && q'.p == Q.PIdle(Q.Stored) then 1 else 0)
            && (|q.dequeued| < |q.enqueued| && !q.emptySeen ==> !q'.emptySeen)
            && (q.p.PIdle? ==> q'.p == q.p)
  {
    hide Q.ProducerStep;
    if Q.ProducerSafe(q) { ProducerCount(q, m); }
  }

  lemma ConsumeTotals(q: Q.State)
    requires Q.ConsumerSafe(q)
    ensures var q' := Q.Step(q, Q.Consume);
            && q'.enqueued == q.enqueued && q'.p == q.p
            && |q'.dequeued| == |q.dequeued| + (if q.c.CStore? then 1 else 0)
            && (q.c.CStore? ==> q'.c.CIdle? && q'.c.result.Got?)
            && (Taking(q.c) ==> Taking(q'.c) || q.c.CStore? || q'.c == Q.CIdle(Q.Nothing))
            && (!Taking(q.c) ==> !Taking(q'.c))
            && (q.c.CIdle? ==> q'.c == q.c)
            && (!q.c.CStore? && |q.dequeued| < |q.enqueued| && !q.emptySeen ==> !q'.emptySeen)
  {
    ConsumeMoves(q);
    ConsumeStays(q);
    hide Q.ConsumerStep, Q.ConsumerSafe;
  }

  lemma ConsumeMoves(q: Q.State)
    requires Q.ConsumerSafe(q)
    ensures var q' := Q.ConsumerStep(q);
            && q'.enqueued == q.enqueued && q'.p == q.p && q'.emptySeen == q.emptySeen
            && q'.dequeued == (if q.c.CStore? then q.dequeued + [q.c.value] else q.dequeued)
  {
  }

  lemma ConsumeStays(q: Q.State)
    requires Q.ConsumerSafe(q)
    ensures var c := Q.ConsumerStep(q).c;
            && (q.c.CStore? ==> c.CIdle? && c.result.Got?)
            && (Taking(q.c) ==> Taking(c) || q.c.CStore? || c == Q.CIdle(Q.Nothing))
            && (!Taking(q.c) ==> !Taking(c)) && (q.c.CIdle? ==> c == q.c)
  {
  }

  lemma StepKeeps(s: State, a: Action, ring: seq<int>, k: int, pr: Q.Promise) returns (ring': seq<int>, k': int)
    requires Inv(s, ring, k, pr)
    ensures Inv(Step(s, a), ring', k', pr)
  {
    hide Q.Step, S.Step, Q.Inv, S.Inv, S.Allowed;
    ring', k' := ring, k;
    match a {
      case BeginEnqueue(v, al) =>
        if !s.toSignal { ring', k' := Q.StepKeeps(s.q, Q.BeginEnqueue(v, al), ring, k, pr); }
        BeginTotals(s.q, Q.BeginEnqueue(v, al));
        PermitsCover(s.sema);
      case Produce(m) =>
        ring', k' := Q.StepKeeps(s.q, Q.Produce(m), ring, k, pr);
        ProduceTotals(s.q, m);
        PermitsCover(s.sema);
      case Signal => SemaStep(s.sema, S.Signal(1));
      case Post => SemaStep(s.sema, S.Post);
      case BeginWait(mode) => SemaStep(s.sema, S.BeginWait(mode));
      case WaitStep =>
        SemaStep(s.sema, S.WaitStep);
        if !s.sema.w.Idle? { ring', k' := Waiting(s, ring, k, pr); }
      case Timeout => SemaStep(s.sema, S.Timeout);
      case BeginPeek =>
        if ConsumerFree(s) { ring', k' := Q.StepKeeps(s.q, Q.BeginDequeue(true), ring, k, pr); }
        BeginTotals(s.q, Q.BeginDequeue(true));
      case Consume => ring', k' := Consuming(s, ring, k, pr);
    }
  }

  lemma SemaStep(s: S.State, a: S.Action)
    requires S.Inv(s) && (a.Signal? ==> a.n == 1)
    ensures S.Inv(S.Step(s, a))
    ensures var s' := S.Step(s, a);
            && s'.initial == s.initial
            && (a.Signal? ==> s'.granted == s.granted && s'.signalled == s.signalled + 1 && s'.w == s.w)
            && (!a.Signal? ==> s'.signalled == s.signalled)
            && (a.WaitStep? ==> s'.granted == s.granted || (s'.granted == s.granted + 1 && s'.w.Idle?))
            && (a.Post? || a.Timeout? || a.BeginWait? ==> s'.granted == s.granted)
            && (a.Post? ==> s'.w == s.w)
            && (a.Timeout? && s.w.Idle? ==> s'.w.Idle?)
            && s'.granted <= s'.initial + s'.signalled
  {
    S.StepKeeps(s, a);
  }

  lemma PermitsCover(s: S.State)
    requires S.Inv(s)
    ensures s.granted <= s.initial + s.signalled
  {
  }

  lemma BeginTotals(q: Q.State, a: Q.Action)
    requires a.BeginEnqueue? || a.BeginDequeue?
    ensures var q' := Q.Step(q, a);
            && q'.enqueued == q.enqueued && q'.dequeued == q.dequeued
            && (a.BeginEnqueue? ==> q'.c == q.c && (|q.dequeued| < |q.enqueued| && !q.emptySeen ==> !q'.emptySeen))
            && (a.BeginDequeue? ==> q'.p == q.p && (q.c.CIdle? ==> q'.c == Q.CFrontBlock(a.peek)))
            && (a.BeginDequeue? && q.c.CIdle? && |q.dequeued| < |q.enqueued| ==> !q'.emptySeen)
  {
  }

  /** A permit granted means an element is there, and stays there until it is taken. */
  lemma Waiting(s: State, ring: seq<int>, k: int, pr: Q.Promise) returns (ring': seq<int>, k': int)
    requires Inv(s, ring, k, pr) && !s.sema.w.Idle? && S.Inv(S.Step(s.sema, S.WaitStep))
    requires var sema := S.Step(s.sema, S.WaitStep);
             && sema.initial == s.sema.initial && sema.signalled == s.sema.signalled
             && sema.granted <= sema.initial + sema.signalled
             && (sema.granted == s.sema.granted || (sema.granted == s.sema.granted + 1 && sema.w.Idle?))
    ensures Inv(Waited(s, S.WaitStep), ring', k', pr)
  {
    hide Q.Step, S.Step, Q.Inv, S.Inv;
    ring', k' := ring, k;
    if S.Step(s.sema, S.WaitStep).granted > s.sema.granted {
      ring', k' := Q.StepKeeps(s.q, Q.BeginDequeue(false), ring, k, pr);
      BeginTotals(s.q, Q.BeginDequeue(false));
    }
  }

  /** So the dequeue the source asserts to succeed never comes back empty-handed. */
  lemma Consuming(s: State, ring: seq<int>, k: int, pr: Q.Promise) returns (ring': seq<int>, k': int)
    requires Inv(s, ring, k, pr)
    ensures Inv(Step(s, Consume), ring', k', pr)
  {
    hide Q.Step, S.Step, Q.Inv, S.Inv;
    Q.InvSafe(s.q, ring, k, pr);
    ring', k' := Q.StepKeeps(s.q, Q.Consume, ring, k, pr);
    ConsumeTotals(s.q);
    PermitsCover(s.sema);
    NothingMeansEmpty(Q.Step(s.q, Q.Consume), ring', k', pr);
  }

  lemma NothingMeansEmpty(q: Q.State, ring: seq<int>, k: int, pr: Q.Promise)
    requires Q.Inv(q, ring, k, pr)
    ensures q.c == Q.CIdle(Q.Nothing) ==> q.emptySeen
  {
  }

  /** In every schedule, with waits timing out at any moment, every dequeue that follows a granted
      wait succeeds, and the blocking queue is FIFO. */
  lemma {:induction false} DequeueAlwaysSucceeds(s0: State, schedule: seq<Action>, maxSize: int, maxBlock: int)
    returns (ring: seq<int>, k: int)
    requires IsNew(s0, maxSize, maxBlock)
    ensures var s := Run(s0, schedule);
            && Inv(s, ring, k, Q.Promise(s0.q.largest, maxSize))
            && !s.assertFailed && s.q.dequeued <= s.q.enqueued
    decreases |schedule|
  {
    hide Step, Q.Inv, Q.IsNew;
    var pr := Q.Promise(s0.q.largest, maxSize);
    if schedule == [] {
      StartInv(s0, maxSize, maxBlock);
      ring, k := Q.Count(|s0.q.blocks|), 1;
    } else {
      ring, k := DequeueAlwaysSucceeds(s0, schedule[..|schedule| - 1], maxSize, maxBlock);
      ring, k := StepKeeps(Run(s0, schedule[..|schedule| - 1]), schedule[|schedule| - 1], ring, k, pr);
    }
    Q.InvSafe(Run(s0, schedule).q, ring, k, pr);
  }

  lemma StartInv(s0: State, maxSize: int, maxBlock: int)
    requires IsNew(s0, maxSize, maxBlock)
    ensures Inv(s0, Q.Count(|s0.q.blocks|), 1, Q.Promise(s0.q.largest, maxSize))
  {
    hide Q.Inv;
    Q.NewInv(s0.q, maxSize, maxBlock);
  }

  // ---------------------------------------------------------------- the calls

  /** Each call begins the one of the parts it stands for: an enqueue with its own element and leave
      to allocate, once the last one is signalled; a wait of its own kind and a peek for a consumer
      that is free; a timeout for a waiter in the kernel; and a granted wait goes on to a dequeue. */
  lemma CallsBegin(s: State, v: Q.T, al: bool, mode: S.WaitMode)
    ensures !s.toSignal && s.q.p.PIdle? ==> Step(s, BeginEnqueue(v, al)).q.p == Q.PTailBlock(v, al)
    ensures ConsumerFree(s) ==>
              && Step(s, BeginWait(mode)) == s.(sema := s.sema.(w := S.TryLoad(mode)))
              && Step(s, BeginPeek).q.c == Q.CFrontBlock(true) && Step(s, BeginPeek).sema == s.sema
    ensures s.sema.w == S.InKernel(true) ==> Step(s, Timeout) == s.(sema := s.sema.(w := S.Undo))
    ensures s.q.c.CIdle? && Step(s, WaitStep).sema.granted > s.sema.granted ==>
              Step(s, WaitStep).q.c == Q.CFrontBlock(false) && Step(s, WaitStep).dequeuing
    ensures s.sema.posts > 0 ==>
              Step(s, Post) == s.(sema := s.sema.(posts := s.sema.posts - 1, kernel := s.sema.kernel + 1))
  {
    hide Q.ProducerStep, Q.ConsumerStep, S.Wait;
  }

  // ---------------------------------------------------------------- progress

  /** The signal after an enqueue adds the one permit. */
  lemma SignalAddsPermit(s: State)
    requires s.toSignal
    ensures var t := Step(s, Signal);
            t.sema.count == s.sema.count + 1 && t.sema.signalled == s.sema.signalled + 1 && !t.toSignal && t.q == s.q
  {
    hide Q.Step;
  }

  /** A producer that has put in an element owes a signal, and begins no other call before it. */
  lemma StoredOwesSignal(s: State, m: Q.Memory, v: Q.T, al: bool)
    requires Q.ProducerSafe(s.q)
    ensures var t := Step(s, Produce(m));
            && (|t.q.enqueued| > |s.q.enqueued| ==> t.toSignal)
            && (t.toSignal ==> Step(t, BeginEnqueue(v, al)) == t)
  {
    hide Q.ProducerStep, Q.ProducerSafe;
    ProduceTotals(s.q, m);
  }

  /** n actions of the consumer alone. */
  function Consumes(n: nat): seq<Action> { seq(n, _ => Consume) }

  /** Inside try_dequeue the consumer's own steps bring out the next element. */
  lemma {:induction false} TakesNext(s: State, n: nat, ring: seq<int>, k: int, pr: Q.Promise)
    requires Inv(s, ring, k, pr) && s.dequeuing && Q.ConsumerRank(s.q.c) <= n
    ensures var t := Run(s, Consumes(n));
            && !t.dequeuing && !t.assertFailed && t.q.enqueued == s.q.enqueued
            && |s.q.dequeued| < |s.q.enqueued| && t.q.dequeued == s.q.enqueued[..|s.q.dequeued| + 1]
    decreases n
  {
    hide Step, Q.Inv, Q.ConsumerRank, S.Inv;
    var u := Step(s, Consume);
    InsideRank(s.q.c);
    Owed(s, ring, k, pr);
    var ring', k' := StepKeeps(s, Consume, ring, k, pr);
    Q.InvSafe(s.q, ring, k, pr);
    Q.InvSafe(u.q, ring', k', pr);
    ConsumeRank(s);
    RunFirst(s, n);
    if u.dequeuing {
      TakesNext(u, n - 1, ring', k', pr);
    } else {
      Rests(u, n - 1);
      assert u.q.dequeued == s.q.enqueued[..|s.q.dequeued| + 1];
    }
  }

  lemma InsideRank(c: Q.ConsumerPc)
    requires Taking(c)
    ensures Q.ConsumerRank(c) >= 1
  {
  }

  lemma Owed(s: State, ring: seq<int>, k: int, pr: Q.Promise)
    requires Inv(s, ring, k, pr) && s.dequeuing
    ensures |s.q.dequeued| < |s.q.enqueued|
  {
    hide Q.Inv;
    PermitsCover(s.sema);
  }

  lemma ConsumeRank(s: State)
    requires Q.ConsumerSafe(s.q) && s.dequeuing && Taking(s.q.c)
    ensures var u := Step(s, Consume);
            && u.q.enqueued == s.q.enqueued && Q.ConsumerRank(u.q.c) < Q.ConsumerRank(s.q.c)
            && |u.q.dequeued| == (if s.q.c.CStore? then |s.q.dequeued| + 1 else |s.q.dequeued|)
            && (u.dequeuing ==> u.q.dequeued == s.q.dequeued)
            && (!u.dequeuing ==> u.q.c.CIdle? && (u.assertFailed || s.q.c.CStore?))
            && u.sema == s.sema && u.toSignal == s.toSignal
  {
    hide Q.ConsumerStep, Q.ConsumerRank;
    ConsumeTotals(s.q);
    StepRank(s.q);
  }

  lemma StepRank(q: Q.State)
    requires Q.ConsumerSafe(q) && Taking(q.c)
    ensures var u := Q.Step(q, Q.Consume);
            Q.ConsumerRank(u.c) < Q.ConsumerRank(q.c) && (q.c.CStore? || u.dequeued == q.dequeued)
  {
  }

  lemma {:induction false} RunFirst(s: State, n: nat)
    requires n > 0
    ensures Run(s, Consumes(n)) == Run(Step(s, Consume), Consumes(n - 1))
  {
    hide Step;
    assert Consumes(n)[..n - 1] == Consumes(n - 1);
    if n > 1 {
      RunFirst(s, n - 1);
      assert Consumes(n - 1)[..n - 2] == Consumes(n - 2);
    } else {
      assert Consumes(0) == [] && Run(s, []) == s && Run(Step(s, Consume), []) == Step(s, Consume);
    }
  }

  lemma {:induction false} Rests(s: State, n: nat)
    requires !s.dequeuing && s.q.c.CIdle? && Q.ConsumerSafe(s.q)
    ensures var t := Run(s, Consumes(n));
            && t.q.dequeued == s.q.dequeued && t.q.enqueued == s.q.enqueued && !t.dequeuing
            && t.assertFailed == s.assertFailed && t.q.c == s.q.c && Q.ConsumerSafe(t.q)
  {
    if n > 0 {
      Rests(s, n - 1);
      assert Consumes(n)[..n - 1] == Consumes(n - 1);
      IdleConsume(Run(s, Consumes(n - 1)));
      hide Step;
    }
  }

  lemma IdleConsume(s: State)
    requires !s.dequeuing && s.q.c.CIdle? && Q.ConsumerSafe(s.q)
    ensures var t := Step(s, Consume);
            && t.q.dequeued == s.q.dequeued && t.q.enqueued == s.q.enqueued && !t.dequeuing
            && t.assertFailed == s.assertFailed && t.q.c == s.q.c && Q.ConsumerSafe(t.q)
  {
  }

  /** The wait of a free consumer on a semaphore with a permit: two steps to the grant, and it is
      inside try_dequeue. */
  lemma WaitGrants(s: State, ring: seq<int>, k: int, pr: Q.Promise) returns (ring': seq<int>, k': int)
    requires Inv(s, ring, k, pr) && ConsumerFree(s) && s.sema.count > 0
    ensures var t := Step(Step(Step(s, BeginWait(S.Block)), WaitStep), WaitStep);
            && Inv(t, ring', k', pr) && t.dequeuing && Q.ConsumerRank(t.q.c) <= 14
            && t.q.enqueued == s.q.enqueued && t.q.dequeued == s.q.dequeued
  {
    hide Inv, ConsumerFree;
    var a, b, c := WaitSteps(s);
    ring', k' := StepKeeps(s, BeginWait(S.Block), ring, k, pr);
    ring', k' := StepKeeps(a, WaitStep, ring', k', pr);
    ring', k' := StepKeeps(b, WaitStep, ring', k', pr);
  }

  lemma WaitSteps(s: State) returns (a: State, b: State, c: State)
    requires ConsumerFree(s) && s.sema.count > 0
    ensures a == Step(s, BeginWait(S.Block)) && b == Step(a, WaitStep) && c == Step(b, WaitStep)
    ensures c.dequeuing && Q.ConsumerRank(c.q.c) <= 14
    ensures c.q.enqueued == s.q.enqueued && c.q.dequeued == s.q.dequeued
  {
    hide Q.Step, Q.ConsumerRank;
    a, b := Step(s, BeginWait(S.Block)), Step(Step(s, BeginWait(S.Block)), WaitStep);
    c := Step(b, WaitStep);
    assert a == s.(sema := s.sema.(w := S.TryLoad(S.Block)));
    assert b == s.(sema := s.sema.(w := S.TryTake));
    BeginTotals(s.q, Q.BeginDequeue(false));
    FullRank(false);
  }

  lemma FullRank(peek: bool)
    ensures Q.ConsumerRank(Q.CFrontBlock(peek)) == 14
  {
  }

  /** wait_dequeue on a queue with a permit: the consumer alone, in three steps of the wait and
      fourteen of the dequeue, hands out the oldest element. */
  lemma WaitDequeueTakes(s: State, ring: seq<int>, k: int, pr: Q.Promise)
    requires Inv(s, ring, k, pr) && ConsumerFree(s) && s.sema.count > 0
    ensures var t := Run(Step(Step(Step(s, BeginWait(S.Block)), WaitStep), WaitStep), Consumes(14));
            && !t.dequeuing && !t.assertFailed
            && |s.q.dequeued| < |s.q.enqueued| && t.q.dequeued == s.q.enqueued[..|s.q.dequeued| + 1]
  {
    hide Step, Inv, Run, ConsumerFree;
    var ring', k' := WaitGrants(s, ring, k, pr);
    TakesNext(Step(Step(Step(s, BeginWait(S.Block)), WaitStep), WaitStep), 14, ring', k', pr);
  }
}
