/** The LightweightSemaphore of src/base/concurrent/atomicops.h: an atomic count in front of a
    kernel semaphore, with one waiting thread and any number of signalling threads. */
module Semaphore {

  datatype WaitResult = NoWait | Acquired | GaveUp

  /** How a wait begins: tryWait(), wait() or wait(timeout). */
  datatype WaitMode = Try | Block | Timed

  /** Where the waiter stands; `timed` tells whether its kernel wait can time out. */
  datatype WaiterPc =
    | Idle(result: WaitResult)
    | TryLoad(mode: WaitMode)
    | TryTake
    | SpinLoad(timed: bool, left: nat)
    | SpinTake
    | Decrement(timed: bool)
    | InKernel(timed: bool)
    | Undo
    | Redo
    | TryKernel

  /** `posts` counts the signallers that have seen a waiter and not yet posted; `granted` and
      `signalled` are the totals of permits handed to the waiter and added by signals. */
  datatype State = State(count: int, kernel: nat, posts: nat, w: WaiterPc,
                         initial: nat, granted: nat, signalled: nat, assertFailed: bool)

  const SPINS: nat := 10000

  datatype Action =
    | BeginWait(mode: WaitMode)
    | WaitStep
    | Timeout
    | Signal(n: nat)
    | Post

  function New(initial: nat): State { State(initial, 0, 0, Idle(NoWait), initial, 0, 0, false) }

  function Grant(s: State): State { s.(w := Idle(Acquired), granted := s.granted + 1) }

  /** One atomic step of the waiter; blocked in the kernel it does nothing. */
  function Wait(s: State): State {
    match s.w
    case Idle(_) => s
    case TryLoad(mode) =>
      if s.count > 0 then s.(w := TryTake)
      else if mode.Try? then s.(w := Idle(GaveUp))
      else s.(w := SpinLoad(mode.Timed?, SPINS))
    case TryTake => Grant(s.(count := s.count - 1))
    case SpinLoad(timed, left) =>
      if left == 0 then s.(w := Decrement(timed))
      else if s.count > 0 then s.(w := SpinTake)
      else s.(w := SpinLoad(timed, left - 1))
    case SpinTake => Grant(s.(count := s.count - 1))
    case Decrement(timed) =>
      var s1 := s.(count := s.count - 1);
      if s.count > 0 then Grant(s1) else s1.(w := InKernel(timed))
    case InKernel(_) => if s.kernel > 0 then Grant(s.(kernel := s.kernel - 1)) else s
    case Undo =>
      var s1 := s.(count := s.count + 1);
      if s.count < 0 then s1.(w := Idle(GaveUp)) else s1.(w := Redo)
    case Redo =>
      var s1 := s.(count := s.count - 1);
      if s.count > 0 then s1.(w := TryKernel) else s1.(w := Undo)
    case TryKernel => if s.kernel > 0 then Grant(s.(kernel := s.kernel - 1)) else s.(w := Undo)
  }

  function Step(s: State, a: Action): State {
    match a
    case BeginWait(mode) => if s.w.Idle? then s.(w := TryLoad(mode)) else s
    case WaitStep => Wait(s)
    case Timeout => if s.w.InKernel? && s.w.timed then s.(w := Undo) else s
    case Signal(n) =>
      s.(count := s.count + n, signalled := s.signalled + n,
         posts := if s.count < 0 then s.posts + 1 else s.posts,
         assertFailed := s.assertFailed || s.count < -1)
    case Post => if s.posts > 0 then s.(posts := s.posts - 1, kernel := s.kernel + 1) else s
  }

  function Run(s: State, schedule: seq<Action>): State
    decreases |schedule|
  {
    if schedule == [] then s else Step(Run(s, schedule[..|schedule| - 1]), schedule[|schedule| - 1])
  }

  /** The waiter has taken its place by decrementing the count without getting a permit. */
  predicate Registered(w: WaiterPc) { w.InKernel? || w.Undo? || w.TryKernel? }

  /** Every permit ever available is in the count, granted, or (if a waiter is registered) the
      one unit the count runs behind; a wake-up is on its way exactly when one is owed. */
  predicate Inv(s: State) {
    && !s.assertFailed
    && s.count + s.granted + (if Registered(s.w) then 1 else 0) == s.initial + s.signalled
    && match s.w
       case TryTake => 1 <= s.count && s.posts + s.kernel == 0
       case SpinTake => 1 <= s.count && s.posts + s.kernel == 0
       case InKernel(_) => -1 <= s.count && s.posts + s.kernel == (if 0 <= s.count then 1 else 0)
       case Undo => -1 <= s.count && s.posts + s.kernel == (if 0 <= s.count then 1 else 0)
       case Redo => 1 <= s.count && s.posts + s.kernel == 1
       case TryKernel => 0 <= s.count && s.posts + s.kernel == 1
       case _ => 0 <= s.count && s.posts + s.kernel == 0
  }

  /** A signal adds at least one permit, unless nobody is waiting. */
  predicate Allowed(s: State, a: Action) { a.Signal? ==> 1 <= a.n || 0 <= s.count }

  lemma StepKeeps(s: State, a: Action)
    requires Inv(s) && Allowed(s, a)
    ensures Inv(Step(s, a))
  {
  }

  /** signal(n) adds n permits, and wakes the waiter exactly if the count was below zero. */
  lemma SignalAdds(s: State, n: nat)
    requires Inv(s)
    ensures var t := Step(s, Signal(n));
            && t.count == s.count + n && t.signalled == s.signalled + n
            && t.posts == (if s.count == -1 then s.posts + 1 else s.posts)
            && t.kernel == s.kernel && t.w == s.w && t.granted == s.granted && !t.assertFailed
  {
  }

  /** In every schedule of allowed actions, timeouts racing signals included, the count never
      drops below -1 and no more permits are granted than there were. */
  lemma NeverOvergrants(initial: nat, schedule: seq<Action>)
    requires Permitted(New(initial), schedule)
    ensures var s := Run(New(initial), schedule);
            Inv(s) && -1 <= s.count && !Overgranted(s) && s.initial == initial
  {
    RunKeeps(New(initial), schedule);
  }

  predicate Overgranted(s: State) { s.granted > s.initial + s.signalled }

  /** A schedule of allowed actions. */
  predicate Permitted(s: State, schedule: seq<Action>) {
    forall i | 0 <= i < |schedule| :: Allowed(Run(s, schedule[..i]), schedule[i])
  }

  lemma {:induction false} RunKeeps(s: State, schedule: seq<Action>)
    requires Inv(s) && Permitted(s, schedule)
    ensures Inv(Run(s, schedule)) && Run(s, schedule).initial == s.initial
    decreases |schedule|
  {
    if schedule != [] {
      hide Allowed;
      var n := |schedule| - 1;
      assert forall i | 0 <= i <= n :: schedule[..n][..i] == schedule[..i];
      RunKeeps(s, schedule[..n]);
      StepKeeps(Run(s, schedule[..n]), schedule[n]);
      SameInitial(Run(s, schedule[..n]), schedule[n]);
      hide Step;
    }
  }

  lemma SameInitial(s: State, a: Action)
    ensures Step(s, a).initial == s.initial
  {
  }

  lemma {:induction false} RunSplit(s: State, a: seq<Action>, b: seq<Action>)
    ensures Run(s, a + b) == Run(Run(s, a), b)
    decreases |b|
  {
    hide Step;
    if b == [] {
      assert a + b == a;
    } else {
      var n := |b| - 1;
      assert (a + b)[..|a + b| - 1] == a + b[..n];
      RunSplit(s, a, b[..n]);
    }
  }

  lemma RunOne(s: State, a: Action)
    ensures Run(s, [a]) == Step(s, a)
  {
    hide Step;
    assert [a][..0] == [] && Run(s, []) == s;
  }

  lemma {:induction false} SpinsDown(s: State, left: nat)
    requires s.w.SpinLoad? && s.w.left == left && s.count == 0
    ensures Run(s, seq(left + 1, _ => WaitStep)) == s.(w := Decrement(s.w.timed))
    decreases left
  {
    var rest := seq(left, _ => WaitStep);
    RunOne(s, WaitStep);
    RunSplit(s, [WaitStep], rest);
    assert seq(left + 1, _ => WaitStep) == [WaitStep] + rest;
    if left > 0 { SpinsDown(Step(s, WaitStep), left - 1); }
  }

  lemma NoSignals(s: State, schedule: seq<Action>)
    requires forall a | a in schedule :: !a.Signal?
    ensures Permitted(s, schedule)
  {
  }

  /** The waiter is blocked in the kernel: the post wakes it for nothing. */
  lemma BlockedOvergrants(s: State)
    requires Inv(s) && s.w.InKernel? && s.count == -1
    ensures Overgranted(Run(Step(s, Signal(0)), [Post, WaitStep]))
  {
    var t := Step(s, Signal(0));
    RunOne(t, Post);
    RunOne(Step(t, Post), WaitStep);
    RunSplit(t, [Post], [WaitStep]);
    assert [Post] + [WaitStep] == [Post, WaitStep];
  }

  /** The waiter has timed out and takes its place back: the post is left over for its next wait. */
  function LeftOver(): seq<Action> {
    [Post, WaitStep, BeginWait(Block), WaitStep] + seq(SPINS + 1, _ => WaitStep) + [WaitStep, WaitStep]
  }

  lemma UndoneOvergrants(s: State)
    requires Inv(s) && s.w.Undo? && s.count == -1
    ensures Overgranted(Run(Step(s, Signal(0)), LeftOver()))
  {
    var begin, end := [Post, WaitStep, BeginWait(Block), WaitStep], [WaitStep, WaitStep];
    var spins := seq(SPINS + 1, _ => WaitStep);
    var t := Step(s, Signal(0));
    var u := t.(posts := 0, kernel := 1, count := 0, w := SpinLoad(false, SPINS));
    RunFour(t, Post, WaitStep, BeginWait(Block), WaitStep);
    assert Run(t, begin) == u;
    SpinsDown(u, SPINS);
    var v := u.(w := Decrement(false));
    RunOne(v, WaitStep);
    RunOne(Step(v, WaitStep), WaitStep);
    RunSplit(v, [WaitStep], [WaitStep]);
    assert [WaitStep] + [WaitStep] == end;
    RunSplit(t, begin, spins);
    RunSplit(t, begin + spins, end);
  }

  lemma RunFour(s: State, a: Action, b: Action, c: Action, d: Action)
    ensures Run(s, [a, b, c, d]) == Step(Step(Step(Step(s, a), b), c), d)
  {
    hide Step;
    RunOne(s, a);
    RunOne(Step(s, a), b);
    RunSplit(s, [a], [b]);
    RunOne(Step(Step(s, a), b), c);
    RunSplit(s, [a] + [b], [c]);
    RunOne(Step(Step(Step(s, a), b), c), d);
    RunSplit(s, [a] + [b] + [c], [d]);
    assert [a] + [b] + [c] + [d] == [a, b, c, d];
  }

  /** signal(0), which the assert of the source admits, gives away a permit that does not exist
      whenever it finds the count below zero: behind it there is a schedule without any signal that
      grants more permits than there are. */
  lemma ZeroSignalOvergrants(s: State)
    requires Inv(s) && !Allowed(s, Signal(0))
    ensures exists schedule: seq<Action> ::
              && (forall a | a in schedule :: !a.Signal?)
              && Overgranted(Run(Step(s, Signal(0)), schedule))
  {
    if s.w.InKernel? {
      BlockedOvergrants(s);
    } else {
      UndoneOvergrants(s);
    }
  }

  lemma InvIsFair(s: State)
    requires Inv(s)
    ensures !Overgranted(s)
  {
  }

  /** The condition on signals is exact: an action is allowed if and only if no schedule of allowed
      actions behind it grants more permits than there are. */
  lemma AllowedIsExact(s: State, a: Action)
    requires Inv(s)
    ensures Allowed(s, a) <==>
              forall schedule | Permitted(Step(s, a), schedule) :: !Overgranted(Run(Step(s, a), schedule))
  {
    hide Step, Run, Inv, Overgranted, Permitted;
    if Allowed(s, a) {
      StepKeeps(s, a);
      forall schedule | Permitted(Step(s, a), schedule) ensures !Overgranted(Run(Step(s, a), schedule)) {
        RunKeeps(Step(s, a), schedule);
        InvIsFair(Run(Step(s, a), schedule));
      }
    } else {
      ZeroSignalOvergrants(s);
      var schedule: seq<Action> :|
        (forall b | b in schedule :: !b.Signal?) && Overgranted(Run(Step(s, Signal(0)), schedule));
      NoSignals(Step(s, a), schedule);
    }
  }

  /** Such a state is reached: a wait on an empty semaphore ends up blocked in the kernel. */
  lemma {:induction false} WaiterBlocks(s: State, left: nat)
    requires s.w == SpinLoad(false, left) && s.count == 0 && Inv(s)
    ensures exists n: nat :: Waits(s, n).w == InKernel(false) && Waits(s, n).count == -1 && Inv(Waits(s, n))
    decreases left
  {
    if left == 0 {
      assert Waits(s, 0) == s && Waits(s, 1) == Wait(s) && Waits(s, 2) == Wait(Wait(s));
      StepKeeps(s, WaitStep);
      StepKeeps(Wait(s), WaitStep);
    } else {
      StepKeeps(s, WaitStep);
      WaiterBlocks(Wait(s), left - 1);
      var n: nat :| Waits(Wait(s), n).w == InKernel(false) && Waits(Wait(s), n).count == -1 && Inv(Waits(Wait(s), n));
      WaitsFirst(s, n);
    }
  }

  function Waits(s: State, n: nat): State { if n == 0 then s else Wait(Waits(s, n - 1)) }

  lemma {:induction false} WaitsFirst(s: State, n: nat)
    ensures Waits(s, n + 1) == Waits(Wait(s), n)
  {
    if n > 0 { WaitsFirst(s, n - 1); }
  }

  /** A waiter that finds no permit looks ten thousand times more before it takes its place. */
  lemma SpinsTenThousand(s: State)
    requires s.w.TryLoad? && !s.w.mode.Try? && s.count == 0
    ensures Run(s, seq(10002, _ => WaitStep)) == s.(w := Decrement(s.w.mode.Timed?))
  {
    RunOne(s, WaitStep);
    SpinsDown(Step(s, WaitStep), SPINS);
    RunSplit(s, [WaitStep], seq(SPINS + 1, _ => WaitStep));
    assert seq(10002, _ => WaitStep) == [WaitStep] + seq(SPINS + 1, _ => WaitStep);
  }

  // ---------------------------------------------------------------- single waits

  predicate BeginsWait(s: State, a: Action) { a.BeginWait? && s.w.Idle? }

  /** Where a wait that found the semaphore as s has come to. */
  predicate InWait(s: State, t: State, mode: WaitMode) {
    && t.granted == (if t.w == Idle(Acquired) then s.granted + 1 else s.granted)
    && match t.w
       case Idle(r) => r == Acquired || (r == GaveUp && !mode.Block?)
       case TryLoad(m) => m == mode
       case TryTake => true
       case SpinLoad(timed, _) => !mode.Try? && timed == mode.Timed?
       case SpinTake => !mode.Try?
       case Decrement(timed) => !mode.Try? && timed == mode.Timed?
       case InKernel(timed) => !mode.Try? && timed == mode.Timed?
       case Undo => mode.Timed?
       case Redo => mode.Timed?
       case TryKernel => mode.Timed?
  }

  /** The wait has timed out in the kernel. */
  predicate TimedOut(w: WaiterPc, mode: WaitMode) {
    w.Undo? || w.Redo? || w.TryKernel? || (mode.Timed? && w == Idle(GaveUp))
  }

  lemma StepOfWait(s: State, t: State, a: Action, mode: WaitMode)
    requires InWait(s, t, mode) && !BeginsWait(t, a)
    ensures var u := Step(t, a);
            && InWait(s, u, mode)
            && (t.w.Idle? ==> u.w == t.w)
            && (!t.w.Idle? && u.w == Idle(GaveUp) ==> a == WaitStep && u.count <= 0)
            && (TimedOut(u.w, mode) && !TimedOut(t.w, mode) ==> a == Timeout && t.w.InKernel?)
  {
  }

  lemma RunNext(s: State, schedule: seq<Action>, n: int)
    requires 0 <= n < |schedule|
    ensures Run(s, schedule[..n + 1]) == Step(Run(s, schedule[..n]), schedule[n])
  {
    hide Step;
    assert schedule[..n + 1][..n] == schedule[..n];
  }

  /** A wait begun at instant b and not followed by another, whatever the signallers do: it comes
      back with one permit, or without any; wait() never comes back without; any wait that does found
      no permit at the moment it gave up, and wait(timeout) had timed out in the kernel before. */
  lemma WaitCall(s0: State, schedule: seq<Action>, b: int)
    requires 0 <= b < |schedule| && schedule[b].BeginWait? && BeginsWait(Run(s0, schedule[..b]), schedule[b])
    requires forall j | b < j < |schedule| :: !BeginsWait(Run(s0, schedule[..j]), schedule[j])
    ensures var s, t, mode := Run(s0, schedule[..b]), Run(s0, schedule), schedule[b].mode;
            && t.granted == (if t.w == Idle(Acquired) then s.granted + 1 else s.granted)
            && (t.w.Idle? ==> t.w.result == Acquired || (t.w.result == GaveUp && mode != Block))
            && (t.w == Idle(GaveUp) ==>
                  exists j | b < j < |schedule| && schedule[j] == WaitStep ::
                    !Run(s0, schedule[..j]).w.Idle? && Run(s0, schedule[..j + 1]).count <= 0)
            && (t.w == Idle(GaveUp) && mode == Timed ==>
                  exists j | b < j < |schedule| && schedule[j] == Timeout :: Run(s0, schedule[..j]).w.InKernel?)
  {
    hide Step, Run;
    WaitRuns(s0, schedule, b, |schedule|);
    assert schedule[..|schedule|] == schedule;
  }

  lemma {:induction false} WaitRuns(s0: State, schedule: seq<Action>, b: int, n: int)
    requires 0 <= b < n <= |schedule| && schedule[b].BeginWait? && BeginsWait(Run(s0, schedule[..b]), schedule[b])
    requires forall j | b < j < n :: !BeginsWait(Run(s0, schedule[..j]), schedule[j])
    ensures var t, mode := Run(s0, schedule[..n]), schedule[b].mode;
            && InWait(Run(s0, schedule[..b]), t, mode)
            && (t.w == Idle(GaveUp) ==>
                  exists j | b < j < n && schedule[j] == WaitStep ::
                    !Run(s0, schedule[..j]).w.Idle? && Run(s0, schedule[..j + 1]).count <= 0)
            && (TimedOut(t.w, mode) ==>
                  exists j | b < j < n && schedule[j] == Timeout :: Run(s0, schedule[..j]).w.InKernel?)
    decreases n
  {
    hide Step, InWait, TimedOut, BeginsWait;
    RunNext(s0, schedule, n - 1);
    if n == b + 1 {
      WaitBegins(Run(s0, schedule[..b]), schedule[b]);
    } else {
      WaitRuns(s0, schedule, b, n - 1);
      StepOfWait(Run(s0, schedule[..b]), Run(s0, schedule[..n - 1]), schedule[n - 1], schedule[b].mode);
    }
  }

  lemma WaitBegins(s: State, a: Action)
    requires a.BeginWait? && BeginsWait(s, a)
    ensures InWait(s, Step(s, a), a.mode) && !TimedOut(Step(s, a).w, a.mode) && !Step(s, a).w.Idle?
  {
  }

  // ---------------------------------------------------------------- no lost wake-up

  /** A permit is there for the waiter: the count is positive, or no longer behind on its account. */
  predicate PermitFor(s: State) {
    s.count > 0 || (s.count == 0 && Registered(s.w))
  }

  /** A waiter for which there is a permit gets it in four steps of its own at most, once the signaller
      that saw it has posted. */
  lemma WaitEnds(s: State) returns (n: nat)
    requires Inv(s) && !s.w.Idle? && PermitFor(s)
    ensures 1 <= n <= 4 && Run(s, [Post] + seq(n, _ => WaitStep)).w == Idle(Acquired)
  {
    hide Inv;
    var t := Step(s, Post);
    PostKeeps(s);
    n := Ends(t);
    RunOne(s, Post);
    RunSplit(s, [Post], seq(n, _ => WaitStep));
    RunWaits(t, n);
  }

  lemma PostKeeps(s: State)
    requires Inv(s)
    ensures Inv(Step(s, Post)) && Step(s, Post).posts == 0 && Step(s, Post).w == s.w
    ensures PermitFor(Step(s, Post)) == PermitFor(s)
  {
  }

  lemma {:induction false} RunWaits(s: State, n: nat)
    ensures Run(s, seq(n, _ => WaitStep)) == Waits(s, n)
  {
    if n > 0 {
      RunWaits(s, n - 1);
      assert seq(n, _ => WaitStep)[..n - 1] == seq(n - 1, _ => WaitStep);
    }
  }

  lemma Ends(s: State) returns (n: nat)
    requires Inv(s) && !s.w.Idle? && PermitFor(s) && s.posts == 0
    ensures 1 <= n <= 4 && Waits(s, n).w == Idle(Acquired)
  {
    var a, b := Wait(s), Wait(Wait(s));
    FourWaits(s);
    n := if a.w == Idle(Acquired) then 1 else if b.w == Idle(Acquired) then 2
         else if Wait(b).w == Idle(Acquired) then 3 else 4;
  }

  lemma FourWaits(s: State)
    ensures Waits(s, 1) == Wait(s) && Waits(s, 2) == Wait(Wait(s)) && Waits(s, 3) == Wait(Wait(Wait(s)))
    ensures Waits(s, 4) == Wait(Wait(Wait(Wait(s))))
  {
    hide Wait;
    assert Waits(s, 0) == s;
  }

  // ---------------------------------------------------------------- timeouts

  /** A timed waiter in the kernel for whom no permit is there can give up: after the timeout one step
      puts the count back.  A waiter without a timeout stays. */
  lemma TimeoutGivesUp(s: State)
    requires Inv(s) && s.w.InKernel? && s.count < 0
    ensures var t := Run(s, [Timeout, WaitStep]);
            if s.w.timed then t == s.(w := Idle(GaveUp), count := 0) else t == s
  {
    RunOne(s, Timeout);
    RunSplit(s, [Timeout], [WaitStep]);
    RunOne(Step(s, Timeout), WaitStep);
    assert [Timeout] + [WaitStep] == [Timeout, WaitStep];
  }
}
