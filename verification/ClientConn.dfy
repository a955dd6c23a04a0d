/** The pipelined client of src/io/KjRedisClientConn: a queue of command pipelines that survives the
    loss of its connection.

    The connection is a state machine over sends, commits, replies, failures and connects.  Beside
    the state of the source each step keeps a log of what was sent, written, answered and completed;
    the laws are about that log. */
module ClientConn {
  import opened Wrappers
  import opened RespMachine
  import opened ReplyBuilder

  // ---------------------------------------------------------------- data

  datatype State = Queueing | Sending | Committing | Processing | ProcessOver

  /** The part of a pipeline that never changes. */
  datatype Job = Job(sn: int, commands: seq<int>, built: int)

  datatype Pipeline = Pipeline(job: Job, processed: int, state: State)

  /** `open`: there is a stream to write to.  `connected` stays true while reconnecting.  `reading`:
      the read loop has not failed. */
  datatype Conn = Conn(init: seq<Pipeline>, dq: seq<Pipeline>, committing: int, open: bool, connected: bool,
      reading: bool)

  /** A pipeline to be written on the connection, with the replies counted for it before. */
  datatype Due = Due(job: Job, start: int)

  /** sent, completed, disposed: since the beginning; disposed lists the calls of dispose callbacks.
      The rest is about the present connection: what it has to write and has written, the replies it
      read, the number of pipelines they completed and the replies passed to their callbacks. */
  datatype Log = Log(sent: seq<Job>, completed: seq<Job>, disposed: seq<Job>,
                     due: seq<Due>, written: seq<Job>, replies: seq<Value>, done: int, got: seq<Value>)

  datatype World = World(c: Conn, l: Log)

  /** A reply, and which of the two callbacks would throw, should it complete a pipeline. */
  datatype Answer = Answer(value: Value, replyThrows: bool, disposeThrows: bool)

  /** `writes` is the number of writes after which the stream throws, if it is not negative. */
  datatype Event =
    | Send(p: Pipeline)
    | Commit(writes: int)
    | Receive(answers: seq<Answer>)
    | Fail
    | Connect(writes: int)

  function InFlight(s: State): bool { s == Committing || s == Processing || s == ProcessOver }

  // ---------------------------------------------------------------- steps

  function SendOne(w: World, p: Pipeline): World {
    World(w.c.(dq := w.c.dq + [p.(state := Sending)]),
          w.l.(sent := w.l.sent + [p.job], due := w.l.due + [Due(p.job, p.processed)]))
  }

  /** Where the commit loop ends: behind the queue, or at the pipeline whose write throws. */
  function StopAt(dq: seq<Pipeline>, i: int, writes: int): (n: int)
    requires 0 <= i <= |dq|
    ensures i <= n <= |dq|
    decreases |dq| - i
  {
    if i == |dq| then i
    else if dq[i].state != Sending then StopAt(dq, i + 1, writes)
    else if writes == 0 then i
    else StopAt(dq, i + 1, writes - 1)
  }

  function Commit1(p: Pipeline): Pipeline { if p.state == Sending then p.(state := Committing) else p }

  function Committed(dq: seq<Pipeline>, n: int): (r: seq<Pipeline>)
    requires 0 <= n <= |dq|
    ensures |r| == |dq|
  {
    seq(|dq|, i requires 0 <= i < |dq| => if i < n then Commit1(dq[i]) else dq[i])
  }

  /** The jobs of the pipelines still to be written. */
  function Unwritten(dq: seq<Pipeline>): seq<Job> {
    if dq == [] then []
    else
      var p := dq[|dq| - 1];
      Unwritten(dq[..|dq| - 1]) + if p.state == Sending then [p.job] else []
  }

  /** CommitLoop; a null stream swallows writes and never throws. */
  function CommitAll(w: World, writes: int): World {
    if !w.c.connected then w
    else
      var n := StopAt(w.c.dq, 0, if w.c.open then writes else -1);
      var jobs := Unwritten(w.c.dq[..n]);
      World(w.c.(dq := Committed(w.c.dq, n), committing := w.c.committing + |jobs|),
            if w.c.open then w.l.(written := w.l.written + jobs) else w.l)
  }

  function Throw(w: World): World { w.(c := w.c.(reading := false)) }

  function ReceiveOne(w: World, a: Answer): World {
    var dq := w.c.dq;
    if a.value.VString? && a.value.kind == Error then Throw(w)
    else if w.c.committing <= 0 || dq == [] then Throw(w)
    else if !InFlight(dq[0].state) then Throw(w)
    else
      var p := dq[0].(processed := dq[0].processed + 1, state := Processing);
      var l := w.l.(replies := w.l.replies + [a.value]);
      if p.processed < p.job.built then World(w.c.(dq := dq[0 := p]), l)
      else if a.replyThrows then Throw(World(w.c.(dq := dq[0 := p]), l))
      else
        var l' := l.(disposed := l.disposed + [p.job]);
        if a.disposeThrows then Throw(World(w.c.(dq := dq[0 := p]), l'))
        else World(w.c.(dq := dq[1..], committing := w.c.committing - 1),
                   l'.(completed := l'.completed + [p.job], done := l'.done + 1, got := l'.got + [a.value]))
  }

  /** The loop of OnClientReceive, until an exception ends it. */
  function ReceiveAll(w: World, answers: seq<Answer>): World
    decreases |answers|
  {
    if answers == [] || !w.c.reading then w else ReceiveAll(ReceiveOne(w, answers[0]), answers[1..])
  }

  function WithState(dq: seq<Pipeline>, s: State): (r: seq<Pipeline>)
    ensures |r| == |dq|
  {
    seq(|dq|, i requires 0 <= i < |dq| => dq[i].(state := s))
  }

  /** The deferred part of taskFailed. */
  function FailOne(w: World): World {
    w.(c := w.c.(open := false, reading := false, dq := WithState(w.c.dq, Queueing), committing := 0))
  }

  predicate Survives(p: Pipeline) { p.job.sn > 0 && p.state != ProcessOver }

  function Survivors(dq: seq<Pipeline>): seq<Pipeline> {
    if dq == [] then []
    else
      var p := dq[|dq| - 1];
      Survivors(dq[..|dq| - 1]) + if Survives(p) then [p] else []
  }

  function Dues(dq: seq<Pipeline>): (r: seq<Due>)
    ensures |r| == |dq|
  {
    seq(|dq|, i requires 0 <= i < |dq| => Due(dq[i].job, dq[i].processed))
  }

  /** OnClientConnect, up to its commit. */
  function Connected(w: World): World {
    var dq := WithState(w.c.init + Survivors(w.c.dq), Sending);
    World(w.c.(dq := dq, open := true, connected := true, reading := true),
          w.l.(due := Dues(dq), written := [], replies := [], done := 0, got := []))
  }

  function Do(w: World, e: Event): World {
    match e
    case Send(p) => SendOne(w, p)
    case Commit(writes) => CommitAll(w, writes)
    case Receive(answers) => if w.c.open then ReceiveAll(w, answers) else w
    case Fail => FailOne(w)
    case Connect(writes) => if w.c.open then w else CommitAll(Connected(w), writes)
  }

  function DoAll(w: World, es: seq<Event>): World {
    if es == [] then w else Do(DoAll(w, es[..|es| - 1]), es[|es| - 1])
  }

  function Fresh(init: seq<Pipeline>): World {
    World(Conn(init, [], 0, false, false, false), Log([], [], [], [], [], [], 0, []))
  }

  // ---------------------------------------------------------------- invariant

  function Users(jobs: seq<Job>): seq<Job> {
    if jobs == [] then []
    else
      var j := jobs[|jobs| - 1];
      Users(jobs[..|jobs| - 1]) + if j.sn > 0 then [j] else []
  }

  function Jobs(dq: seq<Pipeline>): (r: seq<Job>)
    ensures |r| == |dq|
  {
    seq(|dq|, i requires 0 <= i < |dq| => dq[i].job)
  }

  function DueJobs(due: seq<Due>): (r: seq<Job>)
    ensures |r| == |due|
  {
    seq(|due|, i requires 0 <= i < |due| => due[i].job)
  }

  /** Nobody's pipeline is lost, duplicated or overtaken. */
  predicate Kept(w: World) {
    && Users(w.l.completed) + Users(Jobs(w.c.dq)) == Users(w.l.sent)
    && (forall p | p in w.c.dq :: p.state != ProcessOver)
    && (forall p | p in w.c.init :: p.job.sn <= 0)
  }

  /** What was written on this connection and what is still to be written is what was due, in order. */
  predicate Ordered(w: World) {
    w.c.open ==> w.c.connected && w.l.written + Unwritten(w.c.dq) == DueJobs(w.l.due)
  }

  function CountInFlight(dq: seq<Pipeline>): nat {
    if dq == [] then 0
    else CountInFlight(dq[..|dq| - 1]) + if InFlight(dq[|dq| - 1].state) then 1 else 0
  }

  predicate Counted(w: World) { CountInFlight(w.c.dq) <= w.c.committing }

  /** The replies a pipeline takes before it is complete. */
  function Need(d: Due): int { if d.job.built - d.start > 1 then d.job.built - d.start else 1 }

  function NeedSum(due: seq<Due>, k: int): int
    requires k <= |due|
    decreases k
  {
    if k <= 0 then 0 else NeedSum(due, k - 1) + Need(due[k - 1])
  }

  /** The pipelines at work are the ones due and not done. */
  predicate Aligned(w: World) {
    && 0 <= w.l.done && |w.c.dq| == |w.l.due| - w.l.done
    && (forall i | 0 <= i < |w.c.dq| :: w.c.dq[i].job == w.l.due[w.l.done + i].job)
    && (forall i | 1 <= i < |w.c.dq| :: w.c.dq[i].processed == w.l.due[w.l.done + i].start)
  }

  /** The replies read were all counted for the pipeline whose turn it was. */
  predicate Matched(w: World) {
    w.c.open && w.c.reading ==>
      && Aligned(w)
      && (w.c.dq == [] ==> |w.l.replies| == NeedSum(w.l.due, w.l.done))
      && (w.c.dq != [] ==>
            var n := w.c.dq[0].processed - w.l.due[w.l.done].start;
            && 0 <= n && (n > 0 ==> w.c.dq[0].processed < w.c.dq[0].job.built)
            && |w.l.replies| == NeedSum(w.l.due, w.l.done) + n)
      && |w.l.got| == w.l.done
      && forall k | 0 <= k < w.l.done :: GotOwn(w.l, k)
  }

  /** Callback k got the reply that was the last one its pipeline waited for. */
  predicate GotOwn(l: Log, k: int)
    requires 0 <= k < |l.got| && k < |l.due|
  {
    0 < NeedSum(l.due, k + 1) <= |l.replies| && l.got[k] == l.replies[NeedSum(l.due, k + 1) - 1]
  }

  predicate Inv(w: World) { Kept(w) && Ordered(w) && Counted(w) && Matched(w) }

  // ---------------------------------------------------------------- sequences

  lemma {:induction false} UsersConcat(a: seq<Job>, b: seq<Job>)
    ensures Users(a + b) == Users(a) + Users(b)
    decreases |b|
  {
    if b == [] {
      assert a + b == a;
    } else {
      var n := |b| - 1;
      assert (a + b)[..|a + b| - 1] == a + b[..n];
      UsersConcat(a, b[..n]);
    }
  }

  lemma {:induction false} UnwrittenConcat(a: seq<Pipeline>, b: seq<Pipeline>)
    ensures Unwritten(a + b) == Unwritten(a) + Unwritten(b)
    decreases |b|
  {
    if b == [] {
      assert a + b == a;
    } else {
      var n := |b| - 1;
      assert (a + b)[..|a + b| - 1] == a + b[..n];
      UnwrittenConcat(a, b[..n]);
    }
  }

  lemma {:induction false} CountConcat(a: seq<Pipeline>, b: seq<Pipeline>)
    ensures CountInFlight(a + b) == CountInFlight(a) + CountInFlight(b)
    decreases |b|
  {
    if b == [] {
      assert a + b == a;
    } else {
      var n := |b| - 1;
      assert (a + b)[..|a + b| - 1] == a + b[..n];
      CountConcat(a, b[..n]);
    }
  }

  lemma One(p: Pipeline)
    ensures Unwritten([p]) == (if p.state == Sending then [p.job] else [])
    ensures CountInFlight([p]) == (if InFlight(p.state) then 1 else 0)
    ensures Users([p.job]) == (if p.job.sn > 0 then [p.job] else [])
  {
    assert [p][..0] == [] && [p.job][..0] == [];
  }

  /** The queue with its front apart. */
  lemma Front(dq: seq<Pipeline>)
    requires dq != []
    ensures Unwritten(dq) == (if dq[0].state == Sending then [dq[0].job] else []) + Unwritten(dq[1..])
    ensures CountInFlight(dq) == (if InFlight(dq[0].state) then 1 else 0) + CountInFlight(dq[1..])
    ensures Users(Jobs(dq)) == (if dq[0].job.sn > 0 then [dq[0].job] else []) + Users(Jobs(dq[1..]))
  {
    hide Unwritten, CountInFlight, Users;
    assert dq == [dq[0]] + dq[1..];
    UnwrittenConcat([dq[0]], dq[1..]);
    CountConcat([dq[0]], dq[1..]);
    assert Jobs(dq) == [dq[0].job] + Jobs(dq[1..]);
    UsersConcat([dq[0].job], Jobs(dq[1..]));
    One(dq[0]);
  }

  // ---------------------------------------------------------------- committing

  lemma CommittedParts(dq: seq<Pipeline>, n: int)
    requires 0 <= n <= |dq|
    ensures Committed(dq, n) == Committed(dq[..n], n) + dq[n..] && Jobs(Committed(dq, n)) == Jobs(dq)
  {
  }

  lemma {:induction false} CommittedAll(dq: seq<Pipeline>)
    ensures Unwritten(Committed(dq, |dq|)) == []
    ensures CountInFlight(Committed(dq, |dq|)) == CountInFlight(dq) + |Unwritten(dq)|
  {
    if dq != [] {
      var n := |dq| - 1;
      assert Committed(dq, |dq|)[..n] == Committed(dq[..n], n);
      CommittedAll(dq[..n]);
    }
  }

  /** Committing moves jobs from those to be written to those written, and counts them. */
  lemma CommitMoves(dq: seq<Pipeline>, n: int)
    requires 0 <= n <= |dq|
    ensures Unwritten(dq) == Unwritten(dq[..n]) + Unwritten(Committed(dq, n))
    ensures CountInFlight(Committed(dq, n)) == CountInFlight(dq) + |Unwritten(dq[..n])|
  {
    hide Unwritten, CountInFlight, Committed;
    assert dq == dq[..n] + dq[n..];
    CommittedParts(dq, n);
    CommittedAll(dq[..n]);
    UnwrittenConcat(dq[..n], dq[n..]);
    UnwrittenConcat(Committed(dq[..n], n), dq[n..]);
    CountConcat(dq[..n], dq[n..]);
    CountConcat(Committed(dq[..n], n), dq[n..]);
  }

  lemma CommitKeeps(w: World, writes: int)
    requires Inv(w)
    ensures Inv(CommitAll(w, writes))
  {
    hide Unwritten, CountInFlight, Users, NeedSum, GotOwn;
    if w.c.connected {
      var n := StopAt(w.c.dq, 0, if w.c.open then writes else -1);
      CommitMoves(w.c.dq, n);
      CommittedParts(w.c.dq, n);
      var jobs := Unwritten(w.c.dq[..n]);
      CommitKeepsMatched(w, n, w.c.committing + |jobs|, if w.c.open then w.l.written + jobs else w.l.written);
    }
  }

  lemma CommitKeepsMatched(w: World, n: int, m: int, jobs: seq<Job>)
    requires Matched(w) && 0 <= n <= |w.c.dq|
    ensures Matched(World(w.c.(dq := Committed(w.c.dq, n), committing := m), w.l.(written := jobs)))
  {
    hide NeedSum, Need;
    var w' := World(w.c.(dq := Committed(w.c.dq, n), committing := m), w.l.(written := jobs));
    if w.c.open && w.c.reading {
      forall k | 0 <= k < w.l.done ensures GotOwn(w'.l, k) {
        assert GotOwn(w.l, k);
      }
    }
  }

  // ---------------------------------------------------------------- the other steps

  lemma SendKeeps(w: World, p: Pipeline)
    requires Inv(w)
    ensures Inv(SendOne(w, p))
  {
    hide SendOne, Kept, Ordered, Counted, Matched;
    SendKeepsKept(w, p);
    SendKeepsOrdered(w, p);
    SendKeepsMatched(w, p);
  }

  lemma SendKeepsKept(w: World, p: Pipeline)
    requires Kept(w)
    ensures Kept(SendOne(w, p))
  {
    hide Users;
    UsersConcat(Jobs(w.c.dq), [p.job]);
    UsersConcat(w.l.sent, [p.job]);
    assert Jobs(w.c.dq + [p.(state := Sending)]) == Jobs(w.c.dq) + [p.job];
  }

  lemma SendKeepsOrdered(w: World, p: Pipeline)
    requires Ordered(w) && Counted(w)
    ensures Ordered(SendOne(w, p)) && Counted(SendOne(w, p))
  {
    hide Unwritten, CountInFlight;
    var q := p.(state := Sending);
    UnwrittenConcat(w.c.dq, [q]);
    CountConcat(w.c.dq, [q]);
    One(q);
    assert DueJobs(w.l.due + [Due(p.job, p.processed)]) == DueJobs(w.l.due) + [p.job];
  }

  lemma {:induction false} NeedSumPrefix(due: seq<Due>, more: seq<Due>, k: int)
    requires k <= |due|
    ensures NeedSum(due + more, k) == NeedSum(due, k)
    decreases k
  {
    if k > 0 { NeedSumPrefix(due, more, k - 1); }
  }

  lemma SendKeepsMatched(w: World, p: Pipeline)
    requires Matched(w)
    ensures Matched(SendOne(w, p))
  {
    hide NeedSum, Need;
    var w', d := SendOne(w, p), Due(p.job, p.processed);
    if w.c.open && w.c.reading {
      NeedSumPrefix(w.l.due, [d], w.l.done);
      forall k | 0 <= k < w.l.done ensures GotOwn(w'.l, k) {
        NeedSumPrefix(w.l.due, [d], k + 1);
        assert GotOwn(w.l, k);
      }
    }
  }

  lemma {:induction false} StatesQueueing(dq: seq<Pipeline>, s: State)
    requires s == Queueing || s == Sending
    ensures CountInFlight(WithState(dq, s)) == 0
    ensures s == Sending ==> Unwritten(WithState(dq, s)) == Jobs(dq)
  {
    if dq != [] {
      var n := |dq| - 1;
      assert WithState(dq, s)[..n] == WithState(dq[..n], s);
      StatesQueueing(dq[..n], s);
      assert Jobs(dq) == Jobs(dq[..n]) + [dq[n].job];
    }
  }

  lemma FailKeeps(w: World)
    requires Inv(w)
    ensures Inv(FailOne(w))
  {
    hide Unwritten, CountInFlight, Users;
    StatesQueueing(w.c.dq, Queueing);
    assert Jobs(WithState(w.c.dq, Queueing)) == Jobs(w.c.dq);
  }

  /** Reconnecting drops nothing but what is not a user's. */
  lemma {:induction false} SurvivorsKeepUsers(dq: seq<Pipeline>)
    requires forall p | p in dq :: p.state != ProcessOver
    ensures Jobs(Survivors(dq)) == Users(Jobs(dq)) && forall p | p in Survivors(dq) :: p in dq
  {
    if dq != [] {
      var n := |dq| - 1;
      var p := dq[n];
      SurvivorsKeepUsers(dq[..n]);
      assert Jobs(dq)[..n] == Jobs(dq[..n]);
      if Survives(p) {
        var s := Survivors(dq[..n]);
        assert Jobs(s + [p])[..|s|] == Jobs(s);
      } else {
        assert Survivors(dq[..n]) + [] == Survivors(dq[..n]);
      }
    }
  }

  lemma {:induction false} UsersTwice(jobs: seq<Job>)
    ensures Users(Users(jobs)) == Users(jobs)
  {
    if jobs != [] {
      var n := |jobs| - 1;
      UsersTwice(jobs[..n]);
      if jobs[n].sn > 0 {
        assert (Users(jobs[..n]) + [jobs[n]])[..|Users(jobs[..n])|] == Users(jobs[..n]);
      } else {
        assert Users(jobs) == Users(jobs[..n]);
      }
    }
  }

  lemma {:induction false} NoUsers(jobs: seq<Job>)
    requires forall j | j in jobs :: j.sn <= 0
    ensures Users(jobs) == []
  {
    if jobs != [] { NoUsers(jobs[..|jobs| - 1]); }
  }

  lemma ConnectKeeps(w: World)
    requires Inv(w)
    ensures Inv(Connected(w))
  {
    hide Unwritten, CountInFlight, Users, Survivors;
    var s := Survivors(w.c.dq);
    var dq := w.c.init + s;
    SurvivorsKeepUsers(w.c.dq);
    StatesQueueing(dq, Sending);
    assert Jobs(WithState(dq, Sending)) == Jobs(dq) == DueJobs(Dues(dq)) == Jobs(w.c.init) + Jobs(s);
    UsersConcat(Jobs(w.c.init), Jobs(s));
    NoUsers(Jobs(w.c.init));
    UsersTwice(Jobs(w.c.dq));
    assert DueJobs(Dues(WithState(dq, Sending))) == Jobs(dq);
  }

  // ---------------------------------------------------------------- receiving

  /** The front pipeline after one more reply. */
  function Answered(w: World): Pipeline
    requires w.c.dq != []
  {
    w.c.dq[0].(processed := w.c.dq[0].processed + 1, state := Processing)
  }

  function Advance(w: World, v: Value): World
    requires w.c.dq != []
  {
    World(w.c.(dq := w.c.dq[0 := Answered(w)]), w.l.(replies := w.l.replies + [v]))
  }

  function Complete(w: World, v: Value): World
    requires w.c.dq != []
  {
    World(w.c.(dq := w.c.dq[1..], committing := w.c.committing - 1),
          w.l.(completed := w.l.completed + [w.c.dq[0].job], disposed := w.l.disposed + [w.c.dq[0].job],
               done := w.l.done + 1, replies := w.l.replies + [v], got := w.l.got + [v]))
  }

  /** The dispose callback of the front pipeline is called. */
  function Dispose(w: World): World
    requires w.c.dq != []
  {
    w.(l := w.l.(disposed := w.l.disposed + [w.c.dq[0].job]))
  }

  lemma AdvanceKeeps(w: World, v: Value)
    requires Kept(w) && Ordered(w) && Counted(w) && w.c.dq != [] && InFlight(w.c.dq[0].state)
    ensures var w' := Advance(w, v); Kept(w') && Ordered(w') && Counted(w')
    ensures var w' := Advance(Dispose(w), v); Kept(w') && Ordered(w') && Counted(w')
  {
    hide Unwritten, CountInFlight, Users;
    var dq, dq' := w.c.dq, Advance(w, v).c.dq;
    Front(dq);
    Front(dq');
    assert dq'[1..] == dq[1..] && Jobs(dq') == Jobs(dq);
  }

  lemma CompleteKeeps(w: World, v: Value)
    requires Kept(w) && Ordered(w) && Counted(w) && w.c.dq != [] && InFlight(w.c.dq[0].state)
    ensures var w' := Complete(w, v); Kept(w') && Ordered(w') && Counted(w')
  {
    hide Unwritten, CountInFlight, Users;
    var dq, job := w.c.dq, w.c.dq[0].job;
    Front(dq);
    One(dq[0]);
    UsersConcat(w.l.completed, [job]);
    assert forall p | p in dq[1..] :: p in dq;
  }

  lemma AdvanceKeepsMatched(w: World, v: Value)
    requires Matched(w) && w.c.dq != [] && Answered(w).processed < w.c.dq[0].job.built
    ensures Matched(Advance(w, v))
  {
    hide NeedSum, Need;
    if w.c.open && w.c.reading {
      forall k | 0 <= k < w.l.done ensures GotOwn(Advance(w, v).l, k) {
        assert GotOwn(w.l, k);
      }
    }
  }

  lemma CompleteKeepsMatched(w: World, v: Value)
    requires Matched(w) && w.c.dq != [] && Answered(w).processed >= w.c.dq[0].job.built
    ensures Matched(Complete(w, v))
  {
    hide NeedSum;
    var w' := Complete(w, v);
    if w.c.open && w.c.reading {
      NeedSumNext(w.l.due, w.l.done);
      forall k | 0 <= k < w'.l.done ensures GotOwn(w'.l, k) {
        if k < w.l.done { assert GotOwn(w.l, k); } else { NeedSumPositive(w.l.due, k); }
      }
    }
  }

  lemma NeedSumNext(due: seq<Due>, k: int)
    requires 0 <= k < |due|
    ensures NeedSum(due, k + 1) == NeedSum(due, k) + Need(due[k]) && Need(due[k]) >= 1
  {
  }

  lemma {:induction false} NeedSumPositive(due: seq<Due>, k: int)
    requires k <= |due|
    ensures NeedSum(due, k) >= 0
    decreases k
  {
    if k > 0 { NeedSumPositive(due, k - 1); }
  }

  lemma ReceiveOneKeeps(w: World, a: Answer)
    requires Inv(w)
    ensures Inv(ReceiveOne(w, a))
  {
    hide Kept, Ordered, Counted, Matched, Advance, Complete;
    ThrowKeeps(w);
    if w.c.dq != [] && InFlight(w.c.dq[0].state) {
      ReceiveCases(w, a);
      AdvanceKeeps(w, a.value);
      CompleteKeeps(w, a.value);
      if Answered(w).processed < w.c.dq[0].job.built {
        AdvanceKeepsMatched(w, a.value);
      } else {
        CompleteKeepsMatched(w, a.value);
      }
      ThrowKeeps(Advance(w, a.value));
      ThrowKeeps(Advance(Dispose(w), a.value));
    }
  }

  lemma ReceiveCases(w: World, a: Answer)
    requires w.c.dq != [] && InFlight(w.c.dq[0].state)
    ensures var r := ReceiveOne(w, a);
            || r == Throw(w)
            || (Answered(w).processed < w.c.dq[0].job.built && r == Advance(w, a.value))
            || (Answered(w).processed >= w.c.dq[0].job.built
                && (r == Throw(Advance(w, a.value)) || r == Throw(Advance(Dispose(w), a.value))
                    || r == Complete(w, a.value)))
  {
  }

  lemma ThrowKeeps(w: World)
    ensures Kept(w) && Ordered(w) && Counted(w) ==> Inv(Throw(w))
  {
  }

  lemma {:induction false} ReceiveKeeps(w: World, answers: seq<Answer>)
    requires Inv(w)
    ensures Inv(ReceiveAll(w, answers))
    decreases |answers|
  {
    hide Inv, ReceiveOne;
    if answers != [] && w.c.reading {
      ReceiveOneKeeps(w, answers[0]);
      ReceiveKeeps(ReceiveOne(w, answers[0]), answers[1..]);
    }
  }

  // ---------------------------------------------------------------- whole runs

  /** Every step keeps the invariant. */
  lemma DoKeeps(w: World, e: Event)
    requires Inv(w)
    ensures Inv(Do(w, e))
  {
    hide Inv;
    match e
    case Send(p) => SendKeeps(w, p);
    case Commit(writes) => CommitKeeps(w, writes);
    case Receive(answers) => ReceiveKeeps(w, answers);
    case Fail => FailKeeps(w);
    case Connect(writes) => ConnectKeeps(w); CommitKeeps(Connected(w), writes);
  }

  /** The pipelines of the connection's own Init: serial number 0. */
  predicate IsInit(init: seq<Pipeline>) { forall p | p in init :: p.job.sn <= 0 }

  lemma {:induction false} RunKeeps(init: seq<Pipeline>, es: seq<Event>)
    requires IsInit(init)
    ensures Inv(DoAll(Fresh(init), es)) && DoAll(Fresh(init), es).l.sent == SentBy(es)
    decreases |es|
  {
    hide Inv, Do;
    if es == [] {
      FreshIsFine(init);
    } else {
      var n := |es| - 1;
      RunKeeps(init, es[..n]);
      DoKeeps(DoAll(Fresh(init), es[..n]), es[n]);
      SentLog(DoAll(Fresh(init), es[..n]), es[n]);
    }
  }

  lemma FreshIsFine(init: seq<Pipeline>)
    requires IsInit(init)
    ensures Inv(Fresh(init))
  {
  }

  function SentBy(es: seq<Event>): seq<Job> {
    if es == [] then []
    else
      var e := es[|es| - 1];
      SentBy(es[..|es| - 1]) + if e.Send? then [e.p.job] else []
  }

  lemma SentLog(w: World, e: Event)
    ensures Do(w, e).l.sent == w.l.sent + if e.Send? then [e.p.job] else []
  {
    hide StopAt, Unwritten;
    if e.Receive? && w.c.open { ReceiveSendsNothing(w, e.answers); }
  }

  lemma {:induction false} ReceiveSendsNothing(w: World, answers: seq<Answer>)
    ensures ReceiveAll(w, answers).l.sent == w.l.sent
    decreases |answers|
  {
    if answers != [] && w.c.reading { ReceiveSendsNothing(ReceiveOne(w, answers[0]), answers[1..]); }
  }

  /** Over any run of sends, commits, replies, failures and reconnects: the user's pipelines
      completed, followed by those still queued, are the ones sent, in order. */
  lemma NoneLost(init: seq<Pipeline>, es: seq<Event>)
    requires IsInit(init)
    ensures var w := DoAll(Fresh(init), es); Users(w.l.completed) + Users(Jobs(w.c.dq)) == Users(SentBy(es))
  {
    RunKeeps(init, es);
  }

  // ---------------------------------------------------------------- dispose callbacks

  /** The pipeline whose dispose callback throws on this reply: it stays in the queue, to be sent
      again and disposed of again. */
  function BadDispose(w: World, a: Answer): seq<Job> {
    var dq := w.c.dq;
    if !(a.value.VString? && a.value.kind == Error) && w.c.committing > 0 && dq != [] && InFlight(dq[0].state)
       && dq[0].processed + 1 >= dq[0].job.built && !a.replyThrows && a.disposeThrows
    then [dq[0].job]
    else []
  }

  function BadDisposes(w: World, answers: seq<Answer>): seq<Job>
    decreases |answers|
  {
    if answers == [] || !w.c.reading then []
    else BadDispose(w, answers[0]) + BadDisposes(ReceiveOne(w, answers[0]), answers[1..])
  }

  /** All of them over a run. */
  function AllBad(w: World, es: seq<Event>): seq<Job> {
    if es == [] then []
    else
      var v, e := DoAll(w, es[..|es| - 1]), es[|es| - 1];
      AllBad(w, es[..|es| - 1]) + if e.Receive? && v.c.open then BadDisposes(v, e.answers) else []
  }

  /** The calls of dispose callbacks are those of the pipelines completed and the bad ones. */
  predicate Disposed(disposed: seq<Job>, completed: seq<Job>, bad: seq<Job>) {
    multiset(disposed) == multiset(completed) + multiset(bad) && (bad == [] ==> disposed == completed)
  }

  lemma OneDisposes(w: World, a: Answer, bad: seq<Job>)
    requires Disposed(w.l.disposed, w.l.completed, bad)
    ensures var l := ReceiveOne(w, a).l; Disposed(l.disposed, l.completed, bad + BadDispose(w, a))
  {
    assert bad + [] == bad;
  }

  lemma {:induction false} ReceiveDisposes(w: World, answers: seq<Answer>, bad: seq<Job>)
    requires Disposed(w.l.disposed, w.l.completed, bad)
    ensures var l := ReceiveAll(w, answers).l; Disposed(l.disposed, l.completed, bad + BadDisposes(w, answers))
    decreases |answers|
  {
    hide ReceiveOne, BadDispose, Disposed;
    if answers != [] && w.c.reading {
      var b, more := BadDispose(w, answers[0]), BadDisposes(ReceiveOne(w, answers[0]), answers[1..]);
      OneDisposes(w, answers[0], bad);
      ReceiveDisposes(ReceiveOne(w, answers[0]), answers[1..], bad + b);
      assert bad + b + more == bad + (b + more);
    } else {
      assert bad + [] == bad;
    }
  }

  lemma OtherStepsDispose(w: World, e: Event)
    requires !(e.Receive? && w.c.open)
    ensures Do(w, e).l.disposed == w.l.disposed && Do(w, e).l.completed == w.l.completed
  {
    hide StopAt, Unwritten, Committed, Survivors;
  }

  /** Over any run the dispose callbacks called are those of the pipelines completed, each once and
      in order, if none of them throws; every call that throws is one call too many. */
  lemma DisposedOnce(init: seq<Pipeline>, es: seq<Event>)
    ensures var l, bad := DoAll(Fresh(init), es).l, AllBad(Fresh(init), es);
            && multiset(l.disposed) == multiset(l.completed) + multiset(bad)
            && (l.disposed == l.completed <==> bad == [])
  {
    hide DoAll, AllBad;
    RunDisposes(init, es);
    var l, bad := DoAll(Fresh(init), es).l, AllBad(Fresh(init), es);
    if bad != [] { assert |multiset(l.disposed)| == |multiset(l.completed)| + |bad|; }
  }

  lemma {:induction false} RunDisposes(init: seq<Pipeline>, es: seq<Event>)
    ensures var l := DoAll(Fresh(init), es).l; Disposed(l.disposed, l.completed, AllBad(Fresh(init), es))
    decreases |es|
  {
    hide Do, BadDisposes;
    if es != [] {
      hide Disposed;
      var n := |es| - 1;
      var v, e := DoAll(Fresh(init), es[..n]), es[n];
      RunDisposes(init, es[..n]);
      assert AllBad(Fresh(init), es[..n]) + [] == AllBad(Fresh(init), es[..n]);
      if e.Receive? && v.c.open {
        DoReceive(v, e.answers);
        ReceiveDisposes(v, e.answers, AllBad(Fresh(init), es[..n]));
      } else {
        OtherStepsDispose(v, e);
      }
    }
  }

  lemma DoReceive(w: World, answers: seq<Answer>)
    ensures w.c.open ==> Do(w, Receive(answers)) == ReceiveAll(w, answers)
  {
  }

  /** What a connection has to write when it is made: all init pipelines, then the user's pipelines
      sent and not completed. */
  lemma DueAtConnect(w: World)
    requires Inv(w)
    ensures exists pending: seq<Job> ::
              && DueJobs(Connected(w).l.due) == Jobs(w.c.init) + pending
              && Users(w.l.completed) + pending == Users(w.l.sent)
  {
    hide Users, Survivors;
    var s := Survivors(w.c.dq);
    SurvivorsKeepUsers(w.c.dq);
    assert DueJobs(Connected(w).l.due) == Jobs(w.c.init) + Jobs(s);
  }

  /** What is written on a connection is a beginning of what is due, each once and in order; all of
      it once a commit has gone through without an exception. */
  lemma WrittenInOrder(w: World, writes: int)
    requires Inv(w) && w.c.open
    ensures w.l.written <= DueJobs(w.l.due)
    ensures writes < 0 ==> CommitAll(w, writes).l.written == DueJobs(w.l.due)
  {
    hide Unwritten;
    if writes < 0 {
      NeverStops(w.c.dq, 0, writes);
      assert w.c.dq[..|w.c.dq|] == w.c.dq;
    }
  }

  lemma {:induction false} NeverStops(dq: seq<Pipeline>, i: int, writes: int)
    requires 0 <= i <= |dq| && writes < 0
    ensures StopAt(dq, i, writes) == |dq|
    decreases |dq| - i
  {
    if i < |dq| { NeverStops(dq, i + 1, if dq[i].state == Sending then writes - 1 else writes); }
  }

  /** A reply for a pipeline that was committed is never taken for one to a discarded pipeline. */
  lemma InFlightIsAccepted(w: World, a: Answer)
    requires Inv(w) && w.c.dq != [] && InFlight(w.c.dq[0].state)
    requires !(a.value.VString? && a.value.kind == Error) && !a.replyThrows && !a.disposeThrows
    ensures w.c.committing > 0 && ReceiveOne(w, a).c.reading == w.c.reading
    ensures ReceiveOne(w, a).l.replies == w.l.replies + [a.value]
  {
    hide Unwritten, CountInFlight, Users;
    Front(w.c.dq);
  }

  // ---------------------------------------------------------------- single events

  predicate IsError(v: Value) { v.VString? && v.kind == Error }

  /** A reply is counted exactly if it is no error and the front pipeline was committed; any other
      ends the reading and changes nothing else. */
  lemma CountedExactly(w: World, a: Answer)
    ensures var w' := ReceiveOne(w, a);
            if !IsError(a.value) && w.c.committing > 0 && w.c.dq != [] && InFlight(w.c.dq[0].state)
            then w'.l.replies == w.l.replies + [a.value]
            else w'.c == w.c.(reading := false) && w'.l == w.l
  {
  }

  /** What a reply does that is counted: before the last one for the front pipeline nothing but the
      count; at the last one the callbacks are called, the reply's first.  If one throws the pipeline
      stays and the reading ends; else it is complete. */
  lemma OneReply(w: World, a: Answer)
    requires !IsError(a.value) && w.c.committing > 0 && w.c.dq != [] && InFlight(w.c.dq[0].state)
    ensures var w', p := ReceiveOne(w, a), w.c.dq[0];
            var last := p.processed + 1 >= p.job.built;
            var complete := last && !a.replyThrows && !a.disposeThrows;
            && w'.c.reading == (w.c.reading && (!last || complete))
            && w'.c.dq == (if complete then w.c.dq[1..]
                           else [Pipeline(p.job, p.processed + 1, Processing)] + w.c.dq[1..])
            && w'.c.committing == (if complete then w.c.committing - 1 else w.c.committing)
            && w'.l.disposed == (if last && !a.replyThrows then w.l.disposed + [p.job] else w.l.disposed)
            && w'.l.completed == (if complete then w.l.completed + [p.job] else w.l.completed)
            && w'.l.got == (if complete then w.l.got + [a.value] else w.l.got)
            && w'.l.sent == w.l.sent && w'.l.written == w.l.written && w'.l.due == w.l.due
            && w'.c.init == w.c.init && w'.c.open == w.c.open && w'.c.connected == w.c.connected
  {
    var p := w.c.dq[0].(processed := w.c.dq[0].processed + 1, state := Processing);
    assert w.c.dq[0 := p] == [p] + w.c.dq[1..];
  }

  /** The first error among the replies of an arrival leaves queue, count and log as the replies
      before it left them, and ends the reading; what comes behind it is not looked at. */
  lemma {:induction false} ErrorEnds(w: World, before: seq<Answer>, a: Answer, after: seq<Answer>)
    requires IsError(a.value) && w.c.open
    ensures var v, t := Do(w, Receive(before)), Do(w, Receive(before + [a] + after));
            && t.c.dq == v.c.dq && t.c.committing == v.c.committing && t.l == v.l && !t.c.reading
            && t.c.init == v.c.init && t.c.open == v.c.open && t.c.connected == v.c.connected
    decreases |before|
  {
    var all := before + [a] + after;
    if before == [] {
      assert all[0] == a;
      CountedExactly(w, a);
      if w.c.reading { NotReading(Throw(w), all[1..]); }
    } else if w.c.reading {
      assert all[0] == before[0] && all[1..] == before[1..] + [a] + after;
      OneKeepsOpen(w, before[0]);
      ErrorEnds(ReceiveOne(w, before[0]), before[1..], a, after);
      hide ReceiveOne;
    }
  }

  lemma NotReading(w: World, answers: seq<Answer>)
    requires !w.c.reading
    ensures ReceiveAll(w, answers) == w
  {
  }

  lemma OneKeepsOpen(w: World, a: Answer)
    ensures ReceiveOne(w, a).c.open == w.c.open
  {
  }

  /** If the connection still reads after an arrival there was no error in it. */
  lemma {:induction false} ReadingMeansNoError(w: World, answers: seq<Answer>)
    requires w.c.open && Do(w, Receive(answers)).c.reading
    ensures forall a | a in answers :: !IsError(a.value)
    decreases |answers|
  {
    if exists i :: 0 <= i < |answers| && IsError(answers[i].value) {
      var i :| 0 <= i < |answers| && IsError(answers[i].value);
      assert answers == answers[..i] + [answers[i]] + answers[i + 1..];
      ErrorEnds(w, answers[..i], answers[i], answers[i + 1..]);
    }
  }

  predicate NoErrors(l: Log) { (forall v | v in l.replies :: !IsError(v)) && (forall v | v in l.got :: !IsError(v)) }

  lemma {:induction false} ReceiveKeepsNoErrors(w: World, answers: seq<Answer>)
    requires NoErrors(w.l)
    ensures NoErrors(ReceiveAll(w, answers).l)
    decreases |answers|
  {
    if answers != [] && w.c.reading { ReceiveKeepsNoErrors(ReceiveOne(w, answers[0]), answers[1..]); }
  }

  /** In no run is an error counted as a reply or handed to a callback. */
  lemma {:induction false} ErrorsAreNoReplies(init: seq<Pipeline>, es: seq<Event>)
    ensures NoErrors(DoAll(Fresh(init), es).l)
    decreases |es|
  {
    hide StopAt, Unwritten, Committed, Survivors, ReceiveAll;
    if es != [] {
      var w, e := DoAll(Fresh(init), es[..|es| - 1]), es[|es| - 1];
      ErrorsAreNoReplies(init, es[..|es| - 1]);
      if e.Receive? { ReceiveKeepsNoErrors(w, e.answers); }
    }
  }

  /** After a failure nothing is open, read or counted as committed, and the pipelines wait in the
      queue as they were. */
  lemma FailStops(w: World)
    ensures var w' := Do(w, Fail);
            && !w'.c.open && !w'.c.reading && w'.c.committing == 0 && w'.c.connected == w.c.connected
            && w'.c.init == w.c.init && w'.l == w.l && |w'.c.dq| == |w.c.dq|
            && forall i | 0 <= i < |w.c.dq| ::
                 && w'.c.dq[i].job == w.c.dq[i].job && w'.c.dq[i].processed == w.c.dq[i].processed
                 && w'.c.dq[i].state == Queueing
  {
  }

  /** A new connection has all init pipelines, then those of the queue that are the user's, to send
      again, with the replies counted before; the count of commits stays. */
  lemma ConnectStarts(w: World)
    requires Inv(w) && !w.c.open
    ensures var w', n := Connected(w), |w.c.init|;
            && w'.c.open && w'.c.reading && w'.c.connected && w'.c.committing == w.c.committing
            && w'.c.init == w.c.init && n <= |w'.c.dq| && (forall p | p in w'.c.dq :: p.state == Sending)
            && (forall i | 0 <= i < n ::
                  w'.c.dq[i].job == w.c.init[i].job && w'.c.dq[i].processed == w.c.init[i].processed)
            && (forall p | p in w.c.dq && p.job.sn > 0 :: p.(state := Sending) in w'.c.dq[n..])
            && w'.l.written == [] && w'.l.replies == [] && w'.l.got == [] && w'.l.done == 0
  {
    var s, w', n := Survivors(w.c.dq), Connected(w), |w.c.init|;
    forall p | p in w.c.dq && p.job.sn > 0 ensures p.(state := Sending) in w'.c.dq[n..] {
      SurvivesIn(w.c.dq, p);
      var j :| 0 <= j < |s| && s[j] == p;
      assert w'.c.dq[n + j] == p.(state := Sending);
      assert w'.c.dq[n..][j] == w'.c.dq[n + j];
    }
  }

  lemma {:induction false} SurvivesIn(dq: seq<Pipeline>, p: Pipeline)
    requires p in dq && Survives(p)
    ensures p in Survivors(dq)
  {
    var n := |dq| - 1;
    if dq[n] != p {
      assert p in dq[..n];
      SurvivesIn(dq[..n], p);
    }
  }

  lemma {:induction false} StopTakes(dq: seq<Pipeline>, i: int, writes: int)
    requires 0 <= i <= |dq| && writes >= 0
    ensures var all, n := Unwritten(dq[i..]), StopAt(dq, i, writes);
            Unwritten(dq[i..n]) == if writes <= |all| then all[..writes] else all
    decreases |dq| - i
  {
    hide Unwritten;
    if i < |dq| && !(dq[i].state == Sending && writes == 0) {
      var left := if dq[i].state == Sending then writes - 1 else writes;
      var n := StopAt(dq, i, writes);
      StopTakes(dq, i + 1, left);
      UnwrittenFrom(dq, i, |dq|);
      UnwrittenFrom(dq, i, n);
      assert dq[i..|dq|] == dq[i..] && dq[i + 1..|dq|] == dq[i + 1..];
    } else {
      NoneUnwritten();
      assert dq[i..i] == [] && (i == |dq| ==> dq[i..] == []);
    }
  }

  lemma NoneUnwritten()
    ensures Unwritten([]) == []
  {
  }

  lemma UnwrittenFrom(dq: seq<Pipeline>, i: int, n: int)
    requires 0 <= i < n <= |dq|
    ensures Unwritten(dq[i..n]) == (if dq[i].state == Sending then [dq[i].job] else []) + Unwritten(dq[i + 1..n])
  {
    assert dq[i..n][0] == dq[i] && dq[i..n][1..] == dq[i + 1..n];
    Front(dq[i..n]);
  }

  /** What a commit does: on a stream that throws after so many writes it writes so many of the
      pipelines to be sent, in order, and leaves the others to be sent; without a stream it writes
      nothing and takes them all for written; before the first connection it does nothing. */
  lemma CommitWrites(w: World, writes: int)
    ensures var w', todo := Do(w, Commit(writes)), Unwritten(w.c.dq);
            if !w.c.connected then w' == w
            else
              var n := if w.c.open && 0 <= writes <= |todo| then writes else |todo|;
              && w'.l == (if w.c.open then w.l.(written := w.l.written + todo[..n]) else w.l)
              && Unwritten(w'.c.dq) == todo[n..] && w'.c.committing == w.c.committing + n
              && Jobs(w'.c.dq) == Jobs(w.c.dq) && w'.c.open == w.c.open && w'.c.reading == w.c.reading
  {
    if w.c.connected {
      var left, dq := if w.c.open then writes else -1, w.c.dq;
      var n, todo := StopAt(dq, 0, left), Unwritten(dq);
      assert dq[0..] == dq && dq[0..n] == dq[..n];
      if left < 0 {
        NeverStops(dq, 0, left);
        assert dq[..|dq|] == dq;
      } else {
        StopTakes(dq, 0, left);
      }
      CommitMoves(dq, n);
      CommittedParts(dq, n);
      hide Unwritten, Committed, StopAt;
      var k := |Unwritten(dq[..n])|;
      assert todo[..k] == Unwritten(dq[..n]) && todo[k..] == Unwritten(Committed(dq, n));
    }
  }

  // ---------------------------------------------------------------- whose reply

  /** The replies up to and including those to pipeline k - 1, if the server answers every command. */
  function BuiltSum(due: seq<Due>, k: int): int
    requires k <= |due|
    decreases k
  {
    if k <= 0 then 0 else BuiltSum(due, k - 1) + due[k - 1].job.built
  }

  predicate Proper(d: Due) { d.job.built >= 1 && d.start >= 0 }

  /** Some of its replies were counted on an earlier connection, although all its commands are sent
      again. */
  predicate HalfDone(d: Due) { d.start > 0 && d.job.built > 1 }

  lemma {:induction false} NeedIsBuilt(due: seq<Due>, k: int)
    requires 0 <= k <= |due| && forall j | 0 <= j < k :: Proper(due[j])
    ensures NeedSum(due, k) <= BuiltSum(due, k)
    ensures NeedSum(due, k) == BuiltSum(due, k) <==> forall j | 0 <= j < k :: !HalfDone(due[j])
    decreases k
  {
    if k > 0 { NeedIsBuilt(due, k - 1); }
  }

  /** The k-th callback of a connection is called with the last reply to its own pipeline exactly if
      neither that pipeline nor one before it was half answered when the connection was made. */
  lemma CallbackGetsOwnReply(w: World, k: int)
    requires Inv(w) && w.c.open && w.c.reading && 0 <= k < w.l.done
    requires forall j | 0 <= j <= k :: Proper(w.l.due[j])
    ensures var n := NeedSum(w.l.due, k + 1);
            && 0 < n <= |w.l.replies| && w.l.got[k] == w.l.replies[n - 1]
            && (n == BuiltSum(w.l.due, k + 1) <==> forall j | 0 <= j <= k :: !HalfDone(w.l.due[j]))
  {
    assert GotOwn(w.l, k);
    NeedIsBuilt(w.l.due, k + 1);
  }

  lemma {:induction false} NeedSumGrows(due: seq<Due>, j: int, k: int)
    requires 0 <= j <= k <= |due|
    ensures NeedSum(due, j) <= NeedSum(due, k)
    decreases k
  {
    if j < k { NeedSumGrows(due, j, k - 1); }
  }

  predicate Good(a: Answer) { !(a.value.VString? && a.value.kind == Error) && !a.replyThrows && !a.disposeThrows }

  /** A connection that has written everything completes everything when the server answers. */
  lemma {:induction false} AnswersComplete(w: World, answers: seq<Answer>)
    requires Inv(w) && w.c.open && w.c.reading && (forall a | a in answers :: Good(a))
    requires forall p | p in w.c.dq :: InFlight(p.state)
    requires |w.l.replies| + |answers| == NeedSum(w.l.due, |w.l.due|)
    ensures var r := ReceiveAll(w, answers);
            r.c.dq == [] && r.c.reading && r.l.completed == w.l.completed + Jobs(w.c.dq)
    decreases |answers|
  {
    hide NeedSum, Need, Inv, ReceiveOne;
    if w.c.dq == [] {
      EmptyIsDone(w);
      assert w.l.completed + [] == w.l.completed;
    } else {
      FrontNeedsMore(w);
      var a := answers[0];
      var w' := ReceiveOne(w, a);
      assert a in answers && w.c.dq[0] in w.c.dq;
      assert forall b | b in answers[1..] :: b in answers;
      InFlightIsAccepted(w, a);
      ReceiveOneKeeps(w, a);
      GoodSteps(w, a);
      AnswersComplete(w', answers[1..]);
    }
  }

  lemma EmptyIsDone(w: World)
    requires Inv(w) && w.c.open && w.c.reading && w.c.dq == []
    ensures |w.l.replies| == NeedSum(w.l.due, |w.l.due|)
  {
  }

  lemma FrontNeedsMore(w: World)
    requires Inv(w) && w.c.open && w.c.reading && w.c.dq != []
    ensures |w.l.replies| < NeedSum(w.l.due, |w.l.due|)
  {
    hide NeedSum;
    NeedSumNext(w.l.due, w.l.done);
    NeedSumGrows(w.l.due, w.l.done + 1, |w.l.due|);
  }

  lemma GoodSteps(w: World, a: Answer)
    requires Inv(w) && w.c.reading && w.c.dq != [] && Good(a) && forall p | p in w.c.dq :: InFlight(p.state)
    ensures var w' := ReceiveOne(w, a);
            && w'.c.open == w.c.open && w'.l.due == w.l.due && (forall p | p in w'.c.dq :: InFlight(p.state))
            && w'.l.completed + Jobs(w'.c.dq) == w.l.completed + Jobs(w.c.dq)
  {
    hide Inv, Throw;
    var dq, p := w.c.dq, Answered(w);
    assert InFlight(dq[0].state) by { assert dq[0] in dq; }
    InFlightIsAccepted(w, a);
    if p.processed < p.job.built {
      assert ReceiveOne(w, a) == Advance(w, a.value);
      assert Jobs(dq[0 := p]) == Jobs(dq);
    } else {
      assert ReceiveOne(w, a) == Complete(w, a.value);
      assert Jobs(dq) == [dq[0].job] + Jobs(dq[1..]);
      assert w.l.completed + [dq[0].job] + Jobs(dq[1..]) == w.l.completed + Jobs(dq);
    }
  }

  // ---------------------------------------------------------------- an early reply

  /** One pipeline of two commands, sent, written and half answered. */
  function Half(job: Job, v: Value): World {
    World(Conn([], [Pipeline(job, 1, Processing)], 1, true, true, true),
          Log([job], [], [], [Due(job, 0)], [job], [v], 0, []))
  }

  lemma HalfIsReached(job: Job, v: Value)
    requires job.built == 2 && !(v.VString? && v.kind == Error)
    ensures var before := Do(Do(Fresh([]), Connect(-1)), Send(Pipeline(job, 0, Queueing)));
            Do(Do(before, Commit(-1)), Receive([Answer(v, false, false)])) == Half(job, v)
  {
    hide ReceiveAll;
    var w1 := Do(Fresh([]), Connect(-1));
    assert w1 == World(Conn([], [], 0, true, true, true), Log([], [], [], [], [], [], 0, []));
    var w2 := Do(w1, Send(Pipeline(job, 0, Queueing)));
    assert w2.c.dq == [Pipeline(job, 0, Sending)];
    OneCommitted(job, 0);
    var w3 := Do(w2, Commit(-1));
    assert w3.c.dq == [Pipeline(job, 0, Committing)];
    OneAnswer(w3, Answer(v, false, false));
  }

  /** Half answered, disconnected, connected again: the first reply of the second round completes
      the pipeline, though its last command is not answered yet. */
  lemma HalfAnsweredIsEarly(job: Job, v: Value)
    requires job.built == 2 && job.sn > 0 && !(v.VString? && v.kind == Error)
    ensures var w := Do(Do(Do(Half(job, v), Fail), Connect(-1)), Receive([Answer(v, false, false)]));
            w.l.completed == [job] && w.l.replies == [v] && w.l.got == [v] && w.l.due == [Due(job, 1)]
              && BuiltSum(w.l.due, 1) == 2
  {
    hide ReceiveAll, StopAt, Unwritten, Committed, Survivors;
    var w5 := Do(Half(job, v), Fail);
    assert w5.c == Conn([], [Pipeline(job, 1, Queueing)], 0, false, true, false);
    OneSurvives(job, 1);
    assert Connected(w5).c == Conn([], [Pipeline(job, 1, Sending)], 0, true, true, true);
    OneCommitted(job, 1);
    var w6 := Do(w5, Connect(-1));
    assert w6.c == Conn([], [Pipeline(job, 1, Committing)], 1, true, true, true);
    OneAnswer(w6, Answer(v, false, false));
    assert w6.l.due == [Due(job, 1)];
    assert BuiltSum([Due(job, 1)], 1) == BuiltSum([Due(job, 1)], 0) + 2;
  }

  lemma OneAnswer(w: World, a: Answer)
    ensures ReceiveAll(w, [a]) == if w.c.reading then ReceiveOne(w, a) else w
  {
    hide ReceiveOne;
    assert [a][1..] == [];
  }

  lemma OneSurvives(job: Job, processed: int)
    requires job.sn > 0
    ensures Survivors([Pipeline(job, processed, Queueing)]) == [Pipeline(job, processed, Queueing)]
  {
    assert [Pipeline(job, processed, Queueing)][..0] == [];
  }

  lemma OneCommitted(job: Job, processed: int)
    ensures var dq := [Pipeline(job, processed, Sending)];
            StopAt(dq, 0, -1) == 1 && Unwritten(dq[..1]) == [job]
              && Committed(dq, 1) == [Pipeline(job, processed, Committing)]
  {
    var dq := [Pipeline(job, processed, Sending)];
    NeverStops(dq, 0, -1);
    assert dq[..1] == dq;
    One(dq[0]);
  }

  // ---------------------------------------------------------------- the client

  class KjRedisClientConn {
    var dqInit: seq<Pipeline>
    var dqCommon: seq<Pipeline>
    var committingNum: int
    var streamOpen: bool
    var connected: bool
    var reading: bool
    ghost var log: Log

    ghost function W(): World
      reads this
    {
      World(Conn(dqInit, dqCommon, committingNum, streamOpen, connected, reading), log)
    }

    ghost predicate Valid()
      reads this
    {
      Inv(W())
    }

    constructor (init: seq<Pipeline>)
      requires IsInit(init)
      ensures Valid() && W() == Fresh(init)
    {
      dqInit, dqCommon, committingNum, streamOpen, connected, reading := init, [], 0, false, false, false;
      log := Log([], [], [], [], [], [], 0, []);
    }

    method Send(p: Pipeline)
      requires Valid()
      modifies this
      ensures Valid() && W() == SendOne(old(W()), p)
    {
      SendKeeps(W(), p);
      dqCommon := dqCommon + [p.(state := Sending)];
      log := log.(sent := log.sent + [p.job], due := log.due + [Due(p.job, p.processed)]);
    }

    method Commit(writes: int)
      requires Valid()
      modifies this
      ensures Valid() && W() == CommitAll(old(W()), writes)
    {
      CommitKeeps(W(), writes);
      if |dqCommon| > 0 {
        CommitLoop(writes);
      } else {
        assert Committed([], 0) == [] && log.written + [] == log.written;
      }
    }

    /** A stream that throws ends the loop. */
    method CommitLoop(writes: int)
      modifies this
      ensures W() == CommitAll(old(W()), writes)
    {
      if !connected { return; }
      ghost var dq, w := dqCommon, W();
      CommittedNone(dq);
      UnwrittenNext(dq, -1);
      hide Unwritten, Committed, Commit1;
      var i, left := 0, if streamOpen then writes else -1;
      while i < |dqCommon|
        invariant 0 <= i <= |dq| == |dqCommon| && dqCommon == Committed(dq, i)
        invariant StopAt(dq, 0, if streamOpen then writes else -1) == StopAt(dq, i, left)
        invariant committingNum == w.c.committing + |Unwritten(dq[..i])|
        invariant log == if streamOpen then w.l.(written := w.l.written + Unwritten(dq[..i])) else w.l
        invariant dqInit == w.c.init && streamOpen == w.c.open && connected == w.c.connected && reading == w.c.reading
      {
        var cp := dqCommon[i];
        UnwrittenNext(dq, i);
        CommittedNext(dq, i);
        if cp.state == Sending {
          if left == 0 { return; }
          left := left - 1;
          assert w.l.written + Unwritten(dq[..i]) + [cp.job] == w.l.written + (Unwritten(dq[..i]) + [cp.job]);
          if streamOpen { log := log.(written := log.written + [cp.job]); }
          dqCommon := dqCommon[i := cp.(state := Committing)];
          committingNum := committingNum + 1;
        }
        i := i + 1;
      }
    }

    /** The loop of OnClientReceive; an exception ends it, and the read loop with it. */
    method OnClientReceive(answers: seq<Answer>)
      requires Valid() && streamOpen
      modifies this
      ensures Valid() && W() == ReceiveAll(old(W()), answers)
    {
      var i := 0;
      ghost var w := W();
      assert answers[0..] == answers;
      hide ReceiveOne, Inv;
      while i < |answers| && reading
        invariant 0 <= i <= |answers| && Valid()
        invariant ReceiveAll(w, answers) == ReceiveAll(W(), answers[i..])
      {
        assert answers[i..][0] == answers[i] && answers[i..][1..] == answers[i + 1..];
        OnReply(answers[i]);
        i := i + 1;
      }
    }

    /** One turn of that loop. */
    method OnReply(a: Answer)
      requires Valid()
      modifies this
      ensures Valid() && W() == ReceiveOne(old(W()), a)
    {
      hide Inv;
      ReceiveOneKeeps(W(), a);
      var reply := a.value;
      if reply.VString? && reply.kind == Error {
        reading := false;
        return;
      }
      if committingNum <= 0 || |dqCommon| <= 0 {
        reading := false;
        return;
      }
      var cp := dqCommon[0];
      if !InFlight(cp.state) {
        reading := false;
        return;
      }
      cp := cp.(processed := cp.processed + 1, state := Processing);
      dqCommon := dqCommon[0 := cp];
      log := log.(replies := log.replies + [reply]);
      if cp.processed >= cp.job.built {
        if a.replyThrows {
          reading := false;
          return;
        }
        log := log.(disposed := log.disposed + [cp.job]);
        if a.disposeThrows {
          reading := false;
          return;
        }
        log := log.(completed := log.completed + [cp.job], done := log.done + 1, got := log.got + [reply]);
        dqCommon := dqCommon[1..];
        committingNum := committingNum - 1;
      }
    }

    /** The part of taskFailed that runs later. */
    method TaskFailed()
      requires Valid()
      modifies this
      ensures Valid() && W() == FailOne(old(W()))
    {
      hide Inv;
      FailKeeps(W());
      streamOpen, reading := false, false;
      SetStates(Queueing);
      committingNum := 0;
    }

    method SetStates(s: State)
      modifies this`dqCommon
      ensures dqCommon == WithState(old(dqCommon), s)
    {
      ghost var dq := dqCommon;
      var i := 0;
      while i < |dqCommon|
        invariant 0 <= i <= |dq| == |dqCommon|
        invariant forall k | 0 <= k < i :: dqCommon[k] == dq[k].(state := s)
        invariant dqCommon[i..] == dq[i..]
      {
        assert dqCommon[i..][0] == dq[i..][0] && dqCommon[i..][1..] == dq[i..][1..];
        dqCommon := dqCommon[i := dqCommon[i].(state := s)];
        i := i + 1;
      }
    }

    method OnClientConnect(writes: int)
      requires Valid() && !streamOpen
      modifies this
      ensures Valid() && W() == CommitAll(Connected(old(W())), writes)
    {
      ghost var w := W();
      hide Inv, Survivors;
      streamOpen, connected, reading := true, true, true;
      var dqTmp := dqInit;
      var i := 0;
      SurvivorsNext(dqCommon, -1);
      while i < |dqCommon|
        invariant 0 <= i <= |dqCommon| && dqTmp == dqInit + Survivors(dqCommon[..i])
        invariant W() == World(w.c.(open := true, connected := true, reading := true), w.l)
      {
        SurvivorsNext(dqCommon, i);
        if dqCommon[i].job.sn > 0 && dqCommon[i].state != ProcessOver { dqTmp := dqTmp + [dqCommon[i]]; }
        i := i + 1;
      }
      assert dqCommon[..i] == dqCommon;
      assert dqTmp == w.c.init + Survivors(w.c.dq);
      dqCommon := dqTmp;
      SetStates(Sending);
      log := log.(due := Dues(dqCommon), written := [], replies := [], done := 0, got := []);
      ConnectKeeps(w);
      assert W().c == Connected(w).c;
      assert W().l == Connected(w).l;
      Commit(writes);
    }
  }

  lemma CommittedNone(dq: seq<Pipeline>)
    ensures Committed(dq, 0) == dq
  {
  }

  lemma CommittedNext(dq: seq<Pipeline>, i: int)
    requires 0 <= i < |dq|
    ensures Committed(dq, i)[i] == dq[i]
    ensures dq[i].state == Sending ==> Committed(dq, i + 1) == Committed(dq, i)[i := dq[i].(state := Committing)]
    ensures dq[i].state != Sending ==> Committed(dq, i + 1) == Committed(dq, i)
  {
  }

  lemma UnwrittenNext(dq: seq<Pipeline>, i: int)
    requires -1 <= i < |dq|
    ensures Unwritten(dq[..i + 1]) == if i < 0 then [] else Unwritten(dq[..i]) + if dq[i].state == Sending
            then [dq[i].job] else []
  {
    if i >= 0 { assert dq[..i + 1][..i] == dq[..i]; }
  }

  lemma SurvivorsNext(dq: seq<Pipeline>, i: int)
    requires -1 <= i < |dq|
    ensures Survivors(dq[..i + 1]) == if i < 0 then [] else Survivors(dq[..i]) + if Survives(dq[i]) then [dq[i]] else []
  {
    if i >= 0 { assert dq[..i + 1][..i] == dq[..i]; }
  }
}
