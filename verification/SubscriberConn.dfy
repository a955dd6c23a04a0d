/** src/io/KjRedisSubscriberConn.cpp: the client's machine, with pushed messages taken out of the
    stream of replies before they can be matched to pipelines. */
module SubscriberConn {
  import opened Wrappers
  import opened RespMachine
  import opened ReplyBuilder
  import opened ClientConn
  import R = RespRoundTrip
  import K = RespChunking
  import X = RespCuts

  const MESSAGE: seq<int> := [109, 101, 115, 115, 97, 103, 101]
  const PMESSAGE: seq<int> := [112] + MESSAGE

  /** A published message, with its pattern if it came by one. */
  datatype Push = Message(channel: seq<int>, message: seq<int>) | PMessage(pattern: seq<int>, channel: seq<int>,
      message: seq<int>)

  predicate Strings(rows: seq<Value>, n: int)
    requires 0 <= n <= |rows|
  {
    forall i | 0 <= i < n :: rows[i].VString?
  }

  /** Four strings or more are only tried as a pattern message. */
  function PushOf(v: Value): Option<Push> {
    if !v.VArray? then None
    else
      var r := v.rows;
      if |r| >= 4 && Strings(r, 4) then
        if r[0].s == PMESSAGE then Some(PMessage(r[1].s, r[2].s, r[3].s)) else None
      else if |r| >= 3 && Strings(r, 3) then
        if r[0].s == MESSAGE then Some(Message(r[1].s, r[2].s)) else None
      else None
  }

  /** The rows of an array were moved away by the time it is used as a reply. */
  function Emptied(v: Value): Value { if v.VArray? then VArray([]) else v }

  datatype Sub = Sub(w: World, pushes: seq<Push>)

  function SubOne(s: Sub, a: Answer): Sub {
    if PushOf(a.value).Some? then s.(pushes := s.pushes + [PushOf(a.value).value])
    else s.(w := ReceiveOne(s.w, a.(value := Emptied(a.value))))
  }

  function SubAll(s: Sub, answers: seq<Answer>): Sub
    decreases |answers|
  {
    if answers == [] || !s.w.c.reading then s else SubAll(SubOne(s, answers[0]), answers[1..])
  }

  /** The replies among the answers. */
  function Replies(answers: seq<Answer>): seq<Answer> {
    if answers == [] then []
    else (if PushOf(answers[0].value).Some? then []
      else [answers[0].(value := Emptied(answers[0].value))]) + Replies(answers[1..])
  }

  /** The pushed messages among them. */
  function Pushes(answers: seq<Answer>): seq<Push> {
    if answers == [] then []
    else (if PushOf(answers[0].value).Some? then [PushOf(answers[0].value).value] else []) + Pushes(answers[1..])
  }

  /** Wherever pushed messages are strewn in, the pipelines fare as if they were not there, and all of
      them are delivered in order, up to the exception that ends the loop if there is one. */
  lemma {:induction false} PushesDoNotMatter(s: Sub, answers: seq<Answer>)
    ensures SubAll(s, answers).w == ReceiveAll(s.w, Replies(answers))
    ensures s.pushes <= SubAll(s, answers).pushes <= s.pushes + Pushes(answers)
    ensures SubAll(s, answers).w.c.reading ==> SubAll(s, answers).pushes == s.pushes + Pushes(answers)
    decreases |answers|
  {
    hide ReceiveOne, PushOf;
    if answers != [] && s.w.c.reading {
      var a, t := answers[0], SubOne(s, answers[0]);
      PushesDoNotMatter(t, answers[1..]);
      var p := if PushOf(a.value).Some? then [PushOf(a.value).value] else [];
      assert t.pushes == s.pushes + p;
      assert s.pushes + p + Pushes(answers[1..]) == s.pushes + (p + Pushes(answers[1..]));
      if p != [] {
        assert [] + Replies(answers[1..]) == Replies(answers[1..]);
      } else {
        var b := a.(value := Emptied(a.value));
        assert ([b] + Replies(answers[1..]))[1..] == Replies(answers[1..]);
      }
    }
  }

  /** Pushed messages and replies of three or four strings that are no such messages: a subscription's
      own confirmation is not mistaken for a message. */
  lemma PushIsPush(v: Value)
    ensures PushOf(v).Some? <==>
              && v.VArray? && |v.rows| >= 3 && Strings(v.rows, 3)
              && var fourth := |v.rows| >= 4 && v.rows[3].VString?;
                 v.rows[0].s == if fourth then PMESSAGE else MESSAGE
  {
  }

  // ---------------------------------------------------------------- from the wire to the callback

  /** The bytes of a bulk string's content fit 32-bit lengths. */
  predicate Short(s: seq<int>) { |s| + 3 < 0x1_0000_0000 }

  /** Four bulk strings in an array, and three. */
  function Four(a: seq<int>, b: seq<int>, c: seq<int>, d: seq<int>): R.Tree {
    R.Array([R.BulkText(a), R.BulkText(b), R.BulkText(c), R.BulkText(d)])
  }

  function Three(a: seq<int>, b: seq<int>, c: seq<int>): R.Tree {
    R.Array([R.BulkText(a), R.BulkText(b), R.BulkText(c)])
  }

  /** The values the client gets of one printed reply that arrives in these pieces. */
  function Lifted(chunks: seq<seq<int>>): seq<Value> { AllPushed(K.Feed(R.Idle([], []), chunks).c.out) }

  lemma BulksLift(t: R.Tree, chunks: seq<seq<int>>)
    requires R.Fits(t) && R.Need(t) <= 2 && X.TextFree(t) && t.Array? && K.Concat(chunks) == R.Print(t)
    ensures Lifted(chunks) == [Meaning(t)]
  {
    hide K.Feed, R.Fits, R.Need, X.TextFree, Meaning;
    OneTree(t);
    X.TextFreeInPieces([t], chunks);
    AllPushedAreMeanings([t]);
  }

  lemma OneTree(t: R.Tree)
    requires R.Fits(t)
    ensures R.AllFit([t]) && R.NeedAll([t]) == R.Need(t)
    ensures R.PrintAll([t]) == R.Print(t) && Meanings([t]) == [Meaning(t)]
  {
    hide R.Fits, R.Need, R.Print, Meaning;
    assert [t][..0] == [] && [t][1..] == [] && R.Print(t) + [] == R.Print(t);
  }

  lemma StringsOf(a: seq<int>, b: seq<int>, c: seq<int>, d: seq<int>)
    ensures Meaning(Four(a, b, c, d))
            == VArray([VString(Bulk, a), VString(Bulk, b), VString(Bulk, c), VString(Bulk, d)])
    ensures Meaning(Three(a, b, c)) == VArray([VString(Bulk, a), VString(Bulk, b), VString(Bulk, c)])
  {
    assert [] + [R.BulkText(a)] == [R.BulkText(a)];
    MeaningsSnoc([], R.BulkText(a));
    MeaningsSnoc([R.BulkText(a)], R.BulkText(b));
    MeaningsSnoc([R.BulkText(a), R.BulkText(b)], R.BulkText(c));
    MeaningsSnoc([R.BulkText(a), R.BulkText(b), R.BulkText(c)], R.BulkText(d));
    TwoThree(R.BulkText(a), R.BulkText(b), R.BulkText(c), R.BulkText(d));
  }

  lemma TwoThree<A>(a: A, b: A, c: A, d: A)
    ensures [a] + [b] == [a, b] && [a, b] + [c] == [a, b, c] && [a, b, c] + [d] == [a, b, c, d]
  {
  }

  lemma MeaningsSnoc(ts: seq<R.Tree>, t: R.Tree)
    ensures Meanings(ts + [t]) == Meanings(ts) + [Meaning(t)]
  {
    assert (ts + [t])[..|ts|] == ts;
  }

  /** Strings that fit into an array. */
  predicate Fitting(ts: seq<R.Tree>) {
    R.AllFit(ts) && R.NeedAll(ts) <= 1 && |ts| < 5 && forall t | t in ts :: X.TextFree(t)
  }

  lemma FittingSnoc(ts: seq<R.Tree>, s: seq<int>)
    requires Fitting(ts) && Short(s) && |ts| < 4
    ensures Fitting(ts + [R.BulkText(s)])
  {
    R.FitSnoc(ts, R.BulkText(s));
  }

  lemma FittingArray(ts: seq<R.Tree>)
    requires Fitting(ts)
    ensures R.Fits(R.Array(ts)) && R.Need(R.Array(ts)) <= 2 && X.TextFree(R.Array(ts))
  {
  }

  lemma StringsFit(a: seq<int>, b: seq<int>, c: seq<int>, d: seq<int>)
    requires Short(a) && Short(b) && Short(c) && Short(d)
    ensures var t := Four(a, b, c, d); R.Fits(t) && R.Need(t) <= 2 && X.TextFree(t)
    ensures var t := Three(a, b, c); R.Fits(t) && R.Need(t) <= 2 && X.TextFree(t)
  {
    var t, u, v, w := R.BulkText(a), R.BulkText(b), R.BulkText(c), R.BulkText(d);
    assert Fitting([]);
    hide Fitting, Short, R.Fits, R.Need, X.TextFree;
    assert [] + [t] == [t];
    TwoThree(t, u, v, w);
    FittingSnoc([], a);
    FittingSnoc([t], b);
    FittingSnoc([t, u], c);
    FittingSnoc([t, u, v], d);
    FittingArray([t, u, v]);
    FittingArray([t, u, v, w]);
  }

  /** The array "pmessage", pattern, channel, message as it comes from the server, in any pieces, is
      one message with that pattern, channel and text, and leaves the pipelines alone, whichever
      callbacks of theirs would throw. */
  lemma PMessageArrives(s: Sub, p: seq<int>, ch: seq<int>, m: seq<int>, chunks: seq<seq<int>>, bad: (bool, bool))
    requires Short(p) && Short(ch) && Short(m) && s.w.c.reading
    requires K.Concat(chunks) == R.Print(Four([112, 109, 101, 115, 115, 97, 103, 101], p, ch, m))
    ensures |Lifted(chunks)| == 1
    ensures var t := SubAll(s, [Answer(Lifted(chunks)[0], bad.0, bad.1)]);
            && t.w == s.w && |t.pushes| == |s.pushes| + 1 && t.pushes[..|s.pushes|] == s.pushes
            && var push := t.pushes[|s.pushes|];
               push.PMessage? && push.pattern == p && push.channel == ch && push.message == m
  {
    hide ReceiveOne, Lifted, R.Print;
    var word := [112, 109, 101, 115, 115, 97, 103, 101];
    StringsFit(word, p, ch, m);
    BulksLift(Four(word, p, ch, m), chunks);
    StringsOf(word, p, ch, m);
    SubOnly(s, Answer(Lifted(chunks)[0], bad.0, bad.1));
    assert PMESSAGE == word;
  }

  /** Likewise for "message", channel, message. */
  lemma MessageArrives(s: Sub, ch: seq<int>, m: seq<int>, chunks: seq<seq<int>>, bad: (bool, bool))
    requires Short(ch) && Short(m) && s.w.c.reading
    requires K.Concat(chunks) == R.Print(Three([109, 101, 115, 115, 97, 103, 101], ch, m))
    ensures |Lifted(chunks)| == 1
    ensures var t := SubAll(s, [Answer(Lifted(chunks)[0], bad.0, bad.1)]);
            && t.w == s.w && |t.pushes| == |s.pushes| + 1 && t.pushes[..|s.pushes|] == s.pushes
            && var push := t.pushes[|s.pushes|];
               push.Message? && push.channel == ch && push.message == m
  {
    hide ReceiveOne, Lifted, R.Print;
    var word := [109, 101, 115, 115, 97, 103, 101];
    StringsFit(word, ch, m, []);
    BulksLift(Three(word, ch, m), chunks);
    StringsOf(word, ch, m, []);
    SubOnly(s, Answer(Lifted(chunks)[0], bad.0, bad.1));
  }

  lemma SubOnly(s: Sub, a: Answer)
    ensures SubAll(s, [a]) == if s.w.c.reading then SubOne(s, a) else s
  {
    hide SubOne;
    assert [a][1..] == [];
  }

  /** Any other reply goes to the pipelines; of an array nothing but that it is one. */
  lemma RepliesPass(s: Sub, a: Answer)
    requires s.w.c.reading && !(a.value.VArray? && |a.value.rows| >= 3 && a.value.rows[0].VString?)
    ensures var t := SubAll(s, [a]);
            && t.pushes == s.pushes
            && t.w == ReceiveOne(s.w, if a.value.VArray? then a.(value := VArray([])) else a)
  {
    hide ReceiveOne;
    SubOnly(s, a);
  }

  class KjRedisSubscriberConn {
    const conn: KjRedisClientConn
    var pushes: seq<Push>

    constructor (c: KjRedisClientConn)
      ensures conn == c && pushes == []
    {
      conn, pushes := c, [];
    }

    ghost function S(): Sub
      reads this, conn
    {
      Sub(conn.W(), pushes)
    }

    /** The loop of OnClientReceive. */
    method OnClientReceive(answers: seq<Answer>)
      requires conn.Valid() && conn.streamOpen
      modifies this, conn
      ensures conn.Valid() && S() == SubAll(old(S()), answers)
    {
      ghost var s := S();
      var i := 0;
      assert answers[0..] == answers;
      hide ReceiveOne, Inv, PushOf;
      while i < |answers| && conn.reading
        invariant 0 <= i <= |answers| && conn.Valid()
        invariant SubAll(s, answers) == SubAll(S(), answers[i..])
      {
        assert answers[i..][0] == answers[i] && answers[i..][1..] == answers[i + 1..];
        OnReply(answers[i]);
        i := i + 1;
      }
    }

    /** One turn of that loop. */
    method OnReply(a: Answer)
      requires conn.Valid()
      modifies this, conn
      ensures conn.Valid() && S() == SubOne(old(S()), a)
    {
      hide ReceiveOne, Inv;
      var isMessage, reply := false, a.value;
      if reply.VArray? {
        var v := reply.rows;
        reply := VArray([]);
        if |v| >= 4 && v[0].VString? && v[1].VString? && v[2].VString? && v[3].VString? {
          isMessage := v[0].s == PMESSAGE;
          if isMessage { pushes := pushes + [PMessage(v[1].s, v[2].s, v[3].s)]; }
        } else if |v| >= 3 && v[0].VString? && v[1].VString? && v[2].VString? {
          isMessage := v[0].s == MESSAGE;
          if isMessage { pushes := pushes + [Message(v[1].s, v[2].s)]; }
        }
      }
      if !isMessage { conn.OnReply(a.(value := reply)); }
    }
  }
}
