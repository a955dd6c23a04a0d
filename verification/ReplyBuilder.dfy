/** src/io/KjReplyBuilder.cpp: finished replies become values and wait in a queue. */
module ReplyBuilder {
  import opened Wrappers
  import opened RespMachine
  import opened RespChunking
  import opened RespRoundTrip
  import opened RespCuts

  datatype Value = VNull | VInt(v: int) | VString(kind: Kind, s: seq<int>) | VArray(rows: seq<Value>)

  /** The bytes of a chain of buffers, as redis_reply_as_string copies them. */
  function Flat(bufs: seq<seq<int>>): seq<int> {
    if bufs == [] then [] else Flat(bufs[..|bufs| - 1]) + bufs[|bufs| - 1]
  }

  function ValueOf(r: Reply): Value {
    match r
    case Null(_) => VNull
    case Number(v) => VInt(v)
    case Text(kind, bufs, _) => VString(kind, Flat(bufs))
    case Arr(elems) => VArray(ValuesOf(elems))
  }

  function ValuesOf(rs: seq<Reply>): (vs: seq<Value>)
    ensures |vs| == |rs|
  {
    if rs == [] then [] else ValuesOf(rs[..|rs| - 1]) + [ValueOf(rs[|rs| - 1])]
  }

  /** A null array in the outermost place is not recognised. */
  function Pushed(r: Reply): Value { if r == Null(true) then VArray([]) else ValueOf(r) }

  function AllPushed(rs: seq<Reply>): (vs: seq<Value>)
    ensures |vs| == |rs|
  {
    if rs == [] then [] else AllPushed(rs[..|rs| - 1]) + [Pushed(rs[|rs| - 1])]
  }

  class KjReplyBuilder {
    var available: seq<Value>

    constructor ()
      ensures available == []
    {
      available := [];
    }

    /** redis_reply_as_string. */
    static method AsString(bufs: seq<seq<int>>) returns (s: seq<int>)
      ensures s == Flat(bufs)
    {
      s := [];
      for i := 0 to |bufs|
        invariant s == Flat(bufs[..i])
      {
        assert bufs[..i + 1][..i] == bufs[..i];
        s := s + bufs[i];
      }
      assert bufs[..|bufs|] == bufs;
    }

    static method SetReply(r: Reply) returns (reply: Value)
      ensures reply == ValueOf(r)
      decreases r, 0
    {
      match r {
        case Null(_) => reply := VNull;
        case Number(v) => reply := VInt(v);
        case Text(kind, bufs, _) =>
          var s := AsString(bufs);
          reply := VString(kind, s);
        case Arr(elems) => reply := SetArrayReply(elems);
      }
    }

    static method SetArrayReply(arrval: seq<Reply>) returns (reply: Value)
      ensures reply == VArray(ValuesOf(arrval))
      decreases arrval, 1
    {
      var rows := [];
      for i := 0 to |arrval|
        invariant rows == ValuesOf(arrval[..i])
      {
        assert arrval[..i + 1][..i] == arrval[..i];
        var reply2 := SetReply(arrval[i]);
        rows := rows + [reply2];
      }
      assert arrval[..|arrval|] == arrval;
      reply := VArray(rows);
    }

    /** The parser's callback. */
    method PushReply(r: Reply)
      modifies this
      ensures available == old(available) + [Pushed(r)]
    {
      var reply;
      match r {
        case Arr(elems) => reply := SetArrayReply(elems);
        case Null(ofArray) => if ofArray { reply := SetArrayReply([]); } else { reply := SetReply(r); }
        case _ => reply := SetReply(r);
      }
      available := available + [reply];
    }

    method PopReply() returns (reply: Value)
      requires available != []
      modifies this
      ensures old(available) == [reply] + available
    {
      reply := available[0];
      available := available[1..];
    }
  }

  // ---------------------------------------------------------------- meaning

  /** What a reply in the protocol's notation means. */
  function Meaning(t: Tree): Value {
    match t
    case SimpleText(s) => VString(Simple, s)
    case ErrorText(s) => VString(Error, s)
    case Int(v) => VInt(v)
    case BulkText(s) => VString(Bulk, s)
    case NullBulk => VNull
    case NullArray => VNull
    case Array(ts) => VArray(Meanings(ts))
  }

  function Meanings(ts: seq<Tree>): (vs: seq<Value>)
    ensures |vs| == |ts|
  {
    if ts == [] then [] else Meanings(ts[..|ts| - 1]) + [Meaning(ts[|ts| - 1])]
  }

  lemma {:induction false} ValueIsMeaning(t: Tree)
    ensures ValueOf(Val(t)) == Meaning(t)
    decreases t, 0
  {
    match t
    case SimpleText(s) => FlatOne(s);
    case ErrorText(s) => FlatOne(s);
    case BulkText(s) => FlatOne(s);
    case Array(ts) => ValuesAreMeanings(ts);
    case _ =>
  }

  lemma FlatOne(s: seq<int>)
    ensures Flat([s]) == s
  {
    assert [s][..0] == [];
  }

  /** The bytes of a chain are those of its buffers one after the other. */
  lemma {:induction false} FlatMore(a: seq<seq<int>>, b: seq<seq<int>>)
    ensures Flat(a + b) == Flat(a) + Flat(b)
    decreases |b|
  {
    hide Flat;
    if b == [] {
      assert a + b == a;
      FlatNone();
    } else {
      var b', x := b[..|b| - 1], b[|b| - 1];
      assert b == b' + [x];
      assert a + b == (a + b') + [x];
      FlatSnoc(a + b', x);
      FlatSnoc(b', x);
      FlatMore(a, b');
      Regroup(Flat(a), Flat(b'), x);
    }
  }

  lemma Regroup(a: seq<int>, b: seq<int>, c: seq<int>)
    ensures a + b + c == a + (b + c)
  {
  }

  lemma FlatNone()
    ensures Flat([]) == []
  {
  }

  lemma FlatSnoc(bufs: seq<seq<int>>, b: seq<int>)
    ensures Flat(bufs + [b]) == Flat(bufs) + b
  {
    assert (bufs + [b])[..|bufs|] == bufs;
  }

  lemma {:induction false} FlatRestarts(p: seq<int>, n: int)
    requires 0 <= n <= |p|
    ensures var t := Flat(Restarted(p, n)); |t| == n && forall i | 0 <= i < n :: t[i] == p[i % 4096]
    decreases n
  {
    hide Flat;
    if n <= 4096 {
      FlatOne(p[..n]);
    } else {
      FlatRestarts(p, n - 4096);
      FlatOne(p[..4096]);
      FlatMore([p[..4096]], Restarted(p, n - 4096));
      RestartsMore(p, Flat(Restarted(p, n - 4096)));
    }
  }

  lemma RestartsMore(p: seq<int>, u: seq<int>)
    requires 4096 <= |p| && forall i | 0 <= i < |u| :: u[i] == p[i % 4096]
    ensures var t := p[..4096] + u; forall i | 0 <= i < |t| :: t[i] == p[i % 4096]
  {
    var t := p[..4096] + u;
    forall i | 0 <= i < |t| ensures t[i] == p[i % 4096] {
      if i >= 4096 { assert (i - 4096) % 4096 == i % 4096; }
    }
  }

  /** A simple or error string of any length that comes at once has the right number of bytes, and
      the right ones exactly if from the 4096th on they repeat those before. */
  lemma LongTextExactly(below: seq<Frame>, kind: Kind, s: seq<int>, rest: seq<int>, out: seq<Reply>)
    requires 13 !in s
    ensures exists bufs: seq<seq<int>> ::
              && Run(Working(below, Begun(kind), s + [13, 10] + rest, out))
                 == Run(Config(below, rest, Some(Text(kind, bufs, |s| % 0x1_0000_0000)), out))
              && |Flat(bufs)| == |s|
              && (Flat(bufs) == s <==> forall i | 4096 <= i < |s| :: s[i] == s[i % 4096])
  {
    hide Run, Flat;
    LongTextRuns(below, kind, s, rest, out);
    FlatRestarts(s, |s|);
  }

  lemma {:induction false} ValuesAreMeanings(ts: seq<Tree>)
    ensures ValuesOf(Vals(ts)) == Meanings(ts)
    decreases ts, 1
  {
    if ts != [] {
      var n := |ts| - 1;
      assert Vals(ts)[..n] == Vals(ts[..n]);
      ValuesAreMeanings(ts[..n]);
      ValueIsMeaning(ts[n]);
    }
  }

  /** The value handed to the client is what the reply means, unless the reply is a null array; then
      it is an empty array. */
  lemma PushedIsMeaning(t: Tree)
    ensures Pushed(Val(t)) == Meaning(t) <==> t != NullArray
    ensures t == NullArray ==> Pushed(Val(t)) == VArray([]) && Meaning(t) == VNull
  {
    ValueIsMeaning(t);
  }

  lemma LastPushed(ts: seq<Tree>)
    requires ts != []
    ensures var n := |ts| - 1;
            AllPushed(Vals(ts)) == AllPushed(Vals(ts[..n])) + [Pushed(Val(ts[n]))]
              && Meanings(ts) == Meanings(ts[..n]) + [Meaning(ts[n])]
  {
    hide Pushed, Val, Meaning;
    var n := |ts| - 1;
    assert Vals(ts)[..n] == Vals(ts[..n]);
  }

  lemma {:induction false} AllPushedAreMeanings(ts: seq<Tree>)
    ensures AllPushed(Vals(ts)) == Meanings(ts) <==> NullArray !in ts
  {
    if ts != [] {
      var n := |ts| - 1;
      AllPushedAreMeanings(ts[..n]);
      LastPushed(ts);
      PushedIsMeaning(ts[n]);
      hide Pushed, Val, Meaning, Vals, AllPushed, Meanings;
      LastsEqual(AllPushed(Vals(ts[..n])), Pushed(Val(ts[n])), Meanings(ts[..n]), Meaning(ts[n]));
      assert NullArray in ts <==> NullArray in ts[..n] || NullArray == ts[n] by { assert ts == ts[..n] + [ts[n]]; }
    }
  }

  lemma LastsEqual(s: seq<Value>, x: Value, t: seq<Value>, y: Value)
    requires |s| == |t|
    ensures s + [x] == t + [y] <==> s == t && x == y
  {
    assert (s + [x])[..|s|] == s && (t + [y])[..|t|] == t && (s + [x])[|s|] == x && (t + [y])[|t|] == y;
  }

  /** From the bytes on the wire, in pieces, to the values for the client: exact for every stream of
      replies of which the texts arrive whole and that does not hold a null array in the outermost
      place. */
  lemma WireToValues(ts: seq<Tree>, chunks: seq<seq<int>>)
    requires AllFit(ts) && 1 + NeedAll(ts) <= 15 && WholeTexts(ts, chunks) && Concat(chunks) == PrintAll(ts)
    ensures AllPushed(Feed(Idle([], []), chunks).c.out) == Meanings(ts) <==> NullArray !in ts
  {
    hide Feed, SpoilsAny;
    WholeInPieces(ts, chunks);
    AllPushedAreMeanings(ts);
  }
}
