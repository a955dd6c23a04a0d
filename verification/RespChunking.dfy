/** How the reply stream is cut into pieces does not matter to the parser, except to a simple or
    error string of which one part was taken out of the input before the rest arrived. */
module RespChunking {
  import opened Wrappers
  import opened StringSearch
  import opened RespMachine

  /** More bytes arrive. */
  function More(c: Config, b: seq<int>): Config { c.(input := c.input + b) }

  // ---------------------------------------------------------------- one step

  lemma FirstAtStays(h: seq<int>, b: seq<int>)
    requires FirstAt(h, 13, 0) < |h|
    ensures FirstAt(h + b, 13, 0) == FirstAt(h, 13, 0)
  {
    var f := FirstAt(h, 13, 0);
    assert (h + b)[f] == 13 && forall x | 0 <= x < f :: (h + b)[x] == h[x];
  }

  lemma HitStays(h: seq<int>, b: seq<int>, x: int)
    requires 0 <= x && x + 2 <= |h|
    ensures Occurs(h + b, CRLF, x) == Occurs(h, CRLF, x) && NearMiss(h + b, CRLF, x) == NearMiss(h, CRLF, x)
  {
    hide Mod32, Signed;
    assert (h + b)[x..x + 2] == h[x..x + 2] && (h + b)[x..x + 1] == h[x..x + 1];
  }

  lemma FirstMissStays(h: seq<int>, b: seq<int>, i: int)
    requires 0 <= i && FirstMiss(h, CRLF, i) >= 0
    ensures FirstMiss(h + b, CRLF, i) == FirstMiss(h, CRLF, i)
    decreases |h| - i
  {
    hide NearMiss;
    HitStays(h, b, i);
    if !NearMiss(h, CRLF, i) { FirstMissStays(h, b, i + 1); }
  }

  /** A line end once seen stays where it is. */
  lemma LineEndStays(h: seq<int>, b: seq<int>)
    requires LineEnd(h) >= 0
    ensures LineEnd(h + b) == LineEnd(h)
  {
    hide FirstAt, FirstMiss, Occurs, NearMiss;
    var f := FirstAt(h, 13, 0);
    FirstAtStays(h, b);
    HitStays(h, b, f);
    if !Occurs(h, CRLF, f) { FirstMissStays(h, b, f + 1); }
  }

  lemma LineMore(c: Config, b: seq<int>)
    requires LineEnd(c.input) >= 0
    ensures var i := LineEnd(c.input);
            LineEnd(More(c, b).input) == i && (c.input + b)[..i] == c.input[..i] && i + 2 <= |c.input|
    ensures Take(More(c, b), LineEnd(c.input) + 2) == More(Take(c, LineEnd(c.input) + 2), b)
  {
    LineEndStays(c.input, b);
    var n := LineEnd(c.input) + 2;
    assert (c.input + b)[n..] == c.input[n..] + b;
  }

  lemma AppendMore(bufs: seq<seq<int>>, p: seq<int>, q: seq<int>, n: int)
    requires 0 <= n <= |p| && 0 <= n <= |q| && p[..n] == q[..n]
    ensures Append(bufs, p, n) == Append(bufs, q, n)
    decreases n, if bufs != [] && |bufs[|bufs| - 1]| < BUF_SIZE then 0 else 1
  {
    if n == 0 {
    } else if bufs == [] || |bufs[|bufs| - 1]| >= BUF_SIZE {
      AppendMore(bufs + [[]], p, q, n);
    } else {
      var last := |bufs| - 1;
      var k := Min(BUF_SIZE - |bufs[last]|, n);
      assert p[..k] == p[..n][..k] == q[..n][..k] == q[..k];
      AppendMore(bufs[last := Overlay(bufs[last], p, k)], p, q, n - k);
    }
  }

  lemma ContentMore(c: Config, ty: Type, b: seq<int>)
    requires Content(c, ty).Go?
    ensures Content(More(c, b), ty) == Go(More(Content(c, ty).c, b))
  {
    if ty == TInteger { LineMore(c, b); }
  }

  lemma TakeTypeMore(c: Config, b: seq<int>)
    requires c.stack != [] && (Top(c).TopFrame? || Top(c).ArrayFrame?) && c.input != []
    ensures TakeType(c).Go? ==> TakeType(More(c, b)) == Go(More(TakeType(c).c, b))
    ensures TakeType(c).Halt? ==> TakeType(More(c, b)) == Halt(More(c, b), BadLeading)
  {
    assert (c.input + b)[1..] == c.input[1..] + b;
  }

  lemma LenMore(c: Config, b: seq<int>)
    requires c.stack != [] && c.ret.None? && LineEnd(c.input) >= 0
    ensures Top(c).ArrayFrame? ==> ArrayLen(More(c, b)) == Go(More(ArrayLen(c).c, b))
    ensures BulkLen(c).Go? ==> BulkLen(More(c, b)) == Go(More(BulkLen(c).c, b))
    ensures BulkLen(c).Halt? ==> BulkLen(More(c, b)) == Halt(More(BulkLen(c).c, b), TooBig)
  {
    LineMore(c, b);
  }

  lemma BulkDataMore(c: Config, b: seq<int>)
    requires c.stack != [] && Top(c).BulkFrame?
    ensures BulkData(c).Go? ==> BulkData(More(c, b)) == Go(More(BulkData(c).c, b))
    ensures BulkData(c).Halt? && BulkData(c).why != Premature ==>
            BulkData(More(c, b)) == Halt(More(BulkData(c).c, b), BulkData(c).why)
  {
    var f := Top(c);
    var want := f.storeLen + 2 - |f.got|;
    if 0 <= want <= |c.input| {
      assert (c.input + b)[..want] == c.input[..want];
      assert (c.input + b)[want..] == c.input[want..] + b;
    }
  }

  lemma SimpleDataMore(c: Config, b: seq<int>)
    requires c.stack != [] && Top(c).SimpleFrame? && SimpleData(c).Go?
    ensures SimpleData(More(c, b)) == Go(More(SimpleData(c).c, b))
  {
    hide LineEnd, Append;
    LineMore(c, b);
    var i := LineEnd(c.input);
    AppendMore(Top(c).bufs, c.input, c.input + b, i);
  }

  /** A step that was possible is the same step when more bytes are there. */
  lemma StepMore(c: Config, b: seq<int>)
    requires Step(c).Go?
    ensures Step(More(c, b)) == Go(More(Step(c).c, b))
  {
    hide LineEnd, BulkData, SimpleData, Append, IntValue, TypeOf;
    if c.ret.None? && c.stack != [] {
      match Top(c)
      case TopFrame(typed, ty) => if typed { ContentMore(c, ty, b); } else { TakeTypeMore(c, b); }
      case ArrayFrame(state, _, _, ty) =>
        match state {
          case ALen => LenMore(c, b);
          case AType => TakeTypeMore(c, b);
          case AElem => ContentMore(c, ty, b);
        }
      case BulkFrame(sized, _, _) => if sized { BulkDataMore(c, b); } else { LenMore(c, b); }
      case SimpleFrame(_, started, _, _) => if started { SimpleDataMore(c, b); }
    }
  }

  /** So is an error. */
  lemma StepBad(c: Config, b: seq<int>)
    requires Step(c).Halt? && Step(c).why != Premature
    ensures Step(More(c, b)) == Halt(More(Step(c).c, b), Step(c).why)
  {
    hide LineEnd, BulkData, Append, IntValue, TypeOf;
    if c.stack != [] {
      match Top(c)
      case TopFrame(typed, ty) => if !typed { TakeTypeMore(c, b); }
      case ArrayFrame(state, _, _, ty) => if state == AType { TakeTypeMore(c, b); }
      case BulkFrame(sized, _, _) => if sized { BulkDataMore(c, b); } else { LenMore(c, b); }
      case SimpleFrame(_, started, _, _) => { }
    }
  }

  // ---------------------------------------------------------------- whole runs

  /** The state in which the parser finds it cannot go on. */
  function Last(c: Config): Config
    decreases |c.input|, Rank(c)
  {
    StepDecreases(c);
    match Step(c) case Halt(_, _) => c case Go(c') => Last(c')
  }

  lemma {:induction false} LastIsLast(c: Config)
    ensures Step(Last(c)).Halt? && Run(c) == Step(Last(c))
    decreases |c.input|, Rank(c)
  {
    hide Step, Rank;
    StepDecreases(c);
    RunUnfolds(c);
    LastUnfolds(c);
    if Step(c).Go? { LastIsLast(Step(c).c); }
  }

  lemma RunUnfolds(c: Config)
    ensures Run(c) == match Step(c) case Halt(c', why) => Halt(c', why) case Go(c') => Run(c')
  {
    hide Step, Rank;
  }

  lemma LastUnfolds(c: Config)
    ensures Last(c) == match Step(c) case Halt(_, _) => c case Go(c') => Last(c')
  {
    hide Step, Rank;
  }

  /** The parser does the same from both. */
  predicate Same(c: Config, d: Config) { Run(c) == Run(d) && Last(c) == Last(d) }

  lemma Unfolds(c: Config)
    ensures Step(c).Go? ==> Same(c, Step(c).c)
    ensures Step(c).Halt? ==> Run(c) == Step(c) && Last(c) == c
  {
    hide Step;
    RunUnfolds(c);
    LastUnfolds(c);
  }

  /** With more bytes the parser first comes to the same state, whatever the bytes. */
  lemma {:induction false} RunMore(c: Config, b: seq<int>)
    ensures Run(More(c, b)) == Run(More(Last(c), b))
    decreases |c.input|, Rank(c)
  {
    hide Step, Rank, Run, More;
    StepDecreases(c);
    LastUnfolds(c);
    if Step(c).Go? {
      StepMore(c, b);
      RunUnfolds(More(c, b));
      RunMore(Step(c).c, b);
    }
  }

  /** How much of the text of a simple string is taken when no line end is in sight: all of it, but
      a carriage return at the end is left. */
  function TextPart(x: seq<int>): (k: int)
    ensures 0 <= k <= |x|
  {
    if x != [] && x[|x| - 1] == 13 then |x| - 1 else |x|
  }

  /** The bytes b leave the text that x ends with as it is: nothing or the line end follows it. */
  predicate TextEnds(x: seq<int>, b: seq<int>) {
    var k := TextPart(x);
    13 !in x[..k] && (x[k..] + b <= CRLF || CRLF <= x[k..] + b)
  }

  /** A parser that finds it cannot go on is not in the middle of a text: of a simple or error
      string it has either nothing that it could take, or the whole. */
  predicate Harmless(l: Config, b: seq<int>) {
    l.stack != [] && Top(l).SimpleFrame? && Top(l).started && |l.input| >= 2 ==> TextEnds(l.input, b)
  }

  /** Two outcomes of feeding a parser: the same state if it waits for more; else the same error
      with the same builders and the same replies handed out before it. */
  predicate Agree(r: Next, s: Next) {
    || r == s
    || (r.Halt? && s.Halt? && r.why == s.why && r.why != Premature && r.c.(input := []) == s.c.(input := []))
  }

  /** Cut the input anywhere but inside the text of a simple or error string, and the parser ends up
      the same. */
  lemma CutAnywhere(c: Config, b: seq<int>)
    requires Run(c).why == Premature && Harmless(Last(c), b)
    ensures Agree(Run(More(Run(c).c, b)), Run(More(c, b)))
  {
    hide Run, Last, Step, Rank;
    LastIsLast(c);
    RunMore(c, b);
    HaltAgrees(Last(c), b);
  }

  /** The bulk string builder on top of the builders of `base`, once it has seen all these bytes;
      `left` is the input if it fails. */
  function BulkSeen(base: Config, f: Frame, all: seq<int>, left: seq<int>): Next
    requires f.BulkFrame? && f.storeLen >= 0
  {
    var n := f.storeLen + 2;
    if |all| < n then Halt(base.(stack := base.stack + [f.(got := all)], input := []), Premature)
    else if all[f.storeLen..n] != CRLF
      then Halt(base.(stack := base.stack + [f.(got := all[..n])], input := left), BadBulk)
    else Go(base.(input := all[n..], ret := Some(Text(Bulk, [all[..f.storeLen]], f.storeLen))))
  }

  function Below(c: Config): Config
    requires c.stack != []
  {
    c.(stack := c.stack[..|c.stack| - 1])
  }

  lemma BulkIsSeen(c: Config)
    requires c.stack != [] && Top(c).BulkFrame? && 0 <= Top(c).storeLen && |Top(c).got| < Top(c).storeLen + 2
    ensures BulkData(c) == BulkSeen(Below(c), Top(c), Top(c).got + c.input, c.input)
  {
    var f, n := Top(c), |c.stack| - 1;
    var want, all := f.storeLen + 2 - |f.got|, f.got + c.input;
    assert forall x :: c.stack[n := x] == c.stack[..n] + [x];
    if |c.input| >= want {
      assert all[..f.storeLen + 2] == f.got + c.input[..want] && all[f.storeLen + 2..] == c.input[want..];
      assert all[f.storeLen..f.storeLen + 2] == all[..f.storeLen + 2][f.storeLen..];
      assert all[..f.storeLen] == all[..f.storeLen + 2][..f.storeLen];
    }
  }

  lemma BulkHalted(l: Config)
    requires l.stack != [] && Top(l).BulkFrame? && BulkData(l).Halt? && BulkData(l).why == Premature
    ensures var f, h := Top(l), BulkData(l).c;
            && 0 <= f.storeLen && |f.got + l.input| < f.storeLen + 2
            && h.stack != [] && Top(h) == f.(got := f.got + l.input) && h.input == []
            && Below(h) == Below(l).(input := [])
  {
  }

  lemma BulkResumes(l: Config, b: seq<int>)
    requires l.ret.None? && l.stack != [] && Top(l).BulkFrame? && BulkData(l).Halt? && BulkData(l).why == Premature
    ensures var r, s := BulkData(More(BulkData(l).c, b)), BulkData(More(l, b));
            r == s || (r.Halt? && s.Halt? && r.why == s.why == BadBulk && r.c.(input := []) == s.c.(input := []))
  {
    hide BulkData, BulkSeen;
    var f, h := Top(l), BulkData(l).c;
    BulkHalted(l);
    BulkIsSeen(More(l, b));
    BulkIsSeen(More(h, b));
    assert (f.got + l.input) + ([] + b) == f.got + (l.input + b);
    SeenAgrees(Below(More(l, b)), Below(More(h, b)), f, Top(h), f.got + (l.input + b), l.input + b, [] + b);
  }

  lemma SeenAgrees(c: Config, c': Config, f: Frame, f': Frame, all: seq<int>, left: seq<int>, left': seq<int>)
    requires f.BulkFrame? && f.storeLen >= 0 && f'.BulkFrame? && f' == f.(got := f'.got)
             && c.(input := []) == c'.(input := [])
    ensures var r, s := BulkSeen(c, f, all, left), BulkSeen(c', f', all, left');
            r == s || (r.Halt? && s.Halt? && r.why == s.why == BadBulk && r.c.(input := []) == s.c.(input := []))
  {
  }

  lemma HaltAgrees(l: Config, b: seq<int>)
    requires Step(l).Halt? && Step(l).why == Premature && Harmless(l, b)
    ensures Agree(Run(More(Step(l).c, b)), Run(More(l, b)))
  {
    hide LineEnd, BulkData, Append, IntValue, TypeOf, Run;
    var h := Step(l).c;
    if l.stack != [] && Top(l).BulkFrame? && Top(l).sized {
      BulkHalts(l);
      BulkResumes(l, b);
      RunUnfolds(More(l, b));
      RunUnfolds(More(h, b));
    } else if l.stack != [] && Top(l).SimpleFrame? && |l.input| >= 2 {
      hide SimpleData;
      SimpleResumes(l, b);
      RunUnfolds(More(l, b));
      RunUnfolds(More(h, b));
    }
  }

  /** What becomes of a simple string on top of the builders of `base`, if no line end is in sight
      and the text taken is the last of it. */
  function TextSeen(base: Config, f: Frame, text: seq<int>, left: seq<int>): Next
    requires f.SimpleFrame?
  {
    var bytes, bufs := (f.storeLen + |text|) % U32, Append(f.bufs, text, |text|);
    if CRLF <= left then Go(base.(input := left[2..], ret := Some(Text(f.kind, bufs, bytes))))
    else Halt(base.(stack := base.stack + [f.(storeLen := bytes, bufs := bufs)], input := left), Premature)
  }

  lemma TextIsSeen(c: Config, text: seq<int>, left: seq<int>)
    requires c.stack != [] && Top(c).SimpleFrame? && c.input == text + left && |c.input| >= 2
    requires 13 !in text && (left <= CRLF || CRLF <= left)
    ensures SimpleData(c) == TextSeen(Below(c), Top(c), text, left)
  {
    hide Append;
    var f, n := Top(c), |c.stack| - 1;
    assert forall x :: c.stack[n := x] == c.stack[..n] + [x];
    if CRLF <= left {
      LineEndHere(text, left);
    } else {
      NoLineEnd(text, left);
    }
    AppendMore(f.bufs, c.input, text, |text|);
    assert c.input[|text|..] == left;
  }

  lemma LineEndHere(s: seq<int>, tail: seq<int>)
    requires 13 !in s && CRLF <= tail
    ensures LineEnd(s + tail) == |s| && (s + tail)[|s| + 2..] == tail[2..]
  {
    var h := s + tail;
    assert h[|s|] == 13 && forall x | 0 <= x < |s| :: h[x] == s[x];
    assert FirstAt(h, 13, 0) == |s|;
    assert h[|s|..|s| + 2] == tail[..2] == CRLF;
  }

  lemma NoLineEnd(s: seq<int>, tail: seq<int>)
    requires 13 !in s && (tail == [] || tail == [13]) && |s + tail| >= 2
    ensures LineEnd(s + tail) == -1 && TextPart(s + tail) == |s|
  {
    var h := s + tail;
    forall x | 0 <= x < |s| ensures h[x] != 13 { assert h[x] == s[x] && s[x] in s; }
    assert |h| == |s| + |tail| && FirstAt(h, 13, 0) >= |s|;
    assert tail == [13] ==> h[|s|] == 13;
  }

  lemma SimpleResumes(l: Config, b: seq<int>)
    requires l.stack != [] && Top(l).SimpleFrame? && |l.input| >= 2 && TextEnds(l.input, b)
    requires SimpleData(l).Halt?
    ensures SimpleData(l).c.ret == l.ret && SimpleData(l).c.stack != [] && Top(SimpleData(l).c).SimpleFrame?
    ensures Top(SimpleData(l).c).started == Top(l).started
    ensures SimpleData(More(SimpleData(l).c, b)) == SimpleData(More(l, b))
  {
    hide SimpleData, Append;
    var x, k := l.input, TextPart(l.input);
    var text, z, h := x[..k], x[k..] + b, SimpleData(l).c;
    assert x == text + x[k..] && x + b == text + z;
    TextIsSeen(l, text, x[k..]);
    TextIsSeen(More(l, b), text, z);
    assert More(h, b).input == z;
    SeenTwice(Below(l), Top(l), text, x[k..], z);
    assert Below(More(h, b)) == Below(h).(input := z) && Below(More(l, b)) == Below(l).(input := x + b);
    if |z| >= 2 {
      assert [] + z == z;
      TextIsSeen(More(h, b), [], z);
    } else {
      TooShort(More(h, b));
    }
  }

  lemma TooShort(c: Config)
    requires c.stack != [] && Top(c).SimpleFrame? && |c.input| < 2
    ensures SimpleData(c) == Halt(c, Premature)
  {
  }

  lemma SeenTwice(base: Config, f: Frame, text: seq<int>, left: seq<int>, z: seq<int>)
    requires f.SimpleFrame? && |left| < 2 && (z <= CRLF || CRLF <= z)
    ensures var h := TextSeen(base, f, text, left).c;
            && TextSeen(base, f, text, left).Halt? && h.stack != [] && Top(h).SimpleFrame?
            && Top(h).started == f.started && h.ret == base.ret && h.input == left
            && (forall i, j :: TextSeen(base.(input := i), f, text, z)
                               == if |z| < 2 then Halt(h.(input := z), Premature)
                                  else TextSeen(Below(h).(input := j), Top(h), [], z))
  {
    hide Append;
    AppendNone(Append(f.bufs, text, |text|));
    assert Below(TextSeen(base, f, text, left).c).stack == base.stack;
  }

  lemma AppendNone(bufs: seq<seq<int>>)
    ensures Append(bufs, [], 0) == bufs
  {
  }

  lemma BulkHalts(l: Config)
    requires l.stack != [] && Top(l).BulkFrame? && BulkData(l).Halt? && BulkData(l).why == Premature
    ensures var h := BulkData(l).c; h.ret == l.ret && h.stack != [] && Top(h).BulkFrame? && Top(h).sized == Top(l).sized
  {
  }

  function BytesIn(bufs: seq<seq<int>>): nat {
    if bufs == [] then 0 else BytesIn(bufs[..|bufs| - 1]) + |bufs[|bufs| - 1]|
  }

  /** Whatever goes wrong with the bytes, their number is right. */
  lemma {:induction false} AppendCounts(bufs: seq<seq<int>>, p: seq<int>, n: int)
    requires 0 <= n <= |p|
    ensures BytesIn(Append(bufs, p, n)) == BytesIn(bufs) + n
    decreases n, if bufs != [] && |bufs[|bufs| - 1]| < BUF_SIZE then 0 else 1
  {
    if n == 0 {
    } else if bufs == [] || |bufs[|bufs| - 1]| >= BUF_SIZE {
      assert (bufs + [[]])[..|bufs|] == bufs;
      AppendCounts(bufs + [[]], p, n);
    } else {
      var last := |bufs| - 1;
      var k := Min(BUF_SIZE - |bufs[last]|, n);
      var bufs' := bufs[last := Overlay(bufs[last], p, k)];
      assert bufs'[..last] == bufs[..last];
      AppendCounts(bufs', p, n - k);
    }
  }

  // ---------------------------------------------------------------- any number of pieces

  /** The pieces are parsed as they arrive; an error ends it. */
  function Feed(c: Config, chunks: seq<seq<int>>): Next
    decreases |chunks|
  {
    if chunks == [] then Halt(c, Premature)
    else
      var r := Run(More(c, chunks[0]));
      if r.Halt? && r.why == Premature then Feed(r.c, chunks[1..]) else r
  }

  function Concat(chunks: seq<seq<int>>): seq<int> {
    if chunks == [] then [] else chunks[0] + Concat(chunks[1..])
  }

  /** What simple and error strings may leave behind: a text of that kind, or one with a gap, a
      buffer whose last byte was counted and never written. */
  datatype Trace = OfText | OfGap

  predicate Gap(bufs: seq<seq<int>>) {
    exists i | 0 <= i < |bufs| :: bufs[i] != [] && bufs[i][|bufs[i]| - 1] == -1
  }

  predicate ReplyFree(tr: Trace, r: Reply) {
    match r
    case Text(kind, bufs, _) => if tr == OfText then kind == Bulk else !Gap(bufs)
    case Arr(elems) => forall e | e in elems :: ReplyFree(tr, e)
    case _ => true
  }

  predicate RepliesFree(tr: Trace, rs: seq<Reply>) { forall r | r in rs :: ReplyFree(tr, r) }

  predicate FrameFree(tr: Trace, f: Frame) {
    match f
    case TopFrame(_, _) => true
    case ArrayFrame(_, _, elems, _) => RepliesFree(tr, elems)
    case BulkFrame(_, _, _) => true
    case SimpleFrame(_, started, _, bufs) => tr == OfGap && (started ==> !Gap(bufs))
  }

  predicate StackFree(tr: Trace, s: seq<Frame>) {
    s == [] || (FrameFree(tr, s[|s| - 1]) && StackFree(tr, s[..|s| - 1]))
  }

  /** No such trace so far. */
  predicate Free(tr: Trace, c: Config) {
    StackFree(tr, c.stack) && (c.ret.Some? ==> ReplyFree(tr, c.ret.value)) && RepliesFree(tr, c.out)
  }

  lemma FreeSnoc(tr: Trace, rs: seq<Reply>, r: Reply)
    ensures RepliesFree(tr, rs + [r]) ==> RepliesFree(tr, rs) && ReplyFree(tr, r)
  {
    assert r in rs + [r] && forall e | e in rs :: e in rs + [r];
  }

  lemma FreePush(tr: Trace, s: seq<Frame>, f: Frame)
    ensures StackFree(tr, s + [f]) <==> FrameFree(tr, f) && StackFree(tr, s)
  {
    assert (s + [f])[..|s|] == s;
  }

  lemma DeliverKeepsTrace(tr: Trace, c: Config)
    requires c.ret.Some? && Shape(c) && Free(tr, Deliver(c))
    ensures Free(tr, c)
  {
    hide ReplyFree, RepliesFree;
    FreeSnoc(tr, c.out, c.ret.value);
    if c.stack != [] && Top(c).ArrayFrame? {
      var f, n := Top(c), |c.stack| - 1;
      FreeSnoc(tr, f.elems, c.ret.value);
      ArrIsFree(tr, f.elems + [c.ret.value]);
      if |f.elems| + 2 <= f.len {
        assert Deliver(c).stack[..n] == c.stack[..n];
      }
    }
  }

  lemma ArrIsFree(tr: Trace, elems: seq<Reply>)
    ensures ReplyFree(tr, Arr(elems)) <==> RepliesFree(tr, elems)
  {
  }

  /** What a step that does not deliver does to the builders: it touches none but the top one and
      adds at most one. */
  predicate Touches(tr: Trace, c: Config, c': Config)
    requires c.stack != []
  {
    var n, t := |c.stack| - 1, Top(c);
    && c'.out == c.out && n <= |c'.stack| <= n + 2 && c'.stack[..n] == c.stack[..n]
    && (|c'.stack| == n ==>
          c'.ret.Some? && ((t.ArrayFrame? && t.elems == []) || t.BulkFrame?
                           || (t.SimpleFrame? && c'.ret.value.Text? && c'.ret.value.kind != Bulk
                               && (t.started && Gap(t.bufs) ==> Gap(c'.ret.value.bufs)))))
    && (|c'.stack| == n + 1 ==> (FrameFree(tr, c'.stack[n]) ==> FrameFree(tr, t)))
    && (|c'.stack| == n + 2 ==> c'.stack[n] == t)
  }

  lemma ReadTouches(tr: Trace, c: Config)
    requires c.stack != [] && (Top(c).TopFrame? || Top(c).ArrayFrame?)
    ensures Touches(tr, c, TakeType(c).c) && forall ty :: Touches(tr, c, Content(c, ty).c)
  {
    hide LineEnd, IntValue, TypeOf, ReplyFree, RepliesFree, NewFrame;
  }

  lemma LenTouches(tr: Trace, c: Config)
    requires c.stack != []
    ensures Top(c).ArrayFrame? && Top(c).elems == [] ==> Touches(tr, c, ArrayLen(c).c)
    ensures Top(c).BulkFrame? ==> Touches(tr, c, BulkLen(c).c)
  {
    hide LineEnd, IntValue, ReplyFree, RepliesFree;
  }

  lemma BulkTouches(tr: Trace, c: Config)
    requires c.stack != [] && Top(c).BulkFrame?
    ensures Touches(tr, c, BulkData(c).c)
  {
    hide ReplyFree, RepliesFree;
  }

  lemma SimpleTouches(tr: Trace, c: Config)
    requires c.stack != [] && Top(c).SimpleFrame? && Top(c).kind != Bulk
    ensures Top(c).started ==> Touches(tr, c, SimpleData(c).c)
    ensures !Top(c).started ==> Touches(tr, c, SetTop(c, SimpleFrame(Top(c).kind, true, 0, [[]])))
  {
    hide LineEnd, Append, ReplyFree, RepliesFree, Gap;
    LineEndRange(c.input);
    forall n | 0 <= n <= |c.input| ensures Gap(Top(c).bufs) ==> Gap(Append(Top(c).bufs, c.input, n)) {
      GapStays(Top(c).bufs, c.input, n);
    }
  }

  /** A gap is never filled, and any text behind a first part leaves one. */
  lemma {:induction false} GapStays(bufs: seq<seq<int>>, p: seq<int>, n: int)
    requires 0 <= n <= |p|
    ensures Gap(bufs) ==> Gap(Append(bufs, p, n))
    ensures n > 0 && bufs != [] && 0 < |bufs[|bufs| - 1]| < BUF_SIZE ==> Gap(Append(bufs, p, n))
    decreases n, if bufs != [] && |bufs[|bufs| - 1]| < BUF_SIZE then 0 else 1
  {
    if n == 0 {
    } else if bufs == [] || |bufs[|bufs| - 1]| >= BUF_SIZE {
      if Gap(bufs) { GapKept(bufs, bufs + [[]]); }
      GapStays(bufs + [[]], p, n);
    } else {
      var last := |bufs| - 1;
      var k := Min(BUF_SIZE - |bufs[last]|, n);
      var bufs' := bufs[last := Overlay(bufs[last], p, k)];
      if bufs[last] != [] {
        assert bufs'[last][|bufs'[last]| - 1] == -1;
      } else if Gap(bufs) {
        GapKept(bufs, bufs');
      }
      GapStays(bufs', p, n - k);
    }
  }

  lemma GapKept(bufs: seq<seq<int>>, bufs': seq<seq<int>>)
    requires Gap(bufs) && |bufs| <= |bufs'| && forall i | 0 <= i < |bufs| :: bufs[i] != [] ==> bufs'[i] == bufs[i]
    ensures Gap(bufs')
  {
    var i :| 0 <= i < |bufs| && bufs[i] != [] && bufs[i][|bufs[i]| - 1] == -1;
    assert bufs'[i] == bufs[i];
  }

  lemma StepTouches(tr: Trace, c: Config)
    requires c.ret.None? && c.stack != [] && Shape(c)
    ensures Touches(tr, c, Step(c).c)
  {
    hide Content, TakeType, ArrayLen, BulkLen, BulkData, SimpleData, Deliver, Touches;
    LenTouches(tr, c);
    match Top(c)
    case TopFrame(_, _) => ReadTouches(tr, c);
    case ArrayFrame(_, _, _, _) => ReadTouches(tr, c);
    case BulkFrame(_, _, _) => BulkTouches(tr, c);
    case SimpleFrame(_, _, _, _) => SimpleTouches(tr, c);
  }

  lemma TouchesBack(tr: Trace, c: Config, c': Config)
    requires c.ret.None? && c.stack != [] && Touches(tr, c, c') && Free(tr, c')
    ensures Free(tr, c)
  {
    hide RepliesFree, StackFree, Touches;
    var n, p, t := |c.stack| - 1, c.stack[..|c.stack| - 1], Top(c);
    assert c.stack == p + [t];
    FreePush(tr, p, t);
    TouchedCases(tr, c, c');
    if |c'.stack| == n {
      assert c'.stack == p;
    } else if |c'.stack| == n + 1 {
      assert c'.stack == p + [c'.stack[n]];
      FreePush(tr, p, c'.stack[n]);
    } else {
      assert c'.stack == c.stack + [c'.stack[n + 1]];
      FreePush(tr, c.stack, c'.stack[n + 1]);
    }
  }

  lemma TouchedCases(tr: Trace, c: Config, c': Config)
    requires c.stack != [] && Touches(tr, c, c')
    ensures var n, t := |c.stack| - 1, Top(c);
            && c'.out == c.out && n <= |c'.stack| <= n + 2 && c'.stack[..n] == c.stack[..n]
            && (|c'.stack| == n ==> c'.ret.Some? && (ReplyFree(tr, c'.ret.value) ==> FrameFree(tr, t)))
            && (|c'.stack| == n + 1 ==> (FrameFree(tr, c'.stack[n]) ==> FrameFree(tr, t)))
            && (|c'.stack| == n + 2 ==> c'.stack[n] == t)
  {
  }

  /** A simple or error string leaves a trace in every later state, and so does a gap. */
  lemma TraceStays(tr: Trace, c: Config)
    requires Shape(c) && Free(tr, Step(c).c)
    ensures Free(tr, c)
  {
    if c.ret.Some? {
      DeliverKeepsTrace(tr, c);
    } else if c.stack != [] {
      hide *;
      StepTouches(tr, c);
      TouchesBack(tr, c, Step(c).c);
    }
  }

  lemma {:induction false} TraceEver(tr: Trace, c: Config)
    requires Shape(c) && Free(tr, Run(c).c)
    ensures Free(tr, c)
    decreases |c.input|, Rank(c)
  {
    hide Step, Run, Shape, Free, Rank;
    StepDecreases(c);
    RunUnfolds(c);
    StepKeepsShape(c);
    if Step(c).Go? { TraceEver(tr, Step(c).c); }
    TraceStays(tr, c);
  }

  lemma {:induction false} LastKeepsShape(c: Config)
    requires Shape(c)
    ensures Shape(Last(c))
    decreases |c.input|, Rank(c)
  {
    hide Step, Shape, Rank;
    StepDecreases(c);
    StepKeepsShape(c);
    LastUnfolds(c);
    if Step(c).Go? { LastKeepsShape(Step(c).c); }
  }

  /** A parser that waits for input. */
  predicate AtRest(c: Config) { Shape(c) && Run(c) == Halt(c, Premature) }

  lemma HaltRests(l: Config)
    requires Shape(l) && Step(l).Halt? && Step(l).why == Premature
    ensures AtRest(Step(l).c)
  {
    hide Run, Shape, LineEnd, Append, IntValue, TypeOf, BulkData;
    var h := Step(l).c;
    StepKeepsShape(l);
    RunUnfolds(h);
    RunUnfolds(l);
    assert More(l, []) == l && More(h, []) == h;
    if l.stack != [] && Top(l).SimpleFrame? {
      assert |h.input| < 2;
    } else {
      HaltAgrees(l, []);
    }
  }

  lemma ResumeAgrees(c: Config, b: seq<int>)
    requires Shape(c) && Run(c).why == Premature && Harmless(Last(c), b)
    ensures AtRest(Run(c).c) && Agree(Run(More(Run(c).c, b)), Run(More(c, b)))
  {
    hide Run, Shape, Step, Harmless;
    LastIsLast(c);
    LastKeepsShape(c);
    HaltRests(Last(c));
    CutAnywhere(c, b);
  }

  /** Every cut is harmless. */
  predicate HarmlessCuts(c: Config, chunks: seq<seq<int>>)
    decreases |chunks|
  {
    chunks == [] ||
    var c1 := More(c, chunks[0]);
    Run(c1).why == Premature ==> Harmless(Last(c1), Concat(chunks[1..])) && HarmlessCuts(Run(c1).c, chunks[1..])
  }

  /** Any stream may be cut into any pieces, if no cut falls inside the text of a simple or error
      string: the same replies come out, the same bytes are left over, the same builders are
      waiting, or the same error ends it. */
  lemma {:induction false} CutsDoNotMatter(c: Config, chunks: seq<seq<int>>)
    requires AtRest(c) && HarmlessCuts(c, chunks)
    ensures Agree(Feed(c, chunks), Run(More(c, Concat(chunks))))
    decreases |chunks|
  {
    hide Run, Shape, Harmless;
    if chunks == [] {
      assert More(c, []) == c;
    } else {
      var c1, rest := More(c, chunks[0]), Concat(chunks[1..]);
      MoreTwice(c, chunks[0], rest);
      ShapeMore(c, chunks[0]);
      if Run(c1).why == Premature {
        ResumeAgrees(c1, rest);
        CutsDoNotMatter(Run(c1).c, chunks[1..]);
      } else {
        BadStays(c1, rest);
      }
    }
  }

  lemma MoreTwice(c: Config, a: seq<int>, b: seq<int>)
    ensures More(More(c, a), b) == More(c, a + b)
  {
    assert c.input + a + b == c.input + (a + b);
  }

  /** A stream that is parsed without meeting a simple or error string may be cut anywhere. */
  lemma {:induction false} ChunksDoNotMatter(c: Config, chunks: seq<seq<int>>)
    requires AtRest(c) && Free(OfText, Run(More(c, Concat(chunks))).c)
    ensures HarmlessCuts(c, chunks) && Agree(Feed(c, chunks), Run(More(c, Concat(chunks))))
    decreases |chunks|
  {
    hide Run, Shape, Free, Harmless, Step;
    if chunks != [] {
      var c1, rest := More(c, chunks[0]), Concat(chunks[1..]);
      MoreTwice(c, chunks[0], rest);
      ShapeMore(c, chunks[0]);
      if Run(c1).why == Premature {
        var l := Last(c1);
        LastKeepsShape(c1);
        LastIsLast(c1);
        RunMore(c1, rest);
        ShapeMore(l, rest);
        TraceEver(OfText, More(l, rest));
        FreeMore(OfText, l, rest);
        FreeIsHarmless(l, rest);
        ResumeAgrees(c1, rest);
        AgreeFree(OfText, Run(More(Run(c1).c, rest)), Run(More(c1, rest)));
        ChunksDoNotMatter(Run(c1).c, chunks[1..]);
      }
    }
    CutsDoNotMatter(c, chunks);
  }

  lemma FreeIsHarmless(l: Config, b: seq<int>)
    requires Free(OfText, l)
    ensures Harmless(l, b)
  {
  }

  lemma FreeMore(tr: Trace, c: Config, b: seq<int>)
    ensures Free(tr, More(c, b)) == Free(tr, c)
  {
  }

  lemma ShapeMore(c: Config, b: seq<int>)
    ensures Shape(More(c, b)) == Shape(c)
  {
  }

  lemma AgreeFree(tr: Trace, r: Next, s: Next)
    requires Agree(r, s)
    ensures Free(tr, r.c) == Free(tr, s.c)
  {
  }

  lemma BadStays(c: Config, b: seq<int>)
    requires Run(c).Halt? && Run(c).why != Premature
    ensures Run(More(c, b)) == Halt(More(Run(c).c, b), Run(c).why)
  {
    hide Run, Step;
    var l := Last(c);
    LastIsLast(c);
    RunMore(c, b);
    StepBad(l, b);
    RunUnfolds(More(l, b));
  }
}
